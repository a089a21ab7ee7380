/** The Firestore production store: production documents beside content-addressed, write-once frame bytes. */
module EvidenceStore {
  import opened Domain
  import opened Records
  import opened Documents
  import opened Png
  import opened Release
  import opened ProductionStore
  import opened FirestoreProposals

  // ---------------------------------------------------------------- storage paths

  /** `<directory>/<digest>.png`: a digest has a fixed width, so the two parts determine the path. */
  datatype StoragePath = StoragePath(directory: string, digest: Digest)

  function PathOf(productionId: string, f: Frame): StoragePath {
    StoragePath("productions/" + productionId + "/frames/" + f.id, Sha256(Bytes(f.image)))
  }

  /** Python's `s.split("/")`. */
  function Components(s: string): (r: seq<string>)
    ensures r != []
  {
    if s == [] then [""]
    else
      var before := Components(s[..|s|-1]);
      if s[|s|-1] == '/' then before + [""]
      else before[|before| - 1 := before[|before| - 1] + [s[|s|-1]]]
  }

  predicate ValidPath(p: StoragePath) {
    && p.directory != "" && !IsSpace(p.directory[0])
    && '\\' !in p.directory && p.directory[0] != '/'
    && forall c :: c in Components(p.directory) ==> c !in {"", ".", ".."}
  }

  type Blobs = map<StoragePath, seq<Byte>>

  /** Every stored object has the digest that its path names. */
  ghost predicate ContentAddressed(blobs: Blobs) {
    forall p :: p in blobs ==> p.digest == Sha256(Bytes(blobs[p]))
  }

  datatype StorageError = BadDigest | IntegrityFailure | BadPath | Collision

  /** A create-only write, checked before and after. */
  function PutError(blobs: Blobs, path: StoragePath, data: seq<Byte>, expected: Digest): Option<StorageError> {
    if !LowerHexDigest(expected) then Some(BadDigest)
    else if Sha256(Bytes(data)) != expected then Some(IntegrityFailure)
    else if !ValidPath(path) then Some(BadPath)
    else if path in blobs && blobs[path] != data then Some(Collision)
    else None
  }

  class EvidenceStorage {
    var blobs: Blobs

    constructor ()
      ensures blobs == map[]
    {
      blobs := map[];
    }

    method Get(path: StoragePath) returns (data: Option<seq<Byte>>)
      ensures data == if path in blobs then Some(blobs[path]) else None
    {
      return if path in blobs then Some(blobs[path]) else None;
    }

    /** Existing objects are left as they are; writing different bytes over one is refused. */
    method Put(path: StoragePath, data: seq<Byte>) returns (error: Option<StorageError>)
      modifies this
      ensures error == if !ValidPath(path) then Some(BadPath)
                       else if path in old(blobs) && old(blobs)[path] != data then Some(Collision) else None
      ensures blobs == if error.None? then old(blobs)[path := data] else old(blobs)
    {
      if !ValidPath(path) {
        return Some(BadPath);
      }
      if path in blobs {
        if blobs[path] == data {
          assert blobs == blobs[path := data];
          return None;
        }
        return Some(Collision);
      }
      blobs := blobs[path := data];
      return None;
    }

    method PutVerified(path: StoragePath, data: seq<Byte>, expected: Digest) returns (error: Option<StorageError>)
      modifies this
      ensures error == PutError(old(blobs), path, data, expected)
      ensures blobs == if error.None? then old(blobs)[path := data] else old(blobs)
    {
      if !LowerHexDigest(expected) {
        return Some(BadDigest);
      }
      if Sha256(Bytes(data)) != expected {
        return Some(IntegrityFailure);
      }
      error := Put(path, data);
      if error.Some? {
        return;
      }
      var readBack := Get(path);
      if readBack.None? || readBack.value != data || Sha256(Bytes(readBack.value)) != expected {
        return Some(IntegrityFailure);
      }
    }
  }

  // ---------------------------------------------------------------- registrations and documents

  datatype Registration = Registration(obligations: seq<Obligation>, manifest: Manifest, layout: Option<LayoutEvidence>,
                                       visual: Option<VisualObservations>, registry: seq<Contributor>,
                                       authorizations: seq<Authorization>, projection: ProjectionStatus,
                                       frames: seq<Frame>, index: Option<ArtifactIndex>,
                                       renderProfileVersion: Option<string>)

  datatype FrameMeta = FrameMeta(index: int, id: string, imageHash: Digest, width: int, height: int,
                                 elements: seq<FrameElement>, path: StoragePath)

  datatype ProductionDoc = ProductionDoc(obligations: seq<Obligation>, manifest: Manifest,
                                         layout: Option<LayoutEvidence>, visual: Option<VisualObservations>,
                                         registry: seq<Contributor>, projection: ProjectionStatus,
                                         frames: seq<FrameMeta>, index: Option<ArtifactIndex>,
                                         indexDigest: Option<Digest>, renderProfileVersion: string,
                                         exported: Option<ExportRecord>)

  /** What `get` returns. */
  datatype Stored = Stored(obligations: seq<Obligation>, manifest: Manifest, layout: Option<LayoutEvidence>,
                           visual: Option<VisualObservations>, registry: seq<Contributor>,
                           shelf: Shelf, projection: ProjectionStatus, frames: seq<Frame>,
                           index: Option<ArtifactIndex>, indexDigest: Option<Digest>, renderProfileVersion: string,
                           exported: Option<ExportRecord>)

  function Version(r: Registration): string {
    if r.renderProfileVersion.Some? then r.renderProfileVersion.value else "v1"
  }

  function IndexDigest(index: Option<ArtifactIndex>): Option<Digest> {
    if index.Some? then Some(DigestOf(IndexDoc(index.value))) else None
  }

  function MetaOf(productionId: string, f: Frame): FrameMeta {
    FrameMeta(f.index, f.id, f.imageHash, f.width, f.height, f.elements, PathOf(productionId, f))
  }

  /** The stored metadata of the first `n` frames. */
  function Metas(productionId: string, frames: seq<Frame>, n: nat): (r: seq<FrameMeta>)
    requires n <= |frames|
    ensures |r| == n && forall i :: 0 <= i < n ==> r[i] == MetaOf(productionId, frames[i])
  {
    if n == 0 then [] else Metas(productionId, frames, n - 1) + [MetaOf(productionId, frames[n-1])]
  }

  function DocOf(productionId: string, r: Registration): ProductionDoc {
    ProductionDoc(r.obligations, r.manifest, r.layout, r.visual, r.registry, r.projection,
                  Metas(productionId, r.frames, |r.frames|),
                  r.index, IndexDigest(r.index), Version(r), None)
  }

  /** The checks on frame `i` of a registration. */
  predicate FrameAccepted(productionId: string, r: Registration, i: nat) {
    && i < |r.frames| && (r.index.Some? ==> |r.index.value.frames| == |r.frames|)
    && var f := r.frames[i];
       && f.index == i && f.id != "" && FreshId(r.frames, i) && f.image != []
       && f.imageHash == Sha256(Bytes(f.image))
       && 0 <= f.width && 0 <= f.height && HasSize(f.image, f.width, f.height)
       && (r.index.Some? ==> r.index.value.frames[i] == IndexedFrame(f.id, f.imageHash))
       && ValidPath(PathOf(productionId, f))
  }

  /** The checks that precede the frames. */
  predicate HeadAccepted(r: Registration) {
    && !Blank(Version(r))
    && (r.frames != [] && r.index.Some? ==> |r.index.value.frames| == |r.frames|)
  }

  /** How many of the first `n` positions pass before one does not. */
  function Leading(ok: nat -> bool, n: nat): (k: nat)
    ensures k <= n && forall i :: 0 <= i < k ==> ok(i)
  {
    if n == 0 then 0
    else
      var k := Leading(ok, n - 1);
      if k == n - 1 && ok(n - 1) then n else k
  }

  lemma {:induction false} LeadingStops(ok: nat -> bool, i: nat, n: nat)
    requires i < n && Leading(ok, i) == i && !ok(i)
    ensures Leading(ok, n) == i
  {
    if n > i + 1 {
      LeadingStops(ok, i, n - 1);
    }
  }

  /** How many leading frames pass; their bytes are stored even when a later frame fails. */
  function Accepted(productionId: string, r: Registration, n: nat): (k: nat)
    ensures k <= n
  {
    Leading((i: nat) => FrameAccepted(productionId, r, i), n)
  }

  lemma AcceptedNext(productionId: string, r: Registration, i: nat, n: nat)
    requires i < n && Accepted(productionId, r, i) == i
    ensures FrameAccepted(productionId, r, i) ==> Accepted(productionId, r, i + 1) == i + 1
    ensures !FrameAccepted(productionId, r, i) ==> Accepted(productionId, r, n) == i
  {
    var ok := (i: nat) => FrameAccepted(productionId, r, i);
    if !ok(i) {
      LeadingStops(ok, i, n);
    }
  }

  lemma AllAccepted(productionId: string, r: Registration, n: nat, i: nat)
    requires Accepted(productionId, r, n) == n && i < n
    ensures FrameAccepted(productionId, r, i)
  {
    var ok := (i: nat) => FrameAccepted(productionId, r, i);
    assert ok(i);
  }

  function StoredFrames(productionId: string, r: Registration): (k: nat)
    ensures k <= |r.frames|
  {
    if HeadAccepted(r) && r.frames != [] then Accepted(productionId, r, |r.frames|) else 0
  }

  predicate Registrable(productionId: string, r: Registration) {
    HeadAccepted(r) && StoredFrames(productionId, r) == |r.frames|
  }

  /** The blobs after the first `n` frames were stored. */
  function WithFrames(blobs: Blobs, productionId: string, frames: seq<Frame>, n: nat): Blobs
    requires n <= |frames|
  {
    if n == 0 then blobs
    else WithFrames(blobs, productionId, frames, n - 1)[PathOf(productionId, frames[n-1]) := frames[n-1].image]
  }

  lemma {:induction false} WithFramesAddressed(blobs: Blobs, productionId: string, frames: seq<Frame>, n: nat)
    requires ContentAddressed(blobs) && n <= |frames|
    ensures ContentAddressed(WithFrames(blobs, productionId, frames, n))
    ensures forall p :: p in blobs ==> p in WithFrames(blobs, productionId, frames, n)
    ensures forall p :: p in blobs ==> WithFrames(blobs, productionId, frames, n)[p] == blobs[p]
    ensures forall i :: 0 <= i < n ==> PathOf(productionId, frames[i]) in WithFrames(blobs, productionId, frames, n)
  {
    if n > 0 {
      WithFramesAddressed(blobs, productionId, frames, n - 1);
      var (before, path) := (WithFrames(blobs, productionId, frames, n - 1), PathOf(productionId, frames[n-1]));
      assert path in before ==> path.digest == Sha256(Bytes(before[path]));
    }
  }

  // ---------------------------------------------------------------- the sub-collections

  /** The proposals and authorizations under a production; an empty sub-collection does not exist apart. */
  function ShelfOf(shelves: Shelves, productionId: string): Shelf {
    if productionId in shelves then shelves[productionId] else Shelf(map[], map[])
  }

  /** Supplied authorizations are written in order, under their ids; one without an id is passed over. */
  function Supplied(m: map<string, Authorization>, auths: seq<Authorization>): map<string, Authorization> {
    if auths == [] then m
    else
      var (before, a) := (Supplied(m, auths[..|auths|-1]), auths[|auths|-1]);
      if a.id == "" then before else before[a.id := a]
  }

  /** The shelves after a registration. */
  function WithShelf(shelves: Shelves, productionId: string, auths: seq<Authorization>): Shelves {
    var shelf := ShelfOf(shelves, productionId);
    shelves[productionId := shelf.(authorizations := Supplied(shelf.authorizations, auths))]
  }

  // ---------------------------------------------------------------- reading back

  function MetaIdsBefore(metas: seq<FrameMeta>, i: nat): set<string>
    requires i <= |metas|
  {
    if i == 0 then {} else MetaIdsBefore(metas, i - 1) + {metas[i-1].id}
  }

  lemma {:induction false} InMetaIdsBefore(metas: seq<FrameMeta>, i: nat, id: string)
    requires i <= |metas|
    ensures id in MetaIdsBefore(metas, i) <==> exists k :: 0 <= k < i && metas[k].id == id
  {
    if i > 0 {
      InMetaIdsBefore(metas, i - 1, id);
      assert id == metas[i-1].id ==> exists k :: 0 <= k < i && metas[k].id == id;
    }
  }

  predicate FrameReadable(d: ProductionDoc, blobs: Blobs, i: nat) {
    && i < |d.frames| && (d.index.Some? ==> |d.index.value.frames| == |d.frames|)
    && var f := d.frames[i];
       && f.index == i && f.id != "" && (forall j :: 0 <= j < i ==> d.frames[j].id != f.id)
       && LowerHexDigest(f.imageHash)
       && 0 < f.width && 0 < f.height && ValidPath(f.path)
       && (d.index.Some? ==> d.index.value.frames[i] == IndexedFrame(f.id, f.imageHash))
       && f.path in blobs && Sha256(Bytes(blobs[f.path])) == f.imageHash
       && HasSize(blobs[f.path], f.width, f.height)
  }

  /** The first `n` positions pass. */
  predicate AllPass(ok: nat -> bool, n: nat) {
    n == 0 || (AllPass(ok, n - 1) && ok(n - 1))
  }

  lemma {:induction false} AllPassEach(ok: nat -> bool, n: nat)
    ensures AllPass(ok, n) <==> forall i :: 0 <= i < n ==> ok(i)
  {
    if n > 0 {
      AllPassEach(ok, n - 1);
    }
  }

  /** The first `n` frames can be read. */
  predicate Readable(d: ProductionDoc, blobs: Blobs, n: nat) {
    AllPass((i: nat) => FrameReadable(d, blobs, i), n)
  }

  lemma ReadableEach(d: ProductionDoc, blobs: Blobs, n: nat)
    ensures Readable(d, blobs, n) <==> forall i :: 0 <= i < n ==> FrameReadable(d, blobs, i)
  {
    var ok := (i: nat) => FrameReadable(d, blobs, i);
    AllPassEach(ok, n);
    assert forall i: nat :: ok(i) == FrameReadable(d, blobs, i);
  }

  predicate FramesReadable(d: ProductionDoc, blobs: Blobs) {
    && (d.frames != [] && d.index.Some? ==> |d.index.value.frames| == |d.frames|)
    && Readable(d, blobs, |d.frames|)
  }

  predicate HeadReadable(d: ProductionDoc) {
    && !Blank(d.renderProfileVersion)
    && d.indexDigest == IndexDigest(d.index) && (d.indexDigest.Some? ==> LowerHexDigest(d.indexDigest.value))
  }

  predicate ExportReadable(d: ProductionDoc) {
    d.exported.Some? ==> LowerHexDigest(d.exported.value.releaseDigest) && !Blank(d.exported.value.path)
  }

  predicate DocReadable(d: ProductionDoc, blobs: Blobs) {
    HeadReadable(d) && FramesReadable(d, blobs) && ExportReadable(d)
  }

  function FrameOf(f: FrameMeta, blobs: Blobs): Frame {
    Frame(f.id, f.index, f.width, f.height, f.imageHash, if f.path in blobs then blobs[f.path] else [], f.elements)
  }

  /** The frames of the first `n` metadata records, with the stored bytes. */
  function FramesOf(metas: seq<FrameMeta>, blobs: Blobs, n: nat): (r: seq<Frame>)
    requires n <= |metas|
    ensures |r| == n && forall i :: 0 <= i < n ==> r[i] == FrameOf(metas[i], blobs)
  {
    if n == 0 then [] else FramesOf(metas, blobs, n - 1) + [FrameOf(metas[n-1], blobs)]
  }

  function Rehydrated(d: ProductionDoc, blobs: Blobs, shelf: Shelf): Stored {
    Stored(d.obligations, d.manifest, d.layout, d.visual, d.registry, shelf, d.projection,
           FramesOf(d.frames, blobs, |d.frames|), d.index, d.indexDigest, d.renderProfileVersion, d.exported)
  }

  datatype ReadResult = Absent | Malformed | Found(stored: Stored)

  function ReadDoc(docs: map<string, ProductionDoc>, blobs: Blobs, shelves: Shelves, productionId: string): ReadResult {
    if productionId !in docs then Absent
    else if !DocReadable(docs[productionId], blobs) then Malformed
    else Found(Rehydrated(docs[productionId], blobs, ShelfOf(shelves, productionId)))
  }

  function DocExportError(docs: map<string, ProductionDoc>, productionId: string, x: ExportRecord): Option<StoreError> {
    if !LowerHexDigest(x.releaseDigest) || Blank(x.path) then Some(InvalidExport)
    else if productionId !in docs then Some(NoSuchProduction)
    else if docs[productionId].exported in {None, Some(x)} then None
    else Some(ConflictingExport)
  }

  function WithExport(docs: map<string, ProductionDoc>, productionId: string, x: ExportRecord): map<string, ProductionDoc> {
    if DocExportError(docs, productionId, x).Some? then docs
    else docs[productionId := docs[productionId].(exported := Some(x))]
  }

  // ---------------------------------------------------------------- the store

  class FirestoreProductionStore {
    var docs: map<string, ProductionDoc>
    const storage: EvidenceStorage
    const proposals: FirestoreProposalStore

    constructor (storage: EvidenceStorage, proposals: FirestoreProposalStore)
      ensures docs == map[] && this.storage == storage && this.proposals == proposals
    {
      docs := map[];
      this.storage := storage;
      this.proposals := proposals;
    }

    method CheckFrame(productionId: string, r: Registration, i: nat, seen: set<string>) returns (ok: bool)
      requires i < |r.frames| && (r.index.Some? ==> |r.index.value.frames| == |r.frames|)
      requires seen == IdsBefore(r.frames, i)
      ensures ok <==> FrameAccepted(productionId, r, i)
    {
      var f := r.frames[i];
      FreshIffUnseen(r.frames, i);
      if f.index != i || f.id == "" || f.id in seen || f.image == [] {
        return false;
      }
      if Sha256(Bytes(f.image)) != f.imageHash {
        return false;
      }
      if f.width < 0 || f.height < 0 {
        return false;
      }
      var valid, reason, w, h := AuditPng(f.image, Some(f.width), Some(f.height));
      if !valid || w != f.width || h != f.height {
        return false;
      }
      if r.index.Some? {
        var entry := r.index.value.frames[i];
        if entry.frameId != f.id || entry.sha256 != f.imageHash {
          return false;
        }
      }
      return ValidPath(PathOf(productionId, f));
    }

    /** A frame that is accepted is stored under its path. */
    method StoreFrame(productionId: string, r: Registration, i: nat, seen: set<string>) returns (ok: bool)
      requires i < |r.frames| && (r.index.Some? ==> |r.index.value.frames| == |r.frames|)
      requires seen == IdsBefore(r.frames, i)
      requires ContentAddressed(storage.blobs)
      modifies storage
      ensures ok <==> FrameAccepted(productionId, r, i)
      ensures ContentAddressed(storage.blobs)
      ensures storage.blobs == if ok then old(storage.blobs)[PathOf(productionId, r.frames[i]) := r.frames[i].image]
                               else old(storage.blobs)
    {
      ok := CheckFrame(productionId, r, i, seen);
      if ok {
        var f := r.frames[i];
        var error := storage.PutVerified(PathOf(productionId, f), f.image, f.imageHash);
      }
    }

    /** The first `i` frames are stored, and nothing else has changed. */
    ghost predicate StoredSoFar(blobs: Blobs, productionId: string, r: Registration, i: nat, seen: set<string>,
                                metas: seq<FrameMeta>)
      reads storage
    {
      && i <= |r.frames| && seen == IdsBefore(r.frames, i) && metas == Metas(productionId, r.frames, i)
      && Accepted(productionId, r, i) == i
      && storage.blobs == WithFrames(blobs, productionId, r.frames, i) && ContentAddressed(storage.blobs)
    }

    method StoreNext(ghost blobs: Blobs, productionId: string, r: Registration, i: nat, seen: set<string>,
                     metas: seq<FrameMeta>) returns (ok: bool, seen': set<string>, metas': seq<FrameMeta>)
      requires i < |r.frames| && (r.index.Some? ==> |r.index.value.frames| == |r.frames|)
      requires StoredSoFar(blobs, productionId, r, i, seen, metas)
      modifies storage
      ensures ok ==> StoredSoFar(blobs, productionId, r, i + 1, seen', metas')
      ensures !ok ==> metas' == metas && Accepted(productionId, r, |r.frames|) == i
                      && storage.blobs == WithFrames(blobs, productionId, r.frames, i)
    {
      ok := StoreFrame(productionId, r, i, seen);
      AcceptedNext(productionId, r, i, |r.frames|);
      seen', metas' := seen, metas;
      if ok {
        seen' := seen + {r.frames[i].id};
        metas' := metas + [MetaOf(productionId, r.frames[i])];
      }
    }

    /** Frames are stored one by one, up to the first that is not accepted. */
    method StoreFrames(productionId: string, r: Registration) returns (metas: seq<FrameMeta>)
      requires ContentAddressed(storage.blobs)
      requires HeadAccepted(r) && r.frames != []
      modifies storage
      ensures metas == Metas(productionId, r.frames, Accepted(productionId, r, |r.frames|))
      ensures storage.blobs == WithFrames(old(storage.blobs), productionId, r.frames, Accepted(productionId, r, |r.frames|))
    {
      metas := [];
      var seen: set<string> := {};
      for i := 0 to |r.frames|
        invariant StoredSoFar(old(storage.blobs), productionId, r, i, seen, metas)
      {
        var accepted;
        accepted, seen, metas := StoreNext(old(storage.blobs), productionId, r, i, seen, metas);
        if !accepted {
          return;
        }
      }
    }

    /** The supplied authorizations, one document each. */
    method StoreAuthorizations(productionId: string, auths: seq<Authorization>)
      modifies proposals
      ensures proposals.shelves == WithShelf(old(proposals.shelves), productionId, auths)
    {
      ghost var m := ShelfOf(proposals.shelves, productionId).authorizations;
      var shelf := if productionId in proposals.shelves then proposals.shelves[productionId] else Shelf(map[], map[]);
      for i := 0 to |auths|
        invariant shelf == ShelfOf(proposals.shelves, productionId).(authorizations := Supplied(m, auths[..i]))
        invariant proposals.shelves == old(proposals.shelves)
      {
        assert auths[..i+1][..i] == auths[..i];
        if auths[i].id != "" {
          shelf := shelf.(authorizations := shelf.authorizations[auths[i].id := auths[i]]);
        }
      }
      assert auths[..|auths|] == auths;
      proposals.shelves := proposals.shelves[productionId := shelf];
    }

    /** The document and the supplied authorizations are written only when every frame was accepted. */
    method Register(productionId: string, r: Registration) returns (ok: bool)
      requires ContentAddressed(storage.blobs)
      modifies this`docs, storage, proposals
      ensures ok <==> Registrable(productionId, r)
      ensures docs == if ok then old(docs)[productionId := DocOf(productionId, r)] else old(docs)
      ensures storage.blobs == WithFrames(old(storage.blobs), productionId, r.frames, StoredFrames(productionId, r))
      ensures proposals.shelves == if ok then WithShelf(old(proposals.shelves), productionId, r.authorizations)
                                   else old(proposals.shelves)
    {
      if Blank(Version(r)) {
        return false;
      }
      if r.frames != [] && r.index.Some? && |r.index.value.frames| != |r.frames| {
        return false;
      }
      var metas: seq<FrameMeta> := [];
      if r.frames != [] {
        metas := StoreFrames(productionId, r);
        if |metas| < |r.frames| {
          return false;
        }
      }
      var indexDigest := if r.index.Some? then Some(DigestOf(IndexDoc(r.index.value))) else None;
      docs := docs[productionId := ProductionDoc(r.obligations, r.manifest, r.layout, r.visual, r.registry, r.projection,
                                                 metas, r.index, indexDigest, Version(r), None)];
      StoreAuthorizations(productionId, r.authorizations);
      return true;
    }

    /** One transaction: recorded export metadata is confirmed or refused, never replaced. */
    method SaveExportResult(productionId: string, releaseDigest: Digest, path: string) returns (error: Option<StoreError>)
      modifies this`docs
      ensures error == DocExportError(old(docs), productionId, ExportRecord(releaseDigest, path))
      ensures docs == WithExport(old(docs), productionId, ExportRecord(releaseDigest, path))
    {
      if !LowerHexDigest(releaseDigest) || Blank(path) {
        return Some(InvalidExport);
      }
      if productionId !in docs {
        return Some(NoSuchProduction);
      }
      var d := docs[productionId];
      if d.exported.Some? {
        if d.exported.value == ExportRecord(releaseDigest, path) {
          assert docs == docs[productionId := d.(exported := Some(ExportRecord(releaseDigest, path)))];
          return None;
        }
        return Some(ConflictingExport);
      }
      docs := docs[productionId := d.(exported := Some(ExportRecord(releaseDigest, path)))];
      return None;
    }

    method ReadFrame(d: ProductionDoc, i: nat, seen: set<string>) returns (frame: Option<Frame>)
      requires i < |d.frames| && (d.index.Some? ==> |d.index.value.frames| == |d.frames|)
      requires seen == MetaIdsBefore(d.frames, i)
      ensures frame.Some? <==> FrameReadable(d, storage.blobs, i)
      ensures frame.Some? ==> frame.value == FrameOf(d.frames[i], storage.blobs)
    {
      var f := d.frames[i];
      InMetaIdsBefore(d.frames, i, f.id);
      if f.index != i || f.id == "" || f.id in seen || !LowerHexDigest(f.imageHash) {
        return None;
      }
      if f.width <= 0 || f.height <= 0 || !ValidPath(f.path) {
        return None;
      }
      if d.index.Some? {
        var entry := d.index.value.frames[i];
        if entry.frameId != f.id || entry.sha256 != f.imageHash {
          return None;
        }
      }
      var data := storage.Get(f.path);
      if data.None? || Sha256(Bytes(data.value)) != f.imageHash {
        return None;
      }
      var valid, reason, w, h := AuditPng(data.value, Some(f.width), Some(f.height));
      if !valid || w != f.width || h != f.height {
        return None;
      }
      return Some(Frame(f.id, f.index, f.width, f.height, f.imageHash, data.value, f.elements));
    }

    ghost predicate ReadSoFar(d: ProductionDoc, i: nat, seen: set<string>, read: seq<Frame>)
      reads storage
    {
      && i <= |d.frames| && seen == MetaIdsBefore(d.frames, i) && Readable(d, storage.blobs, i)
      && read == FramesOf(d.frames, storage.blobs, i)
    }

    method ReadNext(d: ProductionDoc, i: nat, seen: set<string>, read: seq<Frame>)
      returns (ok: bool, seen': set<string>, read': seq<Frame>)
      requires i < |d.frames| && (d.index.Some? ==> |d.index.value.frames| == |d.frames|)
      requires ReadSoFar(d, i, seen, read)
      ensures if ok then ReadSoFar(d, i + 1, seen', read') else !Readable(d, storage.blobs, |d.frames|)
    {
      var frame := ReadFrame(d, i, seen);
      if frame.None? {
        ReadableEach(d, storage.blobs, |d.frames|);
        return false, seen, read;
      }
      return true, seen + {d.frames[i].id}, read + [frame.value];
    }

    method ReadFrames(d: ProductionDoc) returns (frames: Option<seq<Frame>>)
      requires d.frames != [] && d.index.Some? ==> |d.index.value.frames| == |d.frames|
      ensures frames.Some? <==> FramesReadable(d, storage.blobs)
      ensures frames.Some? ==> frames.value == FramesOf(d.frames, storage.blobs, |d.frames|)
    {
      var read: seq<Frame> := [];
      var seen: set<string> := {};
      for i := 0 to |d.frames|
        invariant ReadSoFar(d, i, seen, read)
      {
        var ok;
        ok, seen, read := ReadNext(d, i, seen, read);
        if !ok {
          return None;
        }
      }
      return Some(read);
    }

    method Get(productionId: string) returns (r: ReadResult)
      ensures r == ReadDoc(docs, storage.blobs, proposals.shelves, productionId)
    {
      if productionId !in docs {
        return Absent;
      }
      var d := docs[productionId];
      if Blank(d.renderProfileVersion) {
        return Malformed;
      }
      if d.index.Some? {
        if d.indexDigest.None? || !LowerHexDigest(d.indexDigest.value)
           || d.indexDigest.value != DigestOf(IndexDoc(d.index.value)) {
          return Malformed;
        }
      } else if d.indexDigest.Some? {
        return Malformed;
      }
      if d.frames != [] && d.index.Some? && |d.index.value.frames| != |d.frames| {
        return Malformed;
      }
      var frames := ReadFrames(d);
      if frames.None? {
        return Malformed;
      }
      if d.exported.Some? && (!LowerHexDigest(d.exported.value.releaseDigest) || Blank(d.exported.value.path)) {
        return Malformed;
      }
      var shelf := if productionId in proposals.shelves then proposals.shelves[productionId] else Shelf(map[], map[]);
      return Found(Stored(d.obligations, d.manifest, d.layout, d.visual, d.registry, shelf, d.projection, frames.value,
                          d.index, d.indexDigest, d.renderProfileVersion, d.exported));
    }
  }
}
