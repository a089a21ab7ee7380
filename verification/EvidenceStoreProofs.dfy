/** What was last registered can be read back, after any run of registrations and exports. */
module EvidenceStoreProofs {
  import opened Domain
  import opened Records
  import opened Release
  import opened ProductionStore
  import opened FirestoreProposals
  import opened EvidenceStore

  datatype Action = Register(productionId: string, registration: Registration)
                  | SaveExport(productionId: string, result: ExportRecord)
                  | Propose(proposal: Proposal)
                  | Approve(productionId: string, proposalId: string, approver: string, hashes: Hashes, authId: string,
                            now: string)

  /** The documents, sub-collections and blobs, and the history variable `last`: what was last registered with success. */
  datatype System = System(docs: map<string, ProductionDoc>, shelves: Shelves, blobs: Blobs,
                           last: map<string, Registration>)

  const FRESH := System(map[], map[], map[], map[])

  function Act(s: System, a: Action): System {
    match a
    case Register(id, r) =>
      var blobs := WithFrames(s.blobs, id, r.frames, StoredFrames(id, r));
      if Registrable(id, r)
      then System(s.docs[id := DocOf(id, r)], WithShelf(s.shelves, id, r.authorizations), blobs, s.last[id := r])
      else s.(blobs := blobs)
    case SaveExport(id, x) => s.(docs := WithExport(s.docs, id, x))
    case Propose(p) => s.(shelves := Commit(s.shelves, Save(p)))
    case Approve(id, proposalId, approver, h, authId, now) =>
      s.(shelves := Commit(s.shelves, Confirm(id, proposalId, approver, h, authId, now)))
  }

  function ActAll(s: System, actions: seq<Action>): System {
    if actions == [] then s else Act(ActAll(s, actions[..|actions|-1]), actions[|actions|-1])
  }

  // ---------------------------------------------------------------- the invariant

  ghost predicate FramesStored(blobs: Blobs, id: string, r: Registration) {
    forall i :: 0 <= i < |r.frames| ==> PathOf(id, r.frames[i]) in blobs
  }

  /** The document is that of the registration, but for export metadata added since. */
  ghost predicate Represents(d: ProductionDoc, blobs: Blobs, id: string, r: Registration) {
    && Registrable(id, r)
    && d == DocOf(id, r).(exported := d.exported)
    && ExportReadable(d)
    && FramesStored(blobs, id, r)
  }

  ghost predicate Faithful(s: System) {
    && ContentAddressed(s.blobs)
    && s.docs.Keys == s.last.Keys
    && forall id :: id in s.docs ==> Represents(s.docs[id], s.blobs, id, s.last[id])
  }

  lemma RepresentsStays(d: ProductionDoc, blobs: Blobs, more: Blobs, id: string, r: Registration)
    requires Represents(d, blobs, id, r) && forall p :: p in blobs ==> p in more
    ensures Represents(d, more, id, r)
  {
  }

  lemma FreshRepresents(blobs: Blobs, id: string, r: Registration)
    requires Registrable(id, r) && ContentAddressed(blobs)
    ensures Represents(DocOf(id, r), WithFrames(blobs, id, r.frames, StoredFrames(id, r)), id, r)
  {
    WithFramesAddressed(blobs, id, r.frames, |r.frames|);
  }

  lemma RegisterRepresents(s: System, id: string, r: Registration, other: string)
    requires Faithful(s) && other in Act(s, Action.Register(id, r)).docs
    ensures var t := Act(s, Action.Register(id, r));
            other in t.last && Represents(t.docs[other], t.blobs, other, t.last[other])
  {
    var t := Act(s, Action.Register(id, r));
    if other == id && Registrable(id, r) {
      FreshRepresents(s.blobs, id, r);
    } else {
      WithFramesAddressed(s.blobs, id, r.frames, StoredFrames(id, r));
      RepresentsStays(s.docs[other], s.blobs, t.blobs, other, s.last[other]);
    }
  }

  lemma RegisterKeepsKeys(s: System, id: string, r: Registration)
    requires s.docs.Keys == s.last.Keys
    ensures Act(s, Action.Register(id, r)).docs.Keys == Act(s, Action.Register(id, r)).last.Keys
  {
  }

  lemma RegisterKeeps(s: System, id: string, r: Registration)
    requires Faithful(s)
    ensures Faithful(Act(s, Action.Register(id, r)))
  {
    var t := Act(s, Action.Register(id, r));
    WithFramesAddressed(s.blobs, id, r.frames, StoredFrames(id, r));
    RegisterKeepsKeys(s, id, r);
    forall other | other in t.docs ensures other in t.last && Represents(t.docs[other], t.blobs, other, t.last[other]) {
      RegisterRepresents(s, id, r, other);
    }
  }

  lemma ExportKeeps(s: System, id: string, x: ExportRecord)
    requires Faithful(s)
    ensures Faithful(Act(s, SaveExport(id, x)))
  {
    if id in s.docs {
      assert Represents(s.docs[id], s.blobs, id, s.last[id]);
    }
  }

  lemma {:induction false} AlwaysFaithful(actions: seq<Action>)
    ensures Faithful(ActAll(FRESH, actions))
  {
    if actions != [] {
      var (s, a) := (ActAll(FRESH, actions[..|actions|-1]), actions[|actions|-1]);
      AlwaysFaithful(actions[..|actions|-1]);
      match a
      case Register(id, r) => RegisterKeeps(s, id, r);
      case SaveExport(id, x) => ExportKeeps(s, id, x);
      case _ =>
    }
  }

  // ---------------------------------------------------------------- reading back

  predicate PositiveSizes(frames: seq<Frame>) {
    forall i :: 0 <= i < |frames| ==> 0 < frames[i].width && 0 < frames[i].height
  }

  function AsStored(r: Registration, shelf: Shelf, exported: Option<ExportRecord>): Stored {
    Stored(r.obligations, r.manifest, r.layout, r.visual, r.registry, shelf, r.projection, r.frames, r.index,
           IndexDigest(r.index), Version(r), exported)
  }

  /** Content addressing: under a frame's path there is nothing but the frame's bytes. */
  lemma StoredBytes(blobs: Blobs, id: string, f: Frame)
    requires ContentAddressed(blobs) && PathOf(id, f) in blobs
    ensures blobs[PathOf(id, f)] == f.image
  {
  }

  lemma AcceptedFrame(id: string, r: Registration, i: nat)
    requires Registrable(id, r) && i < |r.frames|
    ensures FrameAccepted(id, r, i)
  {
    AllAccepted(id, r, |r.frames|, i);
  }

  lemma MetaIsFresh(frames: seq<Frame>, metas: seq<FrameMeta>, i: nat)
    requires i < |frames| == |metas| && forall j :: 0 <= j < |frames| ==> metas[j].id == frames[j].id
    ensures FreshId(frames, i) <==> forall j :: 0 <= j < i ==> metas[j].id != metas[i].id
  {
    forall j | 0 <= j < i ensures frames[j].id != frames[i].id <==> metas[j].id != metas[i].id {
      assert metas[j].id == frames[j].id;
    }
  }

  /** An accepted frame whose bytes are stored can be read exactly when its sizes are positive. */
  lemma AcceptedIsReadable(d: ProductionDoc, blobs: Blobs, id: string, r: Registration, i: nat)
    requires i < |r.frames| && FrameAccepted(id, r, i)
    requires d.frames == Metas(id, r.frames, |r.frames|) && d.index == r.index
    requires PathOf(id, r.frames[i]) in blobs && blobs[PathOf(id, r.frames[i])] == r.frames[i].image
    ensures FrameReadable(d, blobs, i) <==> 0 < r.frames[i].width && 0 < r.frames[i].height
  {
    assert d.frames[i] == MetaOf(id, r.frames[i]);
    MetaIsFresh(r.frames, d.frames, i);
  }

  lemma FrameReadBack(s: System, id: string, i: nat)
    requires Faithful(s) && id in s.docs && i < |s.docs[id].frames|
    ensures var (d, r) := (s.docs[id], s.last[id]);
            && |d.frames| == |r.frames| && (d.index.Some? ==> |d.index.value.frames| == |d.frames|)
            && FrameOf(d.frames[i], s.blobs) == r.frames[i]
            && (FrameReadable(d, s.blobs, i) <==> 0 < r.frames[i].width && 0 < r.frames[i].height)
  {
    var (d, r) := (s.docs[id], s.last[id]);
    assert Represents(d, s.blobs, id, r);
    AcceptedFrame(id, r, i);
    StoredBytes(s.blobs, id, r.frames[i]);
    AcceptedIsReadable(d, s.blobs, id, r, i);
  }

  lemma HeadReadBack(s: System, id: string)
    requires Faithful(s) && id in s.docs
    ensures HeadReadable(s.docs[id]) && ExportReadable(s.docs[id])
    ensures |s.docs[id].frames| == |s.last[id].frames|
  {
    assert Represents(s.docs[id], s.blobs, id, s.last[id]);
  }

  lemma FramesComeBack(s: System, id: string)
    requires Faithful(s) && id in s.docs
    ensures FramesOf(s.docs[id].frames, s.blobs, |s.docs[id].frames|) == s.last[id].frames
  {
    HeadReadBack(s, id);
    forall i | 0 <= i < |s.docs[id].frames| ensures FrameOf(s.docs[id].frames[i], s.blobs) == s.last[id].frames[i] {
      FrameReadBack(s, id, i);
    }
  }

  lemma ReadableExactly(d: ProductionDoc, blobs: Blobs, frames: seq<Frame>, n: nat)
    requires n == |frames|
    requires forall i :: 0 <= i < n ==> (FrameReadable(d, blobs, i) <==> 0 < frames[i].width && 0 < frames[i].height)
    ensures Readable(d, blobs, n) <==> PositiveSizes(frames)
  {
    ReadableEach(d, blobs, n);
  }

  lemma IndexFits(s: System, id: string)
    requires Faithful(s) && id in s.docs
    ensures s.docs[id].frames != [] && s.docs[id].index.Some? ==>
              |s.docs[id].index.value.frames| == |s.docs[id].frames|
  {
    if s.docs[id].frames != [] {
      FrameReadBack(s, id, 0);
    }
  }

  lemma FramesReadBack(s: System, id: string)
    requires Faithful(s) && id in s.docs
    ensures FramesReadable(s.docs[id], s.blobs) <==> PositiveSizes(s.last[id].frames)
  {
    HeadReadBack(s, id);
    IndexFits(s, id);
    var (d, frames) := (s.docs[id], s.last[id].frames);
    forall i | 0 <= i < |frames| ensures FrameReadable(d, s.blobs, i) <==> 0 < frames[i].width && 0 < frames[i].height {
      FrameReadBack(s, id, i);
    }
    ReadableExactly(d, s.blobs, frames, |frames|);
  }

  /** After any run, reading a production gives back exactly what was last registered, unless one of its frames has a
      zero width or height, and then reading it fails: registration accepts such frames and reading does not. */
  lemma RegisteredReadsBack(actions: seq<Action>, id: string)
    ensures var s := ActAll(FRESH, actions);
            && (id in s.docs <==> id in s.last)
            && ReadDoc(s.docs, s.blobs, s.shelves, id) ==
                 if id !in s.docs then Absent
                 else if PositiveSizes(s.last[id].frames)
                 then Found(AsStored(s.last[id], ShelfOf(s.shelves, id), s.docs[id].exported))
                 else Malformed
  {
    var s := ActAll(FRESH, actions);
    AlwaysFaithful(actions);
    assert id in s.docs.Keys <==> id in s.last.Keys;
    if id in s.docs {
      HeadReadBack(s, id);
      FramesComeBack(s, id);
      FramesReadBack(s, id);
      assert Represents(s.docs[id], s.blobs, id, s.last[id]);
    }
  }

  // ---------------------------------------------------------------- supplied authorizations

  /** The last supplied record with the id `k`, which is not empty. */
  ghost predicate LastWithId(auths: seq<Authorization>, k: string, i: int) {
    0 <= i < |auths| && auths[i].id == k != "" && forall j :: i < j < |auths| ==> auths[j].id != k
  }

  /** A registration's records replace those with the same id, the last of them counting, and keep every other one. */
  lemma {:induction false} SuppliedMeaning(m: map<string, Authorization>, auths: seq<Authorization>, k: string)
    ensures (exists i :: LastWithId(auths, k, i)) ==>
              k in Supplied(m, auths) && exists i :: LastWithId(auths, k, i) && Supplied(m, auths)[k] == auths[i]
    ensures !(exists i :: LastWithId(auths, k, i)) ==>
              (k in Supplied(m, auths) <==> k in m) && (k in m ==> Supplied(m, auths)[k] == m[k])
  {
    if auths != [] {
      var (before, last) := (auths[..|auths|-1], |auths| - 1);
      SuppliedMeaning(m, before, k);
      if auths[last].id == k && k != "" {
        assert LastWithId(auths, k, last);
      } else {
        forall i ensures LastWithId(auths, k, i) <==> LastWithId(before, k, i) {
          if LastWithId(before, k, i) {
            assert forall j :: i < j < |auths| ==> j == last || auths[j] == before[j];
          }
          if LastWithId(auths, k, i) {
            assert i != last;
          }
        }
      }
    }
  }

  ghost predicate RecordsIn(shelves: Shelves, shelves': Shelves, id: string, k: string) {
    && (k in ShelfOf(shelves, id).authorizations ==> k in ShelfOf(shelves', id).authorizations)
    && (k in ShelfOf(shelves, id).proposals ==> k in ShelfOf(shelves', id).proposals)
  }

  lemma CommitKeepsRecords(shelves: Shelves, t: Transaction, id: string, k: string)
    ensures RecordsIn(shelves, Commit(shelves, t), id, k)
  {
  }

  lemma RegisterKeepsRecords(shelves: Shelves, productionId: string, auths: seq<Authorization>, id: string, k: string)
    ensures RecordsIn(shelves, WithShelf(shelves, productionId, auths), id, k)
  {
    SuppliedMeaning(ShelfOf(shelves, productionId).authorizations, auths, k);
  }

  lemma ActKeepsRecords(s: System, a: Action, id: string, k: string)
    ensures RecordsIn(s.shelves, Act(s, a).shelves, id, k)
  {
    match a
    case Register(productionId, r) => RegisterKeepsRecords(s.shelves, productionId, r.authorizations, id, k);
    case SaveExport(_, _) =>
    case Propose(p) => CommitKeepsRecords(s.shelves, Save(p), id, k);
    case Approve(productionId, proposalId, approver, h, authId, now) =>
      CommitKeepsRecords(s.shelves, Confirm(productionId, proposalId, approver, h, authId, now), id, k);
  }

  /** No run loses a recorded authorization or a proposal: what is on a shelf stays there under its id. */
  lemma {:induction false} RecordsStay(s: System, actions: seq<Action>, id: string, k: string)
    ensures RecordsIn(s.shelves, ActAll(s, actions).shelves, id, k)
  {
    if actions != [] {
      RecordsStay(s, actions[..|actions|-1], id, k);
      ActKeepsRecords(ActAll(s, actions[..|actions|-1]), actions[|actions|-1], id, k);
    }
  }

  /** Stored objects are never changed or lost. */
  lemma {:induction false} BlobsAreWriteOnce(s: System, actions: seq<Action>, path: StoragePath)
    requires ContentAddressed(s.blobs) && path in s.blobs
    ensures path in ActAll(s, actions).blobs && ActAll(s, actions).blobs[path] == s.blobs[path]
    ensures ContentAddressed(ActAll(s, actions).blobs)
  {
    if actions != [] {
      BlobsAreWriteOnce(s, actions[..|actions|-1], path);
      var (t, a) := (ActAll(s, actions[..|actions|-1]), actions[|actions|-1]);
      if a.Register? {
        WithFramesAddressed(t.blobs, a.productionId, a.registration.frames, StoredFrames(a.productionId, a.registration));
      }
    }
  }
}
