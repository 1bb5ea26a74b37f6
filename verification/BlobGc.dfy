/**
 Blob files against blob rows. Uploads hold the digest lock from `Put` to
 `Commit`; the maintenance loop lists due digests, then locks, rechecks, deletes
 the file and forgets the row, one digest at a time; restores take no lock and
 read their source in an earlier transaction than the one that commits.

 The steps interleave freely within one process. The one assumption is about
 time: a restore commits within the seven days of grace that a released blob
 gets (`RestoreCommit` is enabled only then).
 */
module BlobGc {
  import opened Wrappers
  import opened SaveKeys
  import opened SaveTables
  import opened StoreInvariants
  import opened Scenarios
  import Runs

  type ReqId = nat

  const GRACE: Time := 7 * DAY

  datatype Holder = Uploader(req: ReqId) | Collector

  datatype Upload = Locked(digest: Digest) | Stored(digest: Digest)

  datatype PendingRestore = PendingRestore(source: SaveView, digest: Digest, readAt: Time)

  datatype Collector =
    | Idle(queue: seq<Digest>)
    | Holding(digest: Digest, queue: seq<Digest>)  // locked, not yet rechecked
    | Due(digest: Digest, queue: seq<Digest>)      // rechecked, file still there
    | Removed(digest: Digest, queue: seq<Digest>)  // file deleted, row still there

  datatype Sys = Sys(w: World, files: set<Digest>, locks: map<Digest, Holder>,
                     uploads: map<ReqId, Upload>, restores: map<ReqId, PendingRestore>, gc: Collector)

  datatype Step =
    | UploadLock(req: ReqId, digest: Digest)
    | UploadPut(req: ReqId, ok: bool, linked: bool)
    | UploadCommit(req: ReqId, input: CommitInput, head: HeadId)
    | UploadAbort(req: ReqId) // an error outside Put and the transaction
    | RestoreRead(req: ReqId, slot: Slot, revision: int)
    | RestoreCommit(req: ReqId, input: CommitInput, head: HeadId)
    | RestoreAbort(req: ReqId)
    | Other(event: Event)
    | GcScan(queue: seq<Digest>)
    | GcLock
    | GcRecheck(ok: bool)
    | GcDelete(ok: bool)
    | GcForget(ok: bool)
    | Restart // the process dies; files and tables stay

  ghost predicate CanStep(s: Sys, st: Step) {
    match st
    case UploadLock(r, d) => Hex64(d) && d !in s.locks && r !in s.uploads
    case UploadPut(r, _, _) => r in s.uploads && s.uploads[r].Locked?
    case UploadCommit(r, i, _) =>
      && r in s.uploads && s.uploads[r].Stored?
      && i.blob == s.uploads[r].digest && i.checksum == i.blob && Hex64(i.checksum)
    case UploadAbort(r) => r in s.uploads
    case RestoreRead(r, slot, rev) => r !in s.restores && GetContent(s.w.db, slot, rev).Some?
    case RestoreCommit(r, i, _) =>
      && r in s.restores
      && i.blob == s.restores[r].digest && i.checksum == s.restores[r].source.checksum && Hex64(i.checksum)
      && s.w.now < s.restores[r].readAt + GRACE
    case RestoreAbort(r) => r in s.restores
    case Other(e) => Enabled(s.w, e) && !e.Commit? && !e.ForgetBlob?
    case GcScan(queue) => s.gc.Idle? && forall d | d in queue :: BlobDue(s.w.db, d, s.w.now)
    case GcLock => s.gc.Idle? && s.gc.queue != [] && s.gc.queue[0] !in s.locks
    case GcRecheck(_) => s.gc.Holding?
    case GcDelete(_) => s.gc.Due?
    case GcForget(_) => s.gc.Removed?
    case Restart => true
  }

  function Unlock(s: Sys, d: Digest): Sys {
    s.(locks := s.locks - {d})
  }

  ghost function DoStep(s: Sys, max: int, st: Step): Sys
    requires CanStep(s, st)
  {
    match st
    case UploadLock(r, d) => s.(locks := s.locks[d := Uploader(r)], uploads := s.uploads[r := Locked(d)])
    case UploadPut(r, ok, linked) =>
      var d := s.uploads[r].digest;
      // A failing Put can leave the linked file behind; the deferred unlock runs either way.
      if ok then s.(files := s.files + {d}, uploads := s.uploads[r := Stored(d)])
      else Unlock(s.(files := if linked then s.files + {d} else s.files, uploads := s.uploads - {r}), d)
    case UploadCommit(r, i, id) =>
      Unlock(s.(w := Next(s.w, max, Commit(i, id)), uploads := s.uploads - {r}), i.blob)
    case UploadAbort(r) => Unlock(s.(uploads := s.uploads - {r}), s.uploads[r].digest)
    case RestoreRead(r, slot, rev) =>
      var c := GetContent(s.w.db, slot, rev).value;
      s.(restores := s.restores[r := PendingRestore(c.0, c.1, s.w.now)])
    case RestoreCommit(r, i, id) => s.(w := Next(s.w, max, Commit(i, id)), restores := s.restores - {r})
    case RestoreAbort(r) => s.(restores := s.restores - {r})
    case Other(e) => s.(w := Next(s.w, max, e))
    case GcScan(queue) => s.(gc := Idle(queue))
    case GcLock =>
      var d := s.gc.queue[0];
      s.(locks := s.locks[d := Collector], gc := Holding(d, s.gc.queue[1..]))
    case GcRecheck(ok) =>
      if ok && BlobDue(s.w.db, s.gc.digest, s.w.now) then s.(gc := Due(s.gc.digest, s.gc.queue))
      else Unlock(s.(gc := Idle(s.gc.queue)), s.gc.digest)
    case GcDelete(ok) =>
      if ok then s.(files := s.files - {s.gc.digest}, gc := Removed(s.gc.digest, s.gc.queue))
      else Unlock(s.(gc := Idle(s.gc.queue)), s.gc.digest)
    case GcForget(ok) =>
      var s' := if ok then s.(w := Next(s.w, max, ForgetBlob(s.gc.digest))) else s;
      Unlock(s'.(gc := Idle(s.gc.queue)), s.gc.digest)
    case Restart => Sys(s.w, s.files, map[], map[], map[], Idle([]))
  }

  // The step function of the system: None where the step is not enabled.
  ghost function Machine(max: int): (Sys, Step) -> Option<Sys> {
    (s: Sys, st: Step) => if CanStep(s, st) then Some(DoStep(s, max, st)) else None
  }

  // ---------- Invariant ----------

  // Every live version has its file.
  ghost predicate LiveFilesExist(db: Db, files: set<Digest>) {
    forall k | Live(db.versions, k) :: db.versions[k].blob in files
  }

  // The source blob of an unfinished restore cannot come due before its grace ends.
  ghost predicate Protected(w: World, files: set<Digest>, p: PendingRestore) {
    && p.readAt <= w.now
    && (w.now < p.readAt + GRACE ==>
          && p.digest in files && p.digest in w.db.blobs
          && (w.db.blobs[p.digest].deleteAfter.Some? ==> w.db.blobs[p.digest].deleteAfter.value >= p.readAt + GRACE))
  }

  ghost predicate RestoresProtected(s: Sys) {
    forall r | r in s.restores :: Protected(s.w, s.files, s.restores[r])
  }

  ghost predicate LocksHeld(s: Sys) {
    && (forall r | r in s.uploads :: s.uploads[r].digest in s.locks && s.locks[s.uploads[r].digest] == Uploader(r))
    && (forall r | r in s.uploads && s.uploads[r].Stored? :: s.uploads[r].digest in s.files)
    && (!s.gc.Idle? ==> s.gc.digest in s.locks && s.locks[s.gc.digest] == Collector)
  }

  // And every lock is held by whoever still works on the digest.
  ghost predicate LocksUsed(s: Sys) {
    forall d | d in s.locks :: match s.locks[d]
      case Uploader(r) => r in s.uploads && s.uploads[r].digest == d
      case Collector => !s.gc.Idle? && s.gc.digest == d
  }

  // Between recheck and unlock the digest stays unreferenced.
  ghost predicate VictimUnused(s: Sys) {
    s.gc.Due? || s.gc.Removed? ==>
      LiveRefs(s.w.db.versions, s.gc.digest) == {} && BlobDue(s.w.db, s.gc.digest, s.w.now)
  }

  ghost predicate SysInv(s: Sys, max: int) {
    && Inv(s.w.db, max)
    && LiveFilesExist(s.w.db, s.files)
    && RestoresProtected(s)
    && LocksHeld(s)
    && LocksUsed(s)
    && VictimUnused(s)
  }

  // ---------- Effects of a transaction on rows the collector cares about ----------

  // Liveness only shrinks and a released blob gets a full grace period.
  ghost predicate OnlyReleases(w: World, db': Db) {
    && (forall k | Live(db'.versions, k) :: Live(w.db.versions, k) && db'.versions[k].blob == w.db.versions[k].blob)
    && (forall d | d in w.db.blobs ::
          && d in db'.blobs
          && (db'.blobs[d].deleteAfter == w.db.blobs[d].deleteAfter || db'.blobs[d].deleteAfter == Some(w.now + GRACE))
          && (LiveRefs(w.db.versions, d) == {} ==> db'.blobs[d] == w.db.blobs[d]))
  }

  lemma ReleaseOnlyReleases(w: World, db': Db, removed: set<VKey>)
    requires forall k | k in removed :: Live(w.db.versions, k)
    requires db'.blobs == Release(w.db.blobs, w.db.versions, removed, w.now)
    requires forall k | Live(db'.versions, k) :: Live(w.db.versions, k) && db'.versions[k].blob == w.db.versions[k].blob
    ensures OnlyReleases(w, db')
  {
    forall d | d in w.db.blobs && LiveRefs(w.db.versions, d) == {} ensures db'.blobs[d] == w.db.blobs[d] {
      var gone := set k | k in removed && k in w.db.versions && w.db.versions[k].blob == d;
      assert gone <= LiveRefs(w.db.versions, d);
    }
  }

  lemma OtherEventsOnlyRelease(w: World, max: int, e: Event)
    requires Enabled(w, e) && !e.Commit? && !e.ForgetBlob?
    ensures OnlyReleases(w, NextDb(w, max, e))
  {
    hide OnlyReleases, Candidates, OldestOf, Release, EraseBlocked, Purgeable, ProcessTx;
    match e
    case Prune(limit, chosen) =>
      ChosenArePrunable(w.db, w.now, limit, chosen);
      ReleaseOnlyReleases(w, PruneTx(w.db, chosen, w.now), chosen);
    case Purge(_, slots) => ReleaseOnlyReleases(w, PurgeTx(w.db, slots, w.now), LiveUnder(w.db.versions, slots));
    case ProcessJob(job, fault) => ProcessOnlyReleases(w, job, fault);
    case Commit(_, _) => assert false;
    case ForgetBlob(_) => assert false;
    case _ => SameRowsRelease(w, NextDb(w, max, e));
  }

  lemma SameRowsRelease(w: World, after: Db)
    requires after.versions == w.db.versions && after.blobs == w.db.blobs
    ensures OnlyReleases(w, after)
  {
  }

  lemma ProcessOnlyReleases(w: World, job: JobId, fault: Fault)
    requires job in w.db.jobs && w.db.jobs[job].user in w.db.users
    ensures OnlyReleases(w, ProcessTx(w.db, job, fault, w.now))
  {
    hide OnlyReleases, Release, EraseBlocked;
    var after := ProcessTx(w.db, job, fault, w.now);
    if fault == NoFault && !EraseBlocked(w.db, w.db.jobs[job].user) {
      ReleaseOnlyReleases(w, after, LiveOf(w.db.versions, w.db.jobs[job].user));
    } else {
      SameRowsRelease(w, after);
    }
  }

  // A commit touches only the blob it names, and un-schedules that one.
  lemma CommitTouchesOneBlob(w: World, max: int, i: CommitInput, id: HeadId)
    requires i.checksum != ""
    ensures var db' := CommitTx(w.db, max, i, id, w.now).db;
            && (forall k | Live(db'.versions, k) ::
                  (Live(w.db.versions, k) && db'.versions[k].blob == w.db.versions[k].blob) || db'.versions[k].blob == i.blob)
            && (forall d | d in w.db.blobs :: d in db'.blobs && (d != i.blob ==> db'.blobs[d] == w.db.blobs[d]))
            && (forall d | d in w.db.blobs :: db'.blobs[d] == w.db.blobs[d] || db'.blobs[d].deleteAfter.None?)
  {
    CommitCases(w.db, max, i, id, w.now);
  }

  // ---------- Preservation ----------

  lemma UnprotectedUnlessReferenced(s: Sys, max: int, r: ReqId)
    requires SysInv(s, max) && r in s.restores && s.w.now < s.restores[r].readAt + GRACE
    requires s.gc.Due? || s.gc.Removed?
    ensures s.restores[r].digest != s.gc.digest
  {
    assert Protected(s.w, s.files, s.restores[r]);
  }

  lemma CommitKeepsSysInv(s: Sys, max: int, i: CommitInput, id: HeadId)
    requires SysInv(s, max) && Hex64(i.checksum) && i.blob in s.files
    requires s.gc.Due? || s.gc.Removed? ==> i.blob != s.gc.digest
    ensures SysInv(s.(w := Next(s.w, max, Commit(i, id))), max)
  {
    hide Inv, CommitTx;
    NotEmpty(i.checksum);
    var s' := s.(w := Next(s.w, max, Commit(i, id)));
    InvStep(s.w, max, Commit(i, id));
    CommitTouchesOneBlob(s.w, max, i, id);
    forall r | r in s.restores ensures Protected(s'.w, s.files, s.restores[r]) {
      assert Protected(s.w, s.files, s.restores[r]);
    }
    if s.gc.Due? || s.gc.Removed? {
      forall k ensures k !in LiveRefs(s'.w.db.versions, s.gc.digest) {
        assert k !in LiveRefs(s.w.db.versions, s.gc.digest);
      }
    }
  }

  lemma OtherKeepsSysInv(s: Sys, max: int, e: Event)
    requires SysInv(s, max) && CanStep(s, Other(e))
    ensures SysInv(DoStep(s, max, Other(e)), max)
  {
    hide Inv, NextDb, LiveRefs;
    var s' := DoStep(s, max, Other(e));
    InvStep(s.w, max, e);
    OtherEventsOnlyRelease(s.w, max, e);
    forall r | r in s.restores ensures Protected(s'.w, s.files, s.restores[r]) {
      assert Protected(s.w, s.files, s.restores[r]);
    }
    if s.gc.Due? || s.gc.Removed? {
      StillUnused(s.w, s'.w.db, s.gc.digest);
    }
  }

  lemma StillUnused(w: World, after: Db, d: Digest)
    requires OnlyReleases(w, after) && LiveRefs(w.db.versions, d) == {}
    ensures LiveRefs(after.versions, d) == {}
  {
    forall k
      ensures k !in LiveRefs(after.versions, d)
    {
      assert k !in LiveRefs(w.db.versions, d);
    }
  }

  lemma LocksStayUsed(s: Sys, max: int, st: Step)
    requires LocksHeld(s) && LocksUsed(s) && CanStep(s, st)
    ensures LocksUsed(DoStep(s, max, st))
  {
    hide Next, BlobDue, GetContent, Hex64, Enabled;
  }

  lemma UploadKeepsSysInv(s: Sys, max: int, st: Step)
    requires SysInv(s, max) && CanStep(s, st) && (st.UploadLock? || st.UploadPut? || st.UploadCommit? || st.UploadAbort?)
    ensures SysInv(DoStep(s, max, st), max)
  {
    hide Inv, BlobDue, LiveRefs, NextDb, Hex64, Protected, LiveFilesExist, LocksUsed;
    LocksStayUsed(s, max, st);
    match st
    case UploadLock(r, d) =>
    case UploadPut(r, _, _) => PutKeepsSysInv(s, max, st);
    case UploadCommit(r, i, id) => UploadCommitKeepsSysInv(s, max, r, i, id);
    case UploadAbort(_) =>
  }

  lemma PutKeepsSysInv(s: Sys, max: int, st: Step)
    requires SysInv(s, max) && CanStep(s, st) && st.UploadPut?
    ensures SysInv(DoStep(s, max, st), max)
  {
    hide Inv, BlobDue, LiveRefs, NextDb, Hex64, LocksUsed;
    LocksStayUsed(s, max, st);
    forall q | q in s.restores ensures Protected(s.w, s.files + {s.uploads[st.req].digest}, s.restores[q]) {
      assert Protected(s.w, s.files, s.restores[q]);
    }
  }

  lemma UploadCommitKeepsSysInv(s: Sys, max: int, r: ReqId, i: CommitInput, id: HeadId)
    requires SysInv(s, max) && CanStep(s, UploadCommit(r, i, id))
    ensures SysInv(DoStep(s, max, UploadCommit(r, i, id)), max)
  {
    hide Inv, Protected, LiveFilesExist, BlobDue, LiveRefs, Next, Hex64, LocksUsed;
    LocksStayUsed(s, max, UploadCommit(r, i, id));
    CommitKeepsSysInv(s, max, i, id);
  }

  // What a restore has just read is referenced, so nothing schedules its blob.
  lemma ReadIsProtected(s: Sys, max: int, slot: Slot, rev: int)
    requires SysInv(s, max) && GetContent(s.w.db, slot, rev).Some?
    ensures var c := GetContent(s.w.db, slot, rev).value; Protected(s.w, s.files, PendingRestore(c.0, c.1, s.w.now))
  {
    var k := VKey(slot, if rev == 0 then s.w.db.heads[slot].current else rev);
    assert k in LiveRefs(s.w.db.versions, s.w.db.versions[k].blob);
  }

  lemma RestoreKeepsSysInv(s: Sys, max: int, st: Step)
    requires SysInv(s, max) && CanStep(s, st) && (st.RestoreRead? || st.RestoreCommit? || st.RestoreAbort?)
    ensures SysInv(DoStep(s, max, st), max)
  {
    hide Inv, Protected, LiveFilesExist, BlobDue, LiveRefs, GetContent;
    match st
    case RestoreRead(r, slot, rev) => ReadIsProtected(s, max, slot, rev);
    case RestoreCommit(r, i, id) => RestoreCommitKeepsSysInv(s, max, r, i, id);
    case RestoreAbort(_) =>
  }

  lemma RestoreCommitKeepsSysInv(s: Sys, max: int, r: ReqId, i: CommitInput, id: HeadId)
    requires SysInv(s, max) && CanStep(s, RestoreCommit(r, i, id))
    ensures SysInv(DoStep(s, max, RestoreCommit(r, i, id)), max)
  {
    hide Inv, Protected, LiveFilesExist, BlobDue, LiveRefs, Next;
    SourceIsSafe(s, max, r);
    CommitKeepsSysInv(s, max, i, id);
  }

  // Within its grace a restore's source has its file and is not the collector's victim.
  lemma SourceIsSafe(s: Sys, max: int, r: ReqId)
    requires SysInv(s, max) && r in s.restores && s.w.now < s.restores[r].readAt + GRACE
    ensures s.restores[r].digest in s.files
    ensures s.gc.Due? || s.gc.Removed? ==> s.restores[r].digest != s.gc.digest
  {
    assert Protected(s.w, s.files, s.restores[r]);
    if s.gc.Due? || s.gc.Removed? {
      UnprotectedUnlessReferenced(s, max, r);
    }
  }

  lemma CollectorKeepsSysInv(s: Sys, max: int, st: Step)
    requires SysInv(s, max) && CanStep(s, st)
    requires st.GcScan? || st.GcLock? || st.GcRecheck? || st.GcDelete? || st.Restart?
    ensures SysInv(DoStep(s, max, st), max)
  {
    hide Inv, LiveRefs, BlobDue, LiveFilesExist, Protected, LocksUsed;
    LocksStayUsed(s, max, st);
    match st
    case GcRecheck(ok) =>
      if ok && BlobDue(s.w.db, s.gc.digest, s.w.now) {
        DueIsUnused(s.w.db, max, s.gc.digest, s.w.now);
      }
    case GcDelete(_) => GcDeleteKeepsSysInv(s, max, st);
    case _ =>
  }

  lemma GcDeleteKeepsSysInv(s: Sys, max: int, st: Step)
    requires SysInv(s, max) && CanStep(s, st) && st.GcDelete?
    ensures SysInv(DoStep(s, max, st), max)
  {
    hide Inv, LiveRefs, BlobDue, LiveFilesExist, Protected, LocksUsed;
    LocksStayUsed(s, max, st);
    DeleteKeepsFiles(s, max);
  }

  lemma DueIsUnused(db: Db, max: int, d: Digest, now: Time)
    requires Inv(db, max) && BlobDue(db, d, now)
    ensures LiveRefs(db.versions, d) == {}
  {
    assert RefCounts(db);
  }

  // The deleted file belongs to no live version and to no restore within its grace.
  lemma DeleteKeepsFiles(s: Sys, max: int)
    requires SysInv(s, max) && s.gc.Due?
    ensures LiveFilesExist(s.w.db, s.files - {s.gc.digest})
    ensures forall r | r in s.restores :: Protected(s.w, s.files - {s.gc.digest}, s.restores[r])
  {
    forall k | Live(s.w.db.versions, k)
      ensures s.w.db.versions[k].blob != s.gc.digest
    {
      assert k !in LiveRefs(s.w.db.versions, s.gc.digest);
    }
    forall r | r in s.restores
      ensures Protected(s.w, s.files - {s.gc.digest}, s.restores[r])
    {
      assert Protected(s.w, s.files, s.restores[r]);
      if s.w.now < s.restores[r].readAt + GRACE {
        UnprotectedUnlessReferenced(s, max, r);
      }
    }
  }

  lemma ForgetKeepsProtected(s: Sys, max: int, r: ReqId)
    requires SysInv(s, max) && s.gc.Removed? && r in s.restores
    ensures Protected(World(ForgetTx(s.w.db, s.gc.digest, s.w.now), s.w.now), s.files, s.restores[r])
  {
    assert Protected(s.w, s.files, s.restores[r]);
    if s.w.now < s.restores[r].readAt + GRACE {
      UnprotectedUnlessReferenced(s, max, r);
    }
  }

  lemma ForgetKeepsSysInv(s: Sys, max: int, ok: bool)
    requires SysInv(s, max) && CanStep(s, GcForget(ok))
    ensures SysInv(DoStep(s, max, GcForget(ok)), max)
  {
    hide Inv, Protected, BlobDue, LiveRefs, LocksUsed;
    LocksStayUsed(s, max, GcForget(ok));
    if ok {
      InvStep(s.w, max, ForgetBlob(s.gc.digest));
      forall r | r in s.restores
        ensures Protected(World(ForgetTx(s.w.db, s.gc.digest, s.w.now), s.w.now), s.files, s.restores[r])
      {
        ForgetKeepsProtected(s, max, r);
      }
    }
  }

  lemma SysInvStep(s: Sys, max: int, st: Step)
    requires SysInv(s, max) && CanStep(s, st)
    ensures SysInv(DoStep(s, max, st), max)
  {
    match st
    case UploadLock(_, _) => UploadKeepsSysInv(s, max, st);
    case UploadPut(_, _, _) => UploadKeepsSysInv(s, max, st);
    case UploadCommit(_, _, _) => UploadKeepsSysInv(s, max, st);
    case UploadAbort(_) => UploadKeepsSysInv(s, max, st);
    case RestoreRead(_, _, _) => RestoreKeepsSysInv(s, max, st);
    case RestoreCommit(_, _, _) => RestoreKeepsSysInv(s, max, st);
    case RestoreAbort(_) => RestoreKeepsSysInv(s, max, st);
    case Other(e) => OtherKeepsSysInv(s, max, e);
    case GcForget(ok) => ForgetKeepsSysInv(s, max, ok);
    case _ => CollectorKeepsSysInv(s, max, st);
  }

  // What some run reaches.
  ghost predicate Reachable(s: Sys, max: int) {
    exists t0: Time :: Runs.Reaches(Machine(max), Start(t0), s)
  }

  function Start(t0: Time): Sys {
    Sys(World(EMPTY, t0), {}, map[], map[], map[], Idle([]))
  }

  lemma ReachableSysInv(s: Sys, max: int)
    requires max > 0 && Reachable(s, max)
    ensures SysInv(s, max)
  {
    hide SysInv, CanStep, DoStep;
    var t0: Time :| Runs.Reaches(Machine(max), Start(t0), s);
    var steps: seq<Step> :| Runs.After(Machine(max), Start(t0), steps) == Some(s);
    var inv := (x: Sys) => SysInv(x, max);
    StartInv(t0, max);
    forall x: Sys, st: Step | inv(x) && Machine(max)(x, st).Some?
      ensures inv(Machine(max)(x, st).value)
    {
      SysInvStep(x, max, st);
    }
    Runs.RunKeeps(Machine(max), inv, Start(t0), steps);
  }

  // In every interleaving of uploads, restores, other transactions, restarts
  // and the collector, every version that can be read has its blob file.
  lemma LiveVersionsKeepTheirFiles(s: Sys, max: int)
    requires max > 0 && Reachable(s, max)
    ensures LiveFilesExist(s.w.db, s.files) && Inv(s.w.db, max)
  {
    ReachableSysInv(s, max);
  }

  // And no lock outlives its work: a new upload gets the lock of its digest exactly when no other upload
  // and no turn of the collector is at work on it.
  lemma LocksAreReleased(s: Sys, max: int, r: ReqId, d: Digest)
    requires max > 0 && Reachable(s, max) && Hex64(d) && r !in s.uploads
    ensures CanStep(s, UploadLock(r, d))
      <==> (forall q | q in s.uploads :: s.uploads[q].digest != d) && (s.gc.Idle? || s.gc.digest != d)
  {
    hide Reachable, Inv, LiveFilesExist, RestoresProtected, VictimUnused, Hex64;
    ReachableSysInv(s, max);
  }

  // A due blob that no row refers to and nobody works on can be collected: the five steps
  // are possible one after the other, and remove its file and its row and nothing else.
  lemma DueBlobIsCollected(s: Sys, max: int, d: Digest)
    requires max > 0 && Reachable(s, max) && s.gc.Idle?
    requires BlobDue(s.w.db, d, s.w.now) && !BlobReferenced(s.w.db, d)
    requires forall q | q in s.uploads :: s.uploads[q].digest != d
    ensures Runs.After(Machine(max), s, [GcScan([d]), GcLock, GcRecheck(true), GcDelete(true), GcForget(true)])
      == Some(s.(w := World(s.w.db.(blobs := s.w.db.blobs - {d}), s.w.now), files := s.files - {d}, gc := Idle([])))
  {
    hide Reachable, BlobDue, BlobReferenced, Machine;
    UnusedIsUnlocked(s, max, d);
    var t := World(s.w.db.(blobs := s.w.db.blobs - {d}), s.w.now);
    TakesTheLock(s, max, d);
    Collects(s, max, d);
    FiveSteps(Machine(max), [GcScan([d]), GcLock, GcRecheck(true), GcDelete(true), GcForget(true)],
              s, s.(gc := Idle([d])), HoldingOne(s, d), HoldingOne(s, d).(gc := Due(d, [])),
              HoldingOne(s, d).(files := s.files - {d}, gc := Removed(d, [])), s.(w := t, files := s.files - {d}, gc := Idle([])));
  }

  lemma UnusedIsUnlocked(s: Sys, max: int, d: Digest)
    requires max > 0 && Reachable(s, max) && s.gc.Idle? && forall q | q in s.uploads :: s.uploads[q].digest != d
    ensures d !in s.locks
  {
    hide Reachable, Inv, LiveFilesExist, RestoresProtected, VictimUnused;
    ReachableSysInv(s, max);
  }

  function HoldingOne(s: Sys, d: Digest): Sys {
    s.(locks := s.locks[d := Collector], gc := Holding(d, []))
  }

  lemma TakesTheLock(s: Sys, max: int, d: Digest)
    requires s.gc.Idle? && BlobDue(s.w.db, d, s.w.now) && d !in s.locks
    ensures Machine(max)(s, GcScan([d])) == Some(s.(gc := Idle([d])))
    ensures Machine(max)(s.(gc := Idle([d])), GcLock) == Some(HoldingOne(s, d))
    ensures Machine(max)(HoldingOne(s, d), GcRecheck(true)) == Some(HoldingOne(s, d).(gc := Due(d, [])))
  {
    hide BlobDue;
    assert [d][1..] == [];
  }

  lemma Collects(s: Sys, max: int, d: Digest)
    requires s.gc.Idle? && BlobDue(s.w.db, d, s.w.now) && !BlobReferenced(s.w.db, d) && d !in s.locks
    ensures var locked, t := HoldingOne(s, d), World(s.w.db.(blobs := s.w.db.blobs - {d}), s.w.now);
      var removed := locked.(files := s.files - {d}, gc := Removed(d, []));
      && Machine(max)(locked.(gc := Due(d, [])), GcDelete(true)) == Some(removed)
      && Machine(max)(removed, GcForget(true)) == Some(s.(w := t, files := s.files - {d}, gc := Idle([])))
  {
    hide BlobDue, BlobReferenced;
    assert s.locks[d := Collector] - {d} == s.locks;
  }

  lemma FiveSteps(next: (Sys, Step) -> Option<Sys>, steps: seq<Step>, s: Sys, s1: Sys, s2: Sys, s3: Sys, s4: Sys, s5: Sys)
    requires |steps| == 5 && next(s, steps[0]) == Some(s1) && next(s1, steps[1]) == Some(s2) && next(s2, steps[2]) == Some(s3)
    requires next(s3, steps[3]) == Some(s4) && next(s4, steps[4]) == Some(s5)
    ensures Runs.After(next, s, steps) == Some(s5)
  {
    assert Runs.After(next, s4, steps[1..][1..][1..][1..]) == Some(s5);
    assert Runs.After(next, s2, steps[1..][1..]) == Some(s5);
  }

  lemma StartInv(t0: Time, max: int)
    requires max > 0
    ensures SysInv(Start(t0), max)
  {
    InitialInv(max);
  }

  // ---------- The time assumption is needed ----------

  lemma ReachMore(s: Sys, max: int, st: Step)
    requires Reachable(s, max) && CanStep(s, st)
    ensures Reachable(DoStep(s, max, st), max)
  {
    hide CanStep, DoStep;
    var t0: Time :| Runs.Reaches(Machine(max), Start(t0), s);
    Runs.ReachesMore(Machine(max), Start(t0), s, st);
  }

  function TheSlot(): Slot {
    SlotOf(0, State, "0")
  }

  // n versions uploaded at `at`, the first with content `first`, the others with `rest`.
  ghost predicate Uploaded(db: Db, n: nat, first: Digest, rest: Digest, at: Time) {
    && db.users == map[0 := User(Wechat("subject"), Active)] && SmallBlobs(db.blobs)
    && db.heads == (if n == 0 then map[] else map[TheSlot() := Head(0, n, None, at)])
    && db.versions == VersionsUpTo(n, first, rest, at)
    && UsedBytes(db.versions, 0) == n
    && forall ik | ik in db.keys :: ik.key < n
  }

  function VersionsUpTo(n: nat, first: Digest, rest: Digest, at: Time): map<VKey, Version> {
    if n == 0 then map[] else VersionsUpTo(n - 1, first, rest, at)[VKey(TheSlot(), n) := OneVersion(n, first, rest, at)]
  }

  function OneVersion(r: int, first: Digest, rest: Digest, at: Time): Version {
    var d := if r == 1 then first else rest;
    Version(d, d, 1, "core", None, at, None)
  }

  lemma VersionsNext(n: nat, first: Digest, rest: Digest, at: Time)
    ensures VersionsUpTo(n + 1, first, rest, at)
         == VersionsUpTo(n, first, rest, at)[VKey(TheSlot(), n + 1) := OneVersion(n + 1, first, rest, at)]
  {
    hide TheSlot;
  }

  lemma {:induction false} VersionsAre(n: nat, first: Digest, rest: Digest, at: Time)
    ensures forall k :: k in VersionsUpTo(n, first, rest, at) <==> k.slot == TheSlot() && 1 <= k.revision <= n
    ensures forall k | k in VersionsUpTo(n, first, rest, at) ::
      VersionsUpTo(n, first, rest, at)[k] == OneVersion(k.revision, first, rest, at)
  {
    hide TheSlot, OneVersion;
    if n > 0 {
      VersionsAre(n - 1, first, rest, at);
    }
  }

  ghost predicate Quiet(s: Sys) {
    s.locks == map[] && s.uploads == map[] && s.gc == Idle([])
  }

  lemma UploadOne(s: Sys, n: nat, first: Digest, rest: Digest) returns (t: Sys)
    requires Reachable(s, 10) && Quiet(s) && Uploaded(s.w.db, n, first, rest, s.w.now) && n < 9
    requires Hex64(first) && Hex64(rest)
    ensures Reachable(t, 10) && Quiet(t) && Uploaded(t.w.db, n + 1, first, rest, t.w.now)
    ensures t.restores == s.restores && t.files == s.files + {if n == 0 then first else rest}
  {
    hide Reachable, Hex64, TheSlot, UsedBytes, CommitTx, Appends, Inv;
    var d := if n == 0 then first else rest;
    var i := OneByte(TheSlot(), n, d, n);
    ReachMore(s, 10, UploadLock(0, d));
    t := DoStep(s, 10, UploadLock(0, d));
    ReachMore(t, 10, UploadPut(0, true, false));
    t := DoStep(t, 10, UploadPut(0, true, false));
    ReachMore(t, 10, UploadCommit(0, i, 0));
    CommitOne(t.w, n, first, rest);
    t := DoStep(t, 10, UploadCommit(0, i, 0));
  }

  lemma CommitOne(w: World, n: nat, first: Digest, rest: Digest)
    requires Uploaded(w.db, n, first, rest, w.now) && n < 9 && Hex64(first) && Hex64(rest)
    ensures var i := OneByte(TheSlot(), n, if n == 0 then first else rest, n);
      Uploaded(CommitTx(w.db, 10, i, 0, w.now).db, n + 1, first, rest, w.now)
  {
    SlotsAreValid();
    SlotIsValid();
    hide Hex64, UsedBytes, CommitTx, Appends, TheSlot;
    var d := if n == 0 then first else rest;
    var i := OneByte(TheSlot(), n, d, n);
    VersionsAre(n, first, rest, w.now);
    OneByteAppends(w.db, TheSlot(), n, d, n, 0, w.now);
    UploadedHead(w.db, n, first, rest, w.now);
    NotEmpty(d);
    CommitCases(w.db, 10, i, 0, w.now);
    AppendedOne(w.db, CommitTx(w.db, 10, i, 0, w.now).db, n, first, rest, w.now);
  }

  lemma AppendedOne(db: Db, after: Db, n: nat, first: Digest, rest: Digest, now: Time)
    requires Uploaded(db, n, first, rest, now) && TheSlot().user == 0
    requires after.users == db.users && after.heads == db.heads[TheSlot() := Head(0, n + 1, None, now)]
    requires var d := if n == 0 then first else rest;
      && after.versions == db.versions[VKey(TheSlot(), n + 1) := Version(d, d, 1, "core", None, now, None)]
      && after.blobs == AddReference(db.blobs, d, 1)
    requires IdemId(0, n) in after.keys && after.keys == db.keys[IdemId(0, n) := after.keys[IdemId(0, n)]]
    ensures Uploaded(after, n + 1, first, rest, now)
  {
    var d := if n == 0 then first else rest;
    VersionsNext(n, first, rest, now);
    hide UsedBytes, TheSlot, VersionsUpTo;
    VersionsAre(n, first, rest, now);
    UsedAfterAppend(db.versions, VKey(TheSlot(), n + 1), Version(d, d, 1, "core", None, now, None), 0);
    assert db.heads[TheSlot() := Head(0, n + 1, None, now)] == map[TheSlot() := Head(0, n + 1, None, now)];
  }

  lemma UploadedHead(db: Db, n: nat, first: Digest, rest: Digest, now: Time)
    requires Uploaded(db, n, first, rest, now)
    ensures HeadRow(db, TheSlot(), 0, now) == Head(0, n, None, now)
  {
    hide UsedBytes, TheSlot;
  }

  lemma SlotIsValid()
    ensures TheSlot().user == 0 && TheSlot().kind == State && Hex64(TheSlot().rom) && SlotName(TheSlot().name)
  {
    SlotsAreValid();
  }

  lemma LoggedIn() returns (s: Sys)
    ensures Reachable(s, 10) && Quiet(s) && s.restores == map[] && s.files == {}
    ensures s.w.db.users == map[0 := User(Wechat("subject"), Active)]
    ensures s.w.db.heads == map[] && s.w.db.versions == map[] && s.w.db.blobs == map[] && s.w.db.keys == map[]
  {
    s := Start(0);
    Runs.ReachesSelf(Machine(10), s);
    assert Reachable(s, 10);
    hide Reachable;
    var login := Other(Login(Wechat("subject"), "client", 0, 0, 0, DAY));
    ReachMore(s, 10, login);
    s := DoStep(s, 10, login);
  }

  // Four versions of a state slot, the first of which alone has content `first`.
  lemma FourVersions(first: Digest, rest: Digest) returns (s: Sys)
    requires Hex64(first) && Hex64(rest)
    ensures Reachable(s, 10) && Quiet(s) && Uploaded(s.w.db, 4, first, rest, s.w.now)
    ensures s.restores == map[] && s.files == {first, rest}
  {
    hide Reachable, Hex64, TheSlot, UsedBytes, Uploaded;
    s := LoggedIn();
    NothingUploaded(s.w.db, first, rest, s.w.now);
    s := UploadOne(s, 0, first, rest);
    s := UploadOne(s, 1, first, rest);
    s := UploadOne(s, 2, first, rest);
    s := UploadOne(s, 3, first, rest);
  }

  lemma NothingUploaded(db: Db, first: Digest, rest: Digest, at: Time)
    requires db.users == map[0 := User(Wechat("subject"), Active)]
    requires db.heads == map[] && db.versions == map[] && db.blobs == map[] && db.keys == map[]
    ensures Uploaded(db, 0, first, rest, at)
  {
    NothingUsed(db.versions, 0);
  }

  // Fifteen days later the first of four versions, and no other, is old enough to be pruned.
  lemma FirstIsPrunable(db: Db, first: Digest, rest: Digest, at: Time, now: Time)
    requires Uploaded(db, 4, first, rest, at) && now == at + 15 * DAY && first != rest
    ensures Candidates(db, now) == {VKey(TheSlot(), 1)} && VKey(TheSlot(), 1) in db.versions
  {
    SlotIsValid();
    hide UsedBytes, Hex64, TheSlot, VersionsUpTo;
    VersionsAre(4, first, rest, at);
    var slot := TheSlot();
    var k1, k2, k3, k4 := VKey(slot, 1), VKey(slot, 2), VKey(slot, 3), VKey(slot, 4);
    assert NewerLive(db.versions, k1) == {k2, k3, k4};
    assert NewerLive(db.versions, k2) == {k3, k4};
    assert NewerLive(db.versions, k3) == {k4};
  }

  // Nothing else refers to the first version's blob.
  lemma OnlyReference(db: Db, first: Digest, rest: Digest, at: Time)
    requires Uploaded(db, 4, first, rest, at) && first != rest
    ensures CountOf({VKey(TheSlot(), 1)}, db.versions, first) == 1 && LiveRefs(db.versions, first) == {VKey(TheSlot(), 1)}
  {
    hide UsedBytes, Hex64, TheSlot, VersionsUpTo;
    VersionsAre(4, first, rest, at);
    var k1 := VKey(TheSlot(), 1);
    forall k | k in LiveRefs(db.versions, first)
      ensures k == k1
    {
      assert k == VKey(k.slot, k.revision);
    }
    assert k1 in LiveRefs(db.versions, first);
    assert LiveRefs(db.versions, first) == {k1};
    CountOfOne({k1}, db.versions, k1);
  }

  lemma CountOfOne(removed: set<VKey>, vs: map<VKey, Version>, k: VKey)
    requires k in vs && removed == {k}
    ensures CountOf(removed, vs, vs[k].blob) == 1
  {
    var gone := set j | j in removed && j in vs && vs[j].blob == vs[k].blob;
    assert gone == {k};
  }

  // The tables once the first version has been pruned, at `now`.
  ghost predicate FirstPruned(db: Db, first: Digest, now: Time) {
    && 0 in db.users && db.users[0].status == Active && SmallBlobs(db.blobs)
    && TheSlot() in db.heads && db.heads[TheSlot()].current == 4 && db.heads[TheSlot()].deletedAt.None?
    && VKey(TheSlot(), 4) in db.versions && VKey(TheSlot(), 5) !in db.versions
    && UsedBytes(db.versions, 0) < 10 && IdemId(0, 10) !in db.keys
    && first in db.blobs && db.blobs[first].refs == 0 && db.blobs[first].deleteAfter == Some(now + GRACE)
  }

  lemma PruneFirst(db: Db, first: Digest, rest: Digest, at: Time, now: Time)
    requires Uploaded(db, 4, first, rest, at) && first != rest && Inv(db, 10)
    ensures FirstPruned(PruneTx(db, {VKey(TheSlot(), 1)}, now), first, now)
  {
    hide UsedBytes, Hex64, TheSlot, VersionsUpTo, LiveRefs, CountOf, Inv, Release, SmallBlobs;
    var k1 := VKey(TheSlot(), 1);
    OnlyReference(db, first, rest, at);
    VersionsAre(4, first, rest, at);
    PrunedUsage(db, first, rest, at, now);
    RowOfBlob(db, k1);
    PrunedBlobs(db.blobs, db.versions, {k1}, first, now);
  }

  lemma PrunedBlobs(blobs: map<Digest, Blob>, vs: map<VKey, Version>, removed: set<VKey>, d: Digest, now: Time)
    requires SmallBlobs(blobs) && d in blobs && blobs[d].refs == 1 && CountOf(removed, vs, d) == 1
    ensures SmallBlobs(Release(blobs, vs, removed, now)) && d in Release(blobs, vs, removed, now)
    ensures Release(blobs, vs, removed, now)[d] == Blob(1, 0, Some(now + GRACE))
  {
    hide CountOf;
  }

  lemma RowOfBlob(db: Db, k: VKey)
    requires Inv(db, 10) && k in db.versions
    ensures db.versions[k].blob in db.blobs
    ensures db.blobs[db.versions[k].blob].refs == |LiveRefs(db.versions, db.versions[k].blob)|
  {
    assert RefCounts(db) && VersionRows(db.heads, db.versions, db.blobs, db.devices);
  }

  lemma PrunedUsage(db: Db, first: Digest, rest: Digest, at: Time, now: Time)
    requires Uploaded(db, 4, first, rest, at)
    ensures UsedBytes(MarkDeleted(db.versions, {VKey(TheSlot(), 1)}, now), 0) <= 4
  {
    SlotIsValid();
    VersionsAre(4, first, rest, at);
    hide UsedBytes, Hex64, TheSlot, VersionsUpTo;
    forall u
      ensures UsedBytes(db.versions, u) <= 4
    {
      if u != 0 {
        NothingUsed(db.versions, u);
      }
    }
    QuotaShrinks(MarkDeleted(db.versions, {VKey(TheSlot(), 1)}, now), db.versions, 4);
  }

  // The first version is read for a restore, pruned at once, and its file collected a week later.
  lemma CollectFirst(s: Sys, first: Digest, rest: Digest) returns (t: Sys)
    requires Reachable(s, 10) && Quiet(s) && Uploaded(s.w.db, 4, first, rest, s.w.now) && first != rest
    requires s.restores == map[] && Inv(s.w.db, 10)
    ensures Reachable(t, 10) && 0 in t.restores && t.restores[0].digest == t.restores[0].source.checksum == first
    ensures t.w.now == t.restores[0].readAt + GRACE && t.files == s.files - {first}
    ensures FirstPruned(t.w.db, first, t.restores[0].readAt)
  {
    hide Reachable, Hex64, TheSlot, UsedBytes, Uploaded, Inv, FirstPruned, GetContent;
    ReachMore(s, 10, Other(Tick(15 * DAY)));
    t := DoStep(s, 10, Other(Tick(15 * DAY)));
    FirstIsReadable(t.w.db, first, rest, s.w.now);
    ReachMore(t, 10, RestoreRead(0, TheSlot(), 1));
    t := DoStep(t, 10, RestoreRead(0, TheSlot(), 1));
    t := PruneAndWait(t, s.w.now, first, rest);
    t := Collect(t, first);
  }

  lemma PruneAndWait(s: Sys, at: Time, first: Digest, rest: Digest) returns (t: Sys)
    requires Reachable(s, 10) && Quiet(s) && Uploaded(s.w.db, 4, first, rest, at) && first != rest
    requires s.w.now == at + 15 * DAY && Inv(s.w.db, 10)
    ensures Reachable(t, 10) && Quiet(t) && t.restores == s.restores && t.files == s.files
    ensures t.w.now == s.w.now + GRACE && FirstPruned(t.w.db, first, s.w.now)
  {
    hide Reachable, TheSlot, UsedBytes, Uploaded, Inv, FirstPruned, PruneTx, Candidates;
    var k1 := VKey(TheSlot(), 1);
    var prune := Other(Prune(1, {k1}));
    FirstIsPrunable(s.w.db, first, rest, at, s.w.now);
    assert OldestOf(s.w.db.versions, Candidates(s.w.db, s.w.now), 1, {k1});
    ReachMore(s, 10, prune);
    PruneFirst(s.w.db, first, rest, at, s.w.now);
    t := DoStep(s, 10, prune);
    ReachMore(t, 10, Other(Tick(GRACE)));
    t := DoStep(t, 10, Other(Tick(GRACE)));
  }

  lemma FirstIsReadable(db: Db, first: Digest, rest: Digest, at: Time)
    requires Uploaded(db, 4, first, rest, at)
    ensures GetContent(db, TheSlot(), 1).Some?
    ensures var c := GetContent(db, TheSlot(), 1).value; c.1 == c.0.checksum == first
  {
    hide UsedBytes, TheSlot, VersionsUpTo;
    VersionsAre(4, first, rest, at);
  }

  // The collector's pass over one due digest whose row cannot be deleted.
  lemma Collect(s: Sys, d: Digest) returns (t: Sys)
    requires Reachable(s, 10) && Quiet(s) && FirstPruned(s.w.db, d, s.w.now - GRACE)
    ensures Reachable(t, 10) && t.w == s.w && t.restores == s.restores && t.files == s.files - {d}
  {
    hide Reachable, UsedBytes, TheSlot;
    ReachMore(s, 10, GcScan([d]));
    t := DoStep(s, 10, GcScan([d]));
    ReachMore(t, 10, GcLock);
    t := DoStep(t, 10, GcLock);
    ReachMore(t, 10, GcRecheck(true));
    t := DoStep(t, 10, GcRecheck(true));
    ReachMore(t, 10, GcDelete(true));
    t := DoStep(t, 10, GcDelete(true));
    ReachMore(t, 10, GcForget(false));
    t := DoStep(t, 10, GcForget(false));
  }

  // In some run, a restore that commits as soon as its grace has ended produces a live
  // version whose file has been collected.
  lemma GraceIsNeeded() returns (s: Sys, i: CommitInput)
    ensures Reachable(s, 10) && 0 in s.restores && s.w.now == s.restores[0].readAt + GRACE
    ensures i.blob == s.restores[0].digest && i.checksum == s.restores[0].source.checksum && Hex64(i.checksum)
    ensures !LiveFilesExist(Next(s.w, 10, Commit(i, 0)).db, s.files)
  {
    var first, rest := Digits('a'), Digits('b');
    DigitsDiffer('a', 'b');
    DigitsDiffer('b', 'a');
    SlotIsValid();
    hide Reachable, Hex64, Digits, TheSlot, UsedBytes, Uploaded, Inv, CommitTx, FirstPruned, LiveFilesExist, Next;
    s := FourVersions(first, rest);
    LiveVersionsKeepTheirFiles(s, 10);
    s := CollectFirst(s, first, rest);
    i := OneByte(TheSlot(), 4, first, 10);
    CommitAfterPrune(s, first, s.w.now - GRACE);
  }

  lemma CommitAfterPrune(s: Sys, first: Digest, prunedAt: Time)
    requires FirstPruned(s.w.db, first, prunedAt) && Hex64(first) && first !in s.files
    ensures !LiveFilesExist(Next(s.w, 10, Commit(OneByte(TheSlot(), 4, first, 10), 0)).db, s.files)
  {
    SlotIsValid();
    NotEmpty(first);
    hide Hex64, TheSlot, UsedBytes, CommitTx;
    var i := OneByte(TheSlot(), 4, first, 10);
    OneByteAppends(s.w.db, TheSlot(), 4, first, 10, 0, s.w.now);
    CommitCases(s.w.db, 10, i, 0, s.w.now);
    assert Live(CommitTx(s.w.db, 10, i, 0, s.w.now).db.versions, VKey(TheSlot(), 5));
  }
}
