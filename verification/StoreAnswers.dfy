/**
 What each transaction answers and stores, in terms of what a client could read
 before it: for every request exactly one of the cases below applies.
 */
module StoreAnswers {
  import opened Wrappers
  import opened SaveKeys
  import opened SaveTables
  import opened StoreInvariants
  import opened SaveStore
  import opened StoreReads
  import StoreTheorems

  // ---------- Commit and restore ----------

  // The base a commit must name: the revision of a live head, 0 when there is none.
  function Wanted(db: Db, slot: Slot): int {
    if slot in db.heads && db.heads[slot].deletedAt.None? then db.heads[slot].current else 0
  }

  // The last revision the slot ever had, deleted or not.
  function LastRevision(db: Db, slot: Slot): int {
    if slot in db.heads then db.heads[slot].current else 0
  }

  function ReadView(db: Db, slot: Slot): Option<SaveView> {
    match GetContent(db, slot, 0)
    case Some(c) => Some(c.0)
    case None => None
  }

  // What the CHECK and foreign keys of a version row and its blob row ask for.
  predicate Storable(db: Db, i: CommitInput) {
    && Hex64(i.checksum) && Hex64(i.blob) && i.size > 0 && 1 <= |i.core| <= 128
    && (i.device.Some? ==> i.device.value in db.devices)
    && (i.blob in db.blobs ==> db.blobs[i.blob].size == i.size)
    && LastRevision(db, i.slot) < MAX_INT64
  }

  // The service has validated the key, and the new row identifier is unused.
  predicate ValidRequest(db: Db, i: CommitInput, id: HeadId) {
    && i.slot.user in db.users && Hex64(i.slot.rom) && SlotName(i.slot.name) && Hex64(i.checksum)
    && (i.slot !in db.heads ==> forall s | s in db.heads :: db.heads[s].id != id)
  }

  // The answer to a commit whose key has no row, by what could be read before it.
  ghost predicate Answers(db: Db, max: int, i: CommitInput, id: HeadId, now: Time, o: Outcome<CommitResult>)
    requires i.slot.user in db.users
  {
    var read := ReadView(db, i.slot);
    if i.base != Wanted(db, i.slot) then
      if read.Some? && read.value.checksum == i.checksum
      then o.result == Ok(CommitResult(read.value, false)) && OnlyKeyStored(db, o.db, i, CommitResult(read.value, false), now)
      else o == Outcome(db, Err(Conflict(read)))
    else if db.users[i.slot.user].status != Active then o == Outcome(db, Err(Unavailable))
    else if UsedBytes(db.versions, i.slot.user) + i.size > max then o == Outcome(db, Err(QuotaExceeded))
    else if !Storable(db, i) then o == Outcome(db, Err(Constraint))
    else o.result.Ok? && !o.result.value.replay && Stored(db, o.db, i, id, o.result.value.save, now)
  }

  lemma CommitAnswers(db: Db, max: int, i: CommitInput, id: HeadId, now: Time)
    requires Inv(db, max) && ValidRequest(db, i, id) && IdemId(i.slot.user, i.idem) !in db.keys
    ensures Answers(db, max, i, id, now, CommitTx(db, max, i, id, now))
  {
    hide UsedBytes, Hex64, SlotName, Inv, Gapless, CurrentIsLive;
    InvHistory(db, max);
    ReadIsCurrent(db, i.slot);
    NotEmpty(i.checksum);
    if Appends(db, max, i, id, now) {
      CommitCases(db, max, i, id, now);
      AppendedIsStored(db, max, i, id, now);
    } else {
      StaleOrRefused(db, max, i, id, now);
    }
  }

  // Nothing but the key row changes.
  ghost predicate OnlyKeyStored(db: Db, after: Db, i: CommitInput, result: CommitResult, now: Time) {
    && after == db.(keys := after.keys)
    && after.keys == db.keys[IdemId(i.slot.user, i.idem) := IdemRow(i.request, result, now + 24 * 60 * 60)]
  }

  // A new row with everything that was sent, one revision on, under a head that is live and keeps
  // its identifier; no other row changes but the blob's and the key's.
  ghost predicate Stored(db: Db, after: Db, i: CommitInput, id: HeadId, save: SaveView, now: Time) {
    var head := if i.slot in db.heads then db.heads[i.slot].id else id;
    var k := VKey(i.slot, LastRevision(db, i.slot) + 1);
    && save == SaveView(i.slot, head, k.revision, i.checksum, i.size, i.core)
    && ReadView(after, i.slot) == Some(save)
    && after.versions == db.versions[k := Version(i.checksum, i.blob, i.size, i.core, i.device, now, None)]
    && after.heads == db.heads[i.slot := Head(head, k.revision, None, now)]
    && after.keys == db.keys[IdemId(i.slot.user, i.idem) := IdemRow(i.request, CommitResult(save, false), now + 24 * 60 * 60)]
    && (forall d | d != i.blob :: d in after.blobs <==> d in db.blobs)
    && (forall d | d in db.blobs && d != i.blob :: after.blobs[d] == db.blobs[d])
    && after.users == db.users && after.devices == db.devices && after.sessions == db.sessions && after.jobs == db.jobs
  }

  lemma InvHistory(db: Db, max: int)
    requires Inv(db, max)
    ensures Gapless(db) && CurrentIsLive(db) && forall k | k in db.versions :: k.slot in db.heads
  {
  }

  lemma ReadIsCurrent(db: Db, slot: Slot)
    requires Gapless(db) && CurrentIsLive(db) && forall k | k in db.versions :: k.slot in db.heads
    ensures slot in db.heads ==> ReadView(db, slot) == CurrentView(db, slot, db.heads[slot])
    ensures slot !in db.heads ==> ReadView(db, slot) == None
    ensures slot in db.heads && db.heads[slot].current > 0 ==> VKey(slot, db.heads[slot].current) in db.versions
    ensures VKey(slot, LastRevision(db, slot) + 1) !in db.versions && LastRevision(db, slot) >= 0
  {
    if slot in db.heads && db.heads[slot].current > 0 {
      assert Live(db.versions, VKey(slot, db.heads[slot].current));
    }
  }

  lemma AppendedIsStored(db: Db, max: int, i: CommitInput, id: HeadId, now: Time)
    requires Appends(db, max, i, id, now)
    ensures var h := HeadRow(db, i.slot, id, now);
      var result := CommitResult(SaveView(i.slot, h.id, h.current + 1, i.checksum, i.size, i.core), false);
      Stored(db, StoreKey(AppendVersion(db, i, h, now), i, result, now), i, id, result.save, now)
  {
    hide UsedBytes, RowChecks, HeadUpsertable;
  }

  lemma StaleOrRefused(db: Db, max: int, i: CommitInput, id: HeadId, now: Time)
    requires ValidRequest(db, i, id) && IdemId(i.slot.user, i.idem) !in db.keys && !Appends(db, max, i, id, now)
    requires i.slot in db.heads ==> ReadView(db, i.slot) == CurrentView(db, i.slot, db.heads[i.slot])
    requires i.slot !in db.heads ==> ReadView(db, i.slot) == None
    requires i.slot in db.heads && db.heads[i.slot].current > 0 ==> VKey(i.slot, db.heads[i.slot].current) in db.versions
    requires VKey(i.slot, LastRevision(db, i.slot) + 1) !in db.versions && LastRevision(db, i.slot) >= 0
    ensures Answers(db, max, i, id, now, CommitTx(db, max, i, id, now))
  {
    hide UsedBytes, SlotName, GetContent;
    NotEmpty(i.checksum);
    if i.slot in db.heads {
      assert db.heads[i.slot := db.heads[i.slot]] == db.heads;
    }
  }

  // A commit whose key has a row: an unexpired one answers, or refuses another request; an
  // expired leftover turns what would be a success into a database error.
  lemma KeyedCommitAnswers(db: Db, max: int, i: CommitInput, id: HeadId, now: Time)
    requires i.checksum != "" && IdemId(i.slot.user, i.idem) in db.keys
    ensures var ik := IdemId(i.slot.user, i.idem);
      var row, o := db.keys[ik], CommitTx(db, max, i, id, now);
      var unkeyed := CommitTx(db.(keys := db.keys - {ik}), max, i, id, now).result;
      && o.db == db
      && o.result ==
         if row.expiresAt > now then
           if row.request == i.request then Ok(CommitResult(row.result.save, true)) else Err(KeyReused)
         else if unkeyed.Ok? then Err(Constraint)
         else unkeyed
  {
    hide UsedBytes, Hex64, SlotName;
  }

  // A restore of a readable revision with the current base succeeds for an active account with
  // room, on a device it knows, and stores that revision's content under a new number, with the
  // device and key of this request; otherwise it answers as an upload of that content would.
  lemma RestoreAnswers(db: Db, max: int, i: RestoreInput, id: HeadId, now: Time)
    requires Inv(db, max) && i.source > 0 && i.slot.user in db.users && IdemId(i.slot.user, i.idem) !in db.keys
    requires i.slot !in db.heads ==> forall s | s in db.heads :: db.heads[s].id != id
    ensures var o, source, read := RestoreTx(db, max, i, id, now), GetContent(db, i.slot, i.source), ReadView(db, i.slot);
      if source.None? then o == Outcome(db, Err(NotFound))
      else
        var (v, blob) := source.value;
        var input := CommitInput(i.slot, i.base, v.checksum, blob, v.size, v.core, i.device, i.idem,
                                 RestorePrint(i.slot, i.base, i.source, i.device));
        && Answers(db, max, input, id, now, o)
        && (i.base == Wanted(db, i.slot) && db.users[i.slot.user].status == Active
            && UsedBytes(db.versions, i.slot.user) + v.size <= max && LastRevision(db, i.slot) < MAX_INT64
            && (i.device.Some? ==> i.device.value in db.devices)
            <==> Stored(db, o.db, input, id, v.(revision := LastRevision(db, i.slot) + 1), now))
  {
    hide UsedBytes, Hex64, SlotName, Inv, CommitTx;
    if GetContent(db, i.slot, i.source).Some? {
      SourceIsStorable(db, max, i.slot, i.source);
      CommitAnswers(db, max, RestoreCommit(i, GetContent(db, i.slot, i.source).value), id, now);
    }
  }

  lemma SourceIsStorable(db: Db, max: int, slot: Slot, revision: int)
    requires Inv(db, max) && GetContent(db, slot, revision).Some?
    ensures var (v, blob) := GetContent(db, slot, revision).value;
      && Hex64(slot.rom) && SlotName(slot.name) && Hex64(v.checksum) && Hex64(blob) && v.size > 0 && 1 <= |v.core| <= 128
      && blob in db.blobs && db.blobs[blob].size == v.size && v == SaveView(slot, db.heads[slot].id, v.revision, v.checksum, v.size, v.core)
  {
    hide Hex64, SlotName;
    assert ChecksKept(db) && ForeignKeys(db);
  }

  // ---------- Listing and deleting saves ----------

  // A listing has exactly the current saves of the user's own live heads.
  lemma ListAnswers(db: Db, max: int, u: UserId, v: SaveView)
    requires Inv(db, max)
    ensures v in ListHeads(db, u) <==> v.slot.user == u && ReadView(db, v.slot) == Some(v)
  {
    hide Inv, CurrentIsLive;
    InvHistory(db, max);
    ReadIsCurrent(db, v.slot);
    if v.slot in db.heads && VKey(v.slot, db.heads[v.slot].current) in db.versions {
      assert db.heads[v.slot].current > 0;
    }
  }

  // The live heads a delete names.
  predicate Named(db: Db, t: Target, slot: Slot) {
    && slot in db.heads && db.heads[slot].deletedAt.None?
    && match t
       case OneSlot(s) => slot == s
       case WholeRom(u, rom) => slot.user == u && slot.rom == rom
  }

  // A delete marks exactly the live heads it names, counts them, and touches nothing else.
  lemma DeleteAnswers(db: Db, t: Target, now: Time)
    ensures var o, hit := DeleteTx(db, t, now), set s | s in db.heads && Named(db, t, s);
      && o.result == (if hit == {} then Err(NotFound) else Ok(|hit|))
      && o.db == db.(heads := o.db.heads) && o.db.heads.Keys == db.heads.Keys
      && forall s | s in db.heads ::
           o.db.heads[s] == if s in hit then Head(db.heads[s].id, db.heads[s].current, Some(now), now) else db.heads[s]
  {
    assert Doomed(db, t) == set s | s in db.heads && Named(db, t, s);
  }

  // Pruning soft-deletes the rows chosen, at this moment, and touches no other version, head, key or account.
  lemma PruneAnswers(db: Db, chosen: set<VKey>, now: Time)
    ensures var after := PruneTx(db, chosen, now);
      && after == db.(versions := after.versions, blobs := after.blobs)
      && after.versions.Keys == db.versions.Keys && after.blobs.Keys == db.blobs.Keys
      && (forall k | k in db.versions && k !in chosen :: after.versions[k] == db.versions[k])
      && (forall k | k in db.versions && k in chosen :: after.versions[k] == db.versions[k].(deletedAt := Some(now)))
  {
    hide ReleaseOne, CountOf;
  }

  // Purging removes exactly the heads deleted more than a week ago, with all their versions.
  lemma PurgeAnswers(db: Db, max: int, now: Time, slot: Slot, revision: int)
    requires Inv(db, max)
    ensures var after := PurgeTx(db, Purgeable(db, now), now);
      var gone := slot in db.heads && db.heads[slot].deletedAt.Some? && db.heads[slot].deletedAt.value < now - 7 * 24 * 60 * 60;
      && (slot in after.heads <==> slot in db.heads && !gone)
      && (VKey(slot, revision) in after.versions <==> VKey(slot, revision) in db.versions && !gone)
      && (slot in after.heads ==> after.heads[slot] == db.heads[slot])
  {
    hide Release;
    assert ForeignKeys(db);
  }

  // A blob that loses its last live version is due exactly a week later, and no other is scheduled.
  lemma ReleasedBlobWaits(w: World, max: int, e: Event, d: Digest)
    requires Inv(w.db, max) && Enabled(w, e) && (e.Prune? || e.Purge? || e.ProcessJob?) && d in w.db.blobs
    ensures var after := NextDb(w, max, e);
      && d in after.blobs
      && after.blobs[d].deleteAfter ==
           if LiveRefs(w.db.versions, d) != {} && LiveRefs(after.versions, d) == {} then Some(w.now + 7 * 24 * 60 * 60)
           else w.db.blobs[d].deleteAfter
  {
    hide Candidates, OldestOf, Purgeable, LiveRefs, Release, Inv, EraseBlocked, MarkDeleted, LiveOf, LiveUnder, RefCounts, ProcessTx, Erase;
    var db, after, rows := w.db, NextDb(w, max, e), StoreTheorems.RowsReleased(w, e);
    forall k | k in rows ensures Live(db.versions, k) {
      StoreTheorems.ReleasedRowsAreLive(w, e, k);
    }
    InvCounts(db, max);
    InvStep(w, max, e);
    InvCounts(after, max);
    match e
    case ProcessJob(job, fault) =>
      ProcessReleases(db, job, fault, w.now);
      if after.blobs != db.blobs || after.versions != db.versions {
        ReleaseWaits(db, after, rows, d, w.now);
      }
    case _ => ReleaseWaits(db, after, rows, d, w.now);
  }

  lemma InvCounts(db: Db, max: int)
    requires Inv(db, max)
    ensures RefCounts(db)
  {
  }

  lemma ProcessReleases(db: Db, job: JobId, fault: Fault, now: Time)
    requires job in db.jobs && db.jobs[job].user in db.users
    ensures var after := ProcessTx(db, job, fault, now);
      || (after.blobs == db.blobs && after.versions == db.versions)
      || after.blobs == Release(db.blobs, db.versions, LiveOf(db.versions, db.jobs[job].user), now)
  {
    hide EraseBlocked, Release, LiveOf;
  }

  lemma ReleaseWaits(db: Db, after: Db, rows: set<VKey>, d: Digest, now: Time)
    requires RefCounts(db) && RefCounts(after) && d in db.blobs && forall k | k in rows :: Live(db.versions, k)
    requires after.blobs == Release(db.blobs, db.versions, rows, now)
    ensures d in after.blobs
    ensures after.blobs[d].deleteAfter ==
      if LiveRefs(db.versions, d) != {} && LiveRefs(after.versions, d) == {} then Some(now + 7 * 24 * 60 * 60)
      else db.blobs[d].deleteAfter
  {
    hide LiveRefs, CountOf, ReleaseOne;
    StoreTheorems.LiveRowsAreCounted(db, rows, d, now);
    ReleaseSchedules(db.blobs[d], CountOf(rows, db.versions, d), now);
    assert |LiveRefs(db.versions, d)| == 0 <==> LiveRefs(db.versions, d) == {};
    assert |LiveRefs(after.versions, d)| == 0 <==> LiveRefs(after.versions, d) == {};
  }

  lemma ReleaseSchedules(b: Blob, n: nat, now: Time)
    requires n <= b.refs && (b.deleteAfter.None? <==> b.refs > 0)
    ensures var c := ReleaseOne(b, n, now);
      c.deleteAfter == if b.refs > 0 && c.refs == 0 then Some(now + 7 * 24 * 60 * 60) else b.deleteAfter
  {
  }

  // A row is forgotten exactly when it is due and no version, live or not, refers to it.
  lemma ForgetAnswers(db: Db, d: Digest, now: Time)
    ensures var after := ForgetTx(db, d, now);
      && after == db.(blobs := after.blobs) && (forall e | e != d :: e in after.blobs <==> e in db.blobs)
      && (forall e | e in after.blobs :: after.blobs[e] == db.blobs[e])
      && (d in db.blobs ==>
            (d !in after.blobs <==>
               && db.blobs[d].refs == 0 && db.blobs[d].deleteAfter.Some? && db.blobs[d].deleteAfter.value <= now
               && !BlobReferenced(db, d)))
      && (BlobReferenced(db, d) <==> exists k :: k in db.versions && db.versions[k].blob == d)
  {
  }

  // ---------- Accounts ----------

  // A login opens one session on one device row, and changes no other row.
  lemma LoginAnswers(db: Db, subject: Subject, client: string, u: UserId, d: DeviceId, s: SessionId, expiresAt: Time)
    requires LoginRows(db, subject, client, u, d, s)
    ensures var o := LoginTx(db, subject, client, u, d, s, expiresAt);
      if u in db.users && db.users[u].status != Active then o == Outcome(db, Err(Unavailable))
      else
        && o.result == Ok(s)
        && o.db == db.(users := o.db.users, devices := o.db.devices, sessions := o.db.sessions)
        && o.db.users == (if u in db.users then db.users else db.users[u := User(subject, Active)])
        && o.db.devices == db.devices[d := Device(u, client)]
        && o.db.sessions == db.sessions[s := Session(u, d, expiresAt, None)]
        && forall e | e in db.devices :: o.db.devices[e] == db.devices[e]
  {
  }

  // A deletion request succeeds exactly for an active account. It queues one job and revokes the
  // account's sessions, those that were not yet, and nobody else's.
  lemma DeletionRequestAnswers(db: Db, u: UserId, job: JobId, now: Time)
    requires job !in db.jobs
    ensures var o := RequestDeletionTx(db, u, job, now);
      if u !in db.users || db.users[u].status != Active then o == Outcome(db, Err(Unavailable))
      else
        && o.result == Ok(job)
        && o.db == db.(users := db.users[u := User(db.users[u].subject, Deleting)], sessions := o.db.sessions,
                       jobs := db.jobs[job := Job(u, Pending, 0, now)])
        && o.db.sessions.Keys == db.sessions.Keys
        && (forall s | s in db.sessions && db.sessions[s].user != u :: o.db.sessions[s] == db.sessions[s])
        && forall s | s in db.sessions && db.sessions[s].user == u ::
             o.db.sessions[s] == if db.sessions[s].revokedAt.None? then db.sessions[s].(revokedAt := Some(now)) else db.sessions[s]
  {
  }

  // A worker call that does not complete its job charges an attempt, unless its failure goes unrecorded; the
  // job stays pending until the tenth.
  lemma FailedCallAnswers(db: Db, job: JobId, fault: Fault, now: Time)
    requires JobsBounded(db) && OldestPending(db, job) && db.jobs[job].user in db.users
    requires fault != NoFault || EraseBlocked(db, db.jobs[job].user)
    ensures var j, after := db.jobs[job], ProcessTx(db, job, fault, now);
      if fault == Unrecorded then after == db
      else after == db.(jobs := db.jobs[job := Job(j.user, if j.attempts == 9 then Failed else Pending, j.attempts + 1, j.createdAt)])
  {
    hide EraseBlocked;
  }

  // An erasure leaves every row of every other account alone, and the person can register
  // again: the account's subject is nobody's, so a login with it makes a new account.
  lemma ErasureAnswers(db: Db, max: int, job: JobId, now: Time)
    requires Inv(db, max) && OldestPending(db, job) && !EraseBlocked(db, db.jobs[job].user) && db.jobs[job].user in db.users
    ensures var u, after := db.jobs[job].user, ProcessTx(db, job, NoFault, now);
      && after.users == db.users[u := User(Tombstone(job), Deleted)]
      && after.jobs == db.jobs[job := Job(u, Complete, db.jobs[job].attempts + 1, db.jobs[job].createdAt)]
      && (db.users[u].subject.Wechat? ==> !SubjectTaken(after, db.users[u].subject))
      && OthersKept(db, after, u)
  {
    hide EraseBlocked, Release, Inv, OthersKept, SubjectTaken;
    assert RowsUnique(db) by { InvIsUnique(db, max); }
    if db.users[db.jobs[job].user].subject.Wechat? {
      SubjectIsFree(db, db.jobs[job].user, job);
    }
    ErasureKeepsOthers(db, job, now);
  }

  lemma InvIsUnique(db: Db, max: int)
    requires Inv(db, max)
    ensures RowsUnique(db)
  {
  }

  lemma SubjectIsFree(db: Db, u: UserId, job: JobId)
    requires RowsUnique(db) && u in db.users && db.users[u].subject.Wechat?
    ensures forall after: Db | after.users == db.users[u := User(Tombstone(job), Deleted)] ::
      !SubjectTaken(after, db.users[u].subject)
  {
  }

  lemma ErasureKeepsOthers(db: Db, job: JobId, now: Time)
    requires job in db.jobs && db.jobs[job].user in db.users
    ensures OthersKept(db, Erase(db, job, now), db.jobs[job].user)
  {
    hide Release, LiveOf;
  }

  ghost predicate OthersKept(db: Db, after: Db, u: UserId) {
    && (forall d | d in db.devices && db.devices[d].user != u :: d in after.devices && after.devices[d] == db.devices[d])
    && (forall s | s in db.sessions && db.sessions[s].user != u :: s in after.sessions && after.sessions[s] == db.sessions[s])
    && (forall s | s in db.heads && s.user != u :: s in after.heads && after.heads[s] == db.heads[s])
    && (forall k | k in db.versions && k.slot.user != u :: k in after.versions && after.versions[k] == db.versions[k])
    && (forall ik | ik in db.keys && ik.user != u :: ik in after.keys && after.keys[ik] == db.keys[ik])
  }

  lemma RegisteringAgain(db: Db, subject: Subject, client: string, u: UserId, d: DeviceId, s: SessionId, expiresAt: Time)
    requires !SubjectTaken(db, subject) && LoginRows(db, subject, client, u, d, s)
    ensures u !in db.users && LoginTx(db, subject, client, u, d, s, expiresAt).result.Ok?
    ensures LoginTx(db, subject, client, u, d, s, expiresAt).db.users == db.users[u := User(subject, Active)]
  {
  }

  // Cleaning up sessions ends none that is active.
  lemma CleanupKeepsSessions(w: World, max: int, ss: set<SessionId>, u: UserId, s: SessionId)
    requires Enabled(w, DropSessions(ss)) && SessionActive(w.db, u, s, w.now)
    ensures SessionActive(NextDb(w, max, DropSessions(ss)), u, s, w.now)
  {
  }
}
