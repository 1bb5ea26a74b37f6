/**
 The promises of the save store, over every run from empty tables: exact
 reference counts, the byte quota, gapless history, exactly-once commits and
 final erasure.
 */
module StoreTheorems {
  import opened Wrappers
  import opened SaveKeys
  import opened SaveTables
  import opened StoreInvariants

  // A state some run of the service reaches.
  ghost predicate Reachable(w: World, max: int) {
    max > 0 && exists t0: Time, es: seq<Event> ::
      Legal(World(EMPTY, t0), max, es) && Run(World(EMPTY, t0), max, es) == w
  }

  lemma ReachableInv(w: World, max: int)
    requires Reachable(w, max)
    ensures Inv(w.db, max)
  {
    var t0: Time, es: seq<Event> :| Legal(World(EMPTY, t0), max, es) && Run(World(EMPTY, t0), max, es) == w;
    InitialInv(max);
    InvRun(World(EMPTY, t0), max, es);
  }

  // ---------- Reference counts ----------

  // The live version rows an event soft-deletes or removes.
  ghost function RowsReleased(w: World, e: Event): set<VKey>
    requires Enabled(w, e)
  {
    match e
    case Prune(_, chosen) => chosen
    case Purge(_, slots) => LiveUnder(w.db.versions, slots)
    case ProcessJob(job, _) => LiveOf(w.db.versions, w.db.jobs[job].user)
    case _ => {}
  }

  // Counts are exact and a blob is scheduled for deletion exactly when nothing refers to it.
  lemma ReferenceCountsAreExact(w: World, max: int, d: Digest)
    requires Reachable(w, max) && d in w.db.blobs
    ensures w.db.blobs[d].refs == |LiveRefs(w.db.versions, d)|
    ensures w.db.blobs[d].deleteAfter.None? <==> LiveRefs(w.db.versions, d) != {}
  {
    ReachableInv(w, max);
  }

  lemma ReleasedRowsAreLive(w: World, e: Event, k: VKey)
    requires Enabled(w, e) && k in RowsReleased(w, e)
    ensures Live(w.db.versions, k)
  {
  }

  // GREATEST(0, ...) never changes a value: no event releases more references than a blob has.
  lemma ReleaseNeverClamps(w: World, max: int, e: Event, d: Digest)
    requires Reachable(w, max) && Enabled(w, e) && d in w.db.blobs
    ensures CountOf(RowsReleased(w, e), w.db.versions, d) <= w.db.blobs[d].refs
  {
    hide Reachable, Enabled, RowsReleased, RefsOf, CountOf;
    ReachableInv(w, max);
    forall k | k in RowsReleased(w, e) ensures Live(w.db.versions, k) {
      ReleasedRowsAreLive(w, e, k);
    }
    LiveRowsAreCounted(w.db, RowsReleased(w, e), d, w.now);
  }

  lemma LiveRowsAreCounted(db: Db, rows: set<VKey>, d: Digest, now: Time)
    requires RefCounts(db) && d in db.blobs && forall k | k in rows :: Live(db.versions, k)
    ensures CountOf(rows, db.versions, d) <= db.blobs[d].refs
  {
    CountSplit(db.versions, MarkDeleted(db.versions, rows, now), rows, d);
  }

  // ---------- Quota ----------

  lemma QuotaHolds(w: World, max: int, u: UserId, size: int)
    requires Reachable(w, max) && max <= MAX_INT64 && 0 < size <= MAX_INT64
    ensures 0 <= UsedBytes(w.db.versions, u) <= max
    ensures -MAX_INT64 <= max - size <= MAX_INT64
  {
    ReachableInv(w, max);
    assert UsedBytes(w.db.versions, u) <= max;
    Sums.Monotone({}, LiveOf(w.db.versions, u), SizeIn(w.db.versions));
  }

  // ---------- Listing ----------

  // Every live head with a version is listed, and what is listed can be read
  // back as the current content.
  lemma ListedHeadsAreReadable(w: World, max: int, slot: Slot)
    requires Reachable(w, max) && slot in w.db.heads
    requires w.db.heads[slot].deletedAt.None? && w.db.heads[slot].current > 0
    ensures Listed(w.db, slot)
    ensures GetContent(w.db, slot, 0).Some?
    ensures GetContent(w.db, slot, 0).value.0 == View(w.db, slot, w.db.heads[slot].current)
    ensures GetContent(w.db, slot, 0).value.0 in ListHeads(w.db, slot.user)
    ensures GetContent(w.db, slot, 0).value.1 in w.db.blobs
  {
    ReachableInv(w, max);
    assert Live(w.db.versions, VKey(slot, w.db.heads[slot].current));
  }

  // ---------- Exactly once ----------

  // While a row for the idempotency key exists a commit with that key changes
  // nothing. An unexpired row answers the same request with its stored result;
  // an expired leftover row makes the commit fail.
  lemma RetryChangesNothing(db: Db, max: int, i: CommitInput, id: HeadId, now: Time)
    requires IdemId(i.slot.user, i.idem) in db.keys
    ensures var row, o := db.keys[IdemId(i.slot.user, i.idem)], CommitTx(db, max, i, id, now);
            && o.db == db
            && (row.expiresAt > now && row.request == i.request ==> o.result == Ok(row.result.(replay := true)))
            && (row.expiresAt <= now || row.request != i.request ==> o.result.Err?)
  {
  }

  lemma CommitStoresKey(db: Db, max: int, i: CommitInput, id: HeadId, now: Time)
    requires i.checksum != "" && IdemId(i.slot.user, i.idem) !in db.keys && CommitTx(db, max, i, id, now).result.Ok?
    ensures var o, ik := CommitTx(db, max, i, id, now), IdemId(i.slot.user, i.idem);
            ik in o.db.keys && o.db.keys[ik] == IdemRow(i.request, o.result.value, now + DAY)
  {
    hide RowChecks, UsedBytes, AppendVersion, HeadUpsertable;
  }

  // A key row is never overwritten; only expiry or erasure of the user removes it.
  lemma KeyRowStep(w: World, max: int, e: Event, ik: IdemId)
    requires Enabled(w, e) && ik in w.db.keys
    ensures var w' := Next(w, max, e);
            && w.now <= w'.now
            && (ik in w'.db.keys ==> w'.db.keys[ik] == w.db.keys[ik])
            && (ik !in w'.db.keys ==>
                  w.db.keys[ik].expiresAt < w.now || (ik.user in w'.db.users && w'.db.users[ik.user].status == Deleted))
  {
    hide EraseBlocked, Candidates, OldestOf, Purgeable, Release, CommitTx, LiveOf, Doomed;
    match e
    case Commit(i, id) => CommitKeepsKeys(w.db, max, i, id, w.now, ik);
    case _ =>
  }

  lemma CommitKeepsKeys(db: Db, max: int, i: CommitInput, id: HeadId, now: Time, ik: IdemId)
    requires i.checksum != "" && ik in db.keys
    ensures var after := CommitTx(db, max, i, id, now).db; ik in after.keys && after.keys[ik] == db.keys[ik]
  {
    hide CommitTx, CurrentView;
    CommitCases(db, max, i, id, now);
  }

  lemma StatusStep(w: World, max: int, e: Event, u: UserId)
    requires Enabled(w, e) && JobsBounded(w.db) && u in w.db.users
    ensures var s, s' := w.db.users[u].status, NextDb(w, max, e).users;
            u in s' && (s != Active ==> s'[u].status != Active) && (s == Deleted ==> s'[u].status == Deleted)
  {
    hide EraseBlocked, Candidates, OldestOf, Purgeable, Release, CommitTx, LiveOf, ProcessTx, Doomed, MarkDeleted, LiveUnder;
    match e
    case Commit(i, id) => CommitKeepsJobs(w.db, max, i, id, w.now);
    case ProcessJob(job, fault) => ProcessKeepsStatus(w.db, job, fault, w.now, u);
    case _ =>
  }

  lemma ProcessKeepsStatus(db: Db, job: JobId, fault: Fault, now: Time, u: UserId)
    requires JobsBounded(db) && OldestPending(db, job) && db.jobs[job].user in db.users && u in db.users
    ensures var s, s' := db.users[u].status, ProcessTx(db, job, fault, now).users;
            u in s' && (s != Active ==> s'[u].status != Active) && (s == Deleted ==> s'[u].status == Deleted)
  {
    hide Release, LiveOf, EraseBlocked;
  }

  lemma {:induction false} StatusRun(w: World, max: int, es: seq<Event>, u: UserId)
    requires Inv(w.db, max) && Legal(w, max, es) && u in w.db.users
    ensures var s, s' := w.db.users[u].status, Run(w, max, es).db.users;
            u in s' && (s != Active ==> s'[u].status != Active) && (s == Deleted ==> s'[u].status == Deleted)
    decreases |es|
  {
    if es != [] {
      StatusStep(w, max, es[0], u);
      InvStep(w, max, es[0]);
      StatusRun(Next(w, max, es[0]), max, es[1..], u);
    }
  }

  lemma {:induction false} KeyRowRun(w: World, max: int, es: seq<Event>, ik: IdemId)
    requires Inv(w.db, max) && Legal(w, max, es) && ik in w.db.keys
    ensures var w' := Run(w, max, es);
            && w.now <= w'.now
            && (w'.now <= w.db.keys[ik].expiresAt && ik.user in w'.db.users && w'.db.users[ik.user].status != Deleted ==>
                  ik in w'.db.keys && w'.db.keys[ik] == w.db.keys[ik])
    decreases |es|
  {
    if es != [] {
      var next := Next(w, max, es[0]);
      KeyRowStep(w, max, es[0], ik);
      StatusStep(w, max, es[0], ik.user);
      InvStep(w, max, es[0]);
      if ik in next.db.keys {
        KeyRowRun(next, max, es[1..], ik);
      } else {
        ClockRun(next, max, es[1..]);
        StatusRun(next, max, es[1..], ik.user);
      }
    }
  }

  lemma {:induction false} ClockRun(w: World, max: int, es: seq<Event>)
    requires Legal(w, max, es)
    ensures w.now <= Run(w, max, es).now
    decreases |es|
  {
    if es != [] {
      ClockRun(Next(w, max, es[0]), max, es[1..]);
    }
  }

  // Exactly once: after a commit succeeded, repeating the same request at any
  // later moment of the next 24 hours, whatever else ran in between, returns
  // the stored result and leaves the tables alone (unless the account was erased).
  lemma CommitIsExactlyOnce(w: World, max: int, i: CommitInput, id: HeadId, es: seq<Event>, id': HeadId)
    requires Inv(w.db, max) && Enabled(w, Commit(i, id))
    requires IdemId(i.slot.user, i.idem) !in w.db.keys
    requires CommitTx(w.db, max, i, id, w.now).result.Ok?
    requires Legal(Next(w, max, Commit(i, id)), max, es)
    ensures var w' := Run(Next(w, max, Commit(i, id)), max, es);
            w'.now < w.now + 24 * 60 * 60 && i.slot.user in w'.db.users && w'.db.users[i.slot.user].status != Deleted ==>
              CommitTx(w'.db, max, i, id', w'.now)
              == Outcome(w'.db, Ok(CommitTx(w.db, max, i, id, w.now).result.value.(replay := true)))
  {
    var ik, w1 := IdemId(i.slot.user, i.idem), Next(w, max, Commit(i, id));
    CommitStoresKey(w.db, max, i, id, w.now);
    InvStep(w, max, Commit(i, id));
    KeyRowRun(w1, max, es, ik);
    var w' := Run(w1, max, es);
    if w'.now < w.now + 24 * 60 * 60 && i.slot.user in w'.db.users && w'.db.users[i.slot.user].status != Deleted {
      RetryChangesNothing(w'.db, max, i, id', w'.now);
    }
  }

  // Revisions 1..current_revision, no more and no fewer, in every reachable state.
  lemma HistoryHasNoGaps(w: World, max: int, slot: Slot, r: int)
    requires Reachable(w, max) && slot in w.db.heads
    ensures VKey(slot, r) in w.db.versions <==> 1 <= r <= w.db.heads[slot].current
  {
    ReachableInv(w, max);
  }

  // ---------- Erasure ----------

  lemma NoNewVersionStep(w: World, max: int, e: Event, u: UserId)
    requires Enabled(w, e) && u in w.db.users && w.db.users[u].status != Active
    ensures forall k | k in NextDb(w, max, e).versions && k.slot.user == u :: k in w.db.versions
  {
    hide EraseBlocked, Candidates, OldestOf, Purgeable, Release, CommitTx, LiveOf, Doomed;
    match e
    case Commit(i, id) => CommitCases(w.db, max, i, id, w.now);
    case _ =>
  }

  // Once an account is deleting, no run gives it another version.
  lemma {:induction false} DeletingAccountIsFrozen(w: World, max: int, es: seq<Event>, u: UserId)
    requires Inv(w.db, max) && Legal(w, max, es) && u in w.db.users && w.db.users[u].status != Active
    ensures forall k | k in Run(w, max, es).db.versions && k.slot.user == u :: k in w.db.versions
    decreases |es|
  {
    if es != [] {
      NoNewVersionStep(w, max, es[0], u);
      StatusStep(w, max, es[0], u);
      InvStep(w, max, es[0]);
      DeletingAccountIsFrozen(Next(w, max, es[0]), max, es[1..], u);
    }
  }

  // Once erased, the account owns no row in any later state.
  lemma ErasureIsFinal(w: World, max: int, es: seq<Event>, u: UserId)
    requires Inv(w.db, max) && Legal(w, max, es) && u in w.db.users && w.db.users[u].status == Deleted
    ensures NothingLeft(Run(w, max, es).db, u)
  {
    StatusRun(w, max, es, u);
    InvRun(w, max, es);
  }

  // A worker call completes its job exactly when nothing fails and no foreign
  // key of another account is in the way; the account is then empty.
  lemma CompletedJobErases(w: World, max: int, job: JobId, fault: Fault)
    requires Inv(w.db, max) && Enabled(w, ProcessJob(job, fault))
    ensures var db', u := ProcessTx(w.db, job, fault, w.now), w.db.jobs[job].user;
            && (db'.jobs[job].status == Complete <==> fault == NoFault && !EraseBlocked(w.db, u))
            && (db'.jobs[job].status == Complete ==> db'.users[u].status == Deleted && NothingLeft(db', u))
  {
    hide Inv, EraseBlocked, Release;
    var u := w.db.jobs[job].user;
    if fault == NoFault && !EraseBlocked(w.db, u) {
      assert NothingLeft(Erase(w.db, job, w.now), u);
    }
  }

  // The service's checksum validation is needed: with an empty checksum the
  // equal-checksum shortcut would store rows for an erased account.
  lemma ChecksumValidationIsNeeded() returns (db: Db, i: CommitInput)
    ensures Inv(db, 1) && i.slot.user in db.users && db.users[i.slot.user].status == Deleted && i.checksum == ""
    ensures !NothingLeft(CommitTx(db, 1, i, 0, 0).db, i.slot.user)
  {
    db := EMPTY.(users := map[0 := User(Tombstone(0), Deleted)], jobs := map[0 := Job(0, Complete, 1, 0)]);
    var rom := seq(64, _ => '0');
    var slot := Slot(0, rom, Battery, "current");
    i := CommitInput(slot, 1, "", "", 1, "core", None, 0, UploadPrint(slot, 1, "", "core", None));
    OneErasedAccount(db);
    hide Inv;
    assert slot in CommitTx(db, 1, i, 0, 0).db.heads;
  }

  lemma OneErasedAccount(db: Db)
    requires db == EMPTY.(users := map[0 := User(Tombstone(0), Deleted)], jobs := map[0 := Job(0, Complete, 1, 0)])
    ensures Inv(db, 1)
  {
    hide UsedBytes;
    InitialInv(1);
  }
}
