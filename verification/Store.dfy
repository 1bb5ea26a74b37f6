/**
 The store as the service runs it: tables updated statement by statement inside
 a transaction, rolled back on the first error. Every method is proved equal to
 its transaction function in SaveTables.
 */
module SaveStore {
  import opened Sums
  import opened Wrappers
  import opened SaveKeys
  import opened SaveTables
  import opened StoreInvariants

  datatype RestoreInput = RestoreInput(slot: Slot, source: int, base: int, device: Option<DeviceId>, idem: IdemKey)

  function RestoreCommit(i: RestoreInput, source: (SaveView, Digest)): CommitInput {
    CommitInput(i.slot, i.base, source.0.checksum, source.1, source.0.size, source.0.core, i.device, i.idem,
                RestorePrint(i.slot, i.base, i.source, i.device))
  }

  // A restore commits the content of an older live version as a new one.
  ghost function RestoreTx(db: Db, max: int, i: RestoreInput, id: HeadId, now: Time): Outcome<CommitResult> {
    match GetContent(db, i.slot, i.source)
    case None => Outcome(db, Err(NotFound))
    case Some(source) => CommitTx(db, max, RestoreCommit(i, source), id, now)
  }

  // ORDER BY rank LIMIT n over a set of rows.
  method PickLeast<T(==)>(all: set<T>, rank: T -> int, limit: nat) returns (chosen: set<T>)
    ensures chosen <= all && |chosen| == (if |all| < limit then |all| else limit)
    ensures forall a, b | a in chosen && b in all - chosen :: rank(a) <= rank(b)
  {
    chosen := {};
    var rest := all;
    while |chosen| < limit && rest != {}
      invariant chosen !! rest && chosen + rest == all
      invariant |chosen| <= limit && |chosen| + |rest| == |all|
      invariant forall a, b | a in chosen && b in rest :: rank(a) <= rank(b)
      decreases |rest|
    {
      var least := Least(rest, rank);
      chosen, rest := chosen + {least}, rest - {least};
    }
    assert all - chosen == rest;
  }

  method Least<T(==)>(all: set<T>, rank: T -> int) returns (least: T)
    requires all != {}
    ensures least in all && forall b | b in all :: rank(least) <= rank(b)
  {
    least :| least in all;
    var others := all - {least};
    while others != {}
      invariant least in all && others <= all
      invariant forall b | b in all - others :: rank(least) <= rank(b)
      decreases |others|
    {
      var x :| x in others;
      if rank(x) < rank(least) {
        least := x;
      }
      others := others - {x};
    }
  }

  // Marking the user's live rows first makes no difference to what is left without the user.
  lemma MarkedRowsGo(vs: map<VKey, Version>, u: UserId, now: Time)
    ensures VersionsWithout(MarkDeleted(vs, LiveOf(vs, u), now), u) == VersionsWithout(vs, u)
  {
  }

  class Store {
    var users: map<UserId, User>
    var devices: map<DeviceId, Device>
    var sessions: map<SessionId, Session>
    var heads: map<Slot, Head>
    var versions: map<VKey, Version>
    var blobs: map<Digest, Blob>
    var keys: map<IdemId, IdemRow>
    var jobs: map<JobId, Job>
    const maxUserBytes: int

    function Tables(): Db
      reads this
    {
      Db(users, devices, sessions, heads, versions, blobs, keys, jobs)
    }

    constructor (max: int)
      requires max > 0
      ensures Tables() == EMPTY && maxUserBytes == max && Inv(Tables(), max)
    {
      users, devices, sessions, heads := map[], map[], map[], map[];
      versions, blobs, keys, jobs := map[], map[], map[], map[];
      maxUserBytes := max;
      new;
      InitialInv(max);
    }

    method Rollback(db: Db)
      modifies this
      ensures Tables() == db
    {
      users, devices, sessions, heads := db.users, db.devices, db.sessions, db.heads;
      versions, blobs, keys, jobs := db.versions, db.blobs, db.keys, db.jobs;
    }

    // SELECT COALESCE(SUM(size_bytes), 0)
    method SumUsed(u: UserId) returns (total: int)
      ensures total == UsedBytes(versions, u)
    {
      var size := SizeIn(versions);
      var rest := LiveOf(versions, u);
      total := 0;
      while rest != {}
        invariant rest <= LiveOf(versions, u)
        invariant total + Sum(rest, size) == UsedBytes(versions, u)
        decreases |rest|
      {
        var k :| k in rest;
        Extract(rest, size, k);
        total := total + versions[k].size;
        rest := rest - {k};
      }
    }

    method StoreIdempotency(i: CommitInput, result: CommitResult, now: Time) returns (ok: bool)
      modifies this`keys
      ensures ok <==> IdemId(i.slot.user, i.idem) !in old(keys)
      ensures Tables() == if ok then StoreKey(old(Tables()), i, result, now) else old(Tables())
    {
      var ik := IdemId(i.slot.user, i.idem);
      ok := ik !in keys;
      if ok {
        keys := keys[ik := IdemRow(i.request, result, now + DAY)];
      }
    }

    // The base is not the current revision: equal content counts as success, anything else is a conflict.
    method AnswerStaleBase(i: CommitInput, current: Option<SaveView>, now: Time) returns (r: Result<CommitResult, StoreError>)
      modifies this`keys
      ensures var same := CommitResult(if current.Some? then current.value else ZeroView(i.slot), false);
              && r == (if ChecksumOf(current) != i.checksum then Err(Conflict(current))
                       else if IdemId(i.slot.user, i.idem) in old(keys) then Err(Constraint)
                       else Ok(same))
              && (r.Ok? ==> Tables() == StoreKey(old(Tables()), i, same, now))
    {
      if ChecksumOf(current) != i.checksum {
        return Err(Conflict(current));
      }
      var same := CommitResult(if current.Some? then current.value else ZeroView(i.slot), false);
      var stored := StoreIdempotency(i, same, now);
      r := if stored then Ok(same) else Err(Constraint);
    }

    // The statements of one commit. On an error the tables are left half-updated for the caller to roll back.
    method CommitInTx(i: CommitInput, id: HeadId, now: Time) returns (r: Result<CommitResult, StoreError>)
      modifies this
      ensures r == CommitTx(old(Tables()), maxUserBytes, i, id, now).result
      ensures r.Ok? ==> Tables() == CommitTx(old(Tables()), maxUserBytes, i, id, now).db
    {
      hide AppendVersion, RowChecks, UsedBytes;
      var ik := IdemId(i.slot.user, i.idem);
      if ik in keys && keys[ik].expiresAt > now {
        if keys[ik].request != i.request {
          return Err(KeyReused);
        }
        return Ok(keys[ik].result.(replay := true));
      }
      if i.slot !in heads {
        if !HeadUpsertable(Tables(), i.slot, id) {
          return Err(Constraint);
        }
        UpsertFirst(Tables(), maxUserBytes, i, id, now);
        heads := heads[i.slot := Head(id, 0, None, now)];
      }
      r := CommitOnHead(i, id, now);
    }

    // The statements after the head row is locked.
    method CommitOnHead(i: CommitInput, ghost id: HeadId, now: Time) returns (r: Result<CommitResult, StoreError>)
      requires i.slot in heads
      requires IdemId(i.slot.user, i.idem) in keys ==> keys[IdemId(i.slot.user, i.idem)].expiresAt <= now
      modifies this
      ensures r == CommitTx(old(Tables()), maxUserBytes, i, id, now).result
      ensures r.Ok? ==> Tables() == CommitTx(old(Tables()), maxUserBytes, i, id, now).db
    {
      hide UsedBytes;
      var head := heads[i.slot];
      assert heads[i.slot := head] == heads;
      var current: Option<SaveView> := None;
      if head.current > 0 && head.deletedAt.None? {
        if VKey(i.slot, head.current) !in versions {
          return Err(Constraint);
        }
        current := Some(View(Tables(), i.slot, head.current));
      }
      if head.deletedAt.None? && head.current != i.base {
        r := AnswerStaleBase(i, current, now);
        return;
      }
      if head.deletedAt.Some? && i.base != 0 {
        return Err(Conflict(current));
      }
      if i.slot.user !in users || users[i.slot.user].status != Active {
        return Err(Unavailable);
      }
      var used := SumUsed(i.slot.user);
      if used > maxUserBytes - i.size {
        return Err(QuotaExceeded);
      }
      r := Append(i, head, now);
    }

    // INSERT INTO blobs ... ON CONFLICT DO UPDATE SET reference_count = reference_count + 1
    method ReferenceBlob(d: Digest, size: int)
      requires d in blobs ==> blobs[d].size == size
      modifies this`blobs
      ensures blobs == AddReference(old(blobs), d, size)
    {
      if d in blobs {
        var b := blobs[d];
        blobs := blobs[d := b.(refs := b.refs + 1, deleteAfter := None)];
      } else {
        blobs := blobs[d := Blob(size, 1, None)];
      }
    }

    // Reference the blob, insert the version, move the head, store the result.
    method Append(i: CommitInput, head: Head, now: Time) returns (r: Result<CommitResult, StoreError>)
      requires i.slot in heads && heads[i.slot] == head
      modifies this
      ensures var ok := RowChecks(old(Tables()), i, head) && IdemId(i.slot.user, i.idem) !in old(keys);
              var result := CommitResult(SaveView(i.slot, head.id, head.current + 1, i.checksum, i.size, i.core), false);
              && r == (if ok then Ok(result) else Err(Constraint))
              && (ok ==> Tables() == StoreKey(AppendVersion(old(Tables()), i, head, now), i, result, now))
    {
      var revision := head.current + 1;
      if !RowChecks(Tables(), i, head) {
        return Err(Constraint);
      }
      ReferenceBlob(i.blob, i.size);
      versions := versions[VKey(i.slot, revision) := Version(i.checksum, i.blob, i.size, i.core, i.device, now, None)];
      heads := heads[i.slot := Head(head.id, revision, None, now)];
      var result := CommitResult(SaveView(i.slot, head.id, revision, i.checksum, i.size, i.core), false);
      var stored := StoreIdempotency(i, result, now);
      r := if stored then Ok(result) else Err(Constraint);
    }

    method Commit(i: CommitInput, id: HeadId, now: Time) returns (r: Result<CommitResult, StoreError>)
      modifies this
      ensures Outcome(Tables(), r) == CommitTx(old(Tables()), maxUserBytes, i, id, now)
      ensures old(Inv(Tables(), maxUserBytes)) && Hex64(i.checksum) ==> Inv(Tables(), maxUserBytes)
    {
      hide Inv, CommitTx;
      var before := Tables();
      r := CommitInTx(i, id, now);
      if r.Err? {
        Rollback(before);
        ErrorsChangeNothing(before, maxUserBytes, i, id, now);
      }
      if Inv(before, maxUserBytes) && Hex64(i.checksum) {
        InvStep(World(before, now), maxUserBytes, StoreInvariants.Commit(i, id));
      }
    }

    method Restore(i: RestoreInput, id: HeadId, now: Time) returns (r: Result<CommitResult, StoreError>)
      modifies this
      ensures Outcome(Tables(), r) == RestoreTx(old(Tables()), maxUserBytes, i, id, now)
    {
      var source := GetContent(Tables(), i.slot, i.source);
      if source.None? {
        return Err(NotFound);
      }
      r := Commit(RestoreCommit(i, source.value), id, now);
    }

    method DeleteSaves(t: Target, now: Time) returns (r: Result<nat, StoreError>)
      modifies this`heads
      ensures Outcome(Tables(), r) == DeleteTx(old(Tables()), t, now)
    {
      var hit := set s | s in heads && heads[s].deletedAt.None? && Hits(t, s);
      heads := map s | s in heads :: if s in hit then heads[s].(deletedAt := Some(now), updatedAt := now) else heads[s];
      if |hit| == 0 {
        return Err(NotFound);
      }
      r := Ok(|hit|);
    }

    method RequestDeletion(u: UserId, job: JobId, now: Time) returns (r: Result<JobId, StoreError>)
      modifies this
      ensures Outcome(Tables(), r) == RequestDeletionTx(old(Tables()), u, job, now)
    {
      var before := Tables();
      if u !in users || users[u].status != Active {
        return Err(Unavailable);
      }
      users := users[u := users[u].(status := Deleting)];
      sessions := RevokeAll(sessions, u, now);
      if job in jobs {
        Rollback(before);
        return Err(Constraint);
      }
      jobs := jobs[job := Job(u, Pending, 0, now)];
      r := Ok(job);
    }

    method PruneHistory(limit: int, now: Time) returns (r: Result<nat, StoreError>, ghost chosen: set<VKey>)
      modifies this
      ensures r.Err? <==> limit < 1 || limit > 5000
      ensures r.Err? ==> Tables() == old(Tables())
      ensures r.Ok? ==> OldestOf(old(versions), Candidates(old(Tables()), now), limit, chosen)
                        && Tables() == PruneTx(old(Tables()), chosen, now) && r.value == |chosen|
    {
      hide Prunable, MarkDeleted, Release;
      chosen := {};
      if limit < 1 || limit > 5000 {
        return Err(Constraint), {};
      }
      var vs := versions;
      var marked := PickLeast(Candidates(Tables(), now), k => if k in vs then vs[k].createdAt else 0, limit);
      chosen := marked;
      versions := MarkDeleted(versions, marked, now);
      blobs := Release(blobs, vs, marked, now);
      r := Ok(|marked|);
    }

    method PurgeDeletedHeads(limit: int, now: Time) returns (r: Result<nat, StoreError>, ghost chosen: set<Slot>)
      modifies this
      ensures r.Err? <==> limit < 1 || limit > 1000
      ensures r.Err? ==> Tables() == old(Tables())
      ensures r.Ok? ==> chosen <= Purgeable(old(Tables()), now) && r.value == |chosen| <= limit
                        && (forall a, b | a in chosen && b in Purgeable(old(Tables()), now) - chosen ::
                              old(heads)[a].deletedAt.value <= old(heads)[b].deletedAt.value)
                        && Tables() == PurgeTx(old(Tables()), chosen, now)
                        && (|chosen| < limit ==> Purgeable(Tables(), now) == {})
    {
      chosen := {};
      if limit < 1 || limit > 1000 {
        return Err(Constraint), {};
      }
      var hs, vs := heads, versions;
      var due := Purgeable(Tables(), now);
      var targets := PickLeast(due, s => if s in hs && hs[s].deletedAt.Some? then hs[s].deletedAt.value else 0, limit);
      chosen := targets;
      versions := map k | k in vs && k.slot !in targets :: vs[k];
      heads := heads - targets;
      blobs := Release(blobs, vs, LiveUnder(vs, targets), now);
      assert |targets| < limit ==> targets == due by {
        if |targets| < limit {
          SameSize(targets, due);
        }
      }
      r := Ok(|targets|);
    }

    method ForgetBlob(d: Digest, now: Time) returns (ok: bool)
      modifies this`blobs
      ensures Tables() == ForgetTx(old(Tables()), d, now)
      ensures ok <==> !(BlobDue(old(Tables()), d, now) && BlobReferenced(old(Tables()), d))
    {
      ok := true;
      if BlobDue(Tables(), d, now) {
        ok := !(exists k :: k in versions && versions[k].blob == d);
        if ok {
          blobs := blobs - {d};
        }
      }
    }

    // Release the account's blobs, then delete its versions, heads, keys and sessions.
    method DeleteAccountRows(u: UserId, now: Time)
      modifies this`versions, this`blobs, this`heads, this`keys, this`sessions
      ensures blobs == Release(old(blobs), old(versions), LiveOf(old(versions), u), now)
      ensures versions == VersionsWithout(old(versions), u)
      ensures sessions == SessionsWithout(old(sessions), u)
      ensures heads == map s | s in old(heads) && s.user != u :: old(heads)[s]
      ensures keys == map ik | ik in old(keys) && ik.user != u :: old(keys)[ik]
    {
      hide LiveOf, Release, SessionsWithout, MarkDeleted, VersionsWithout;
      MarkedRowsGo(versions, u, now);
      var live := LiveOf(versions, u);
      blobs := Release(blobs, versions, live, now);
      versions := MarkDeleted(versions, live, now);
      versions := VersionsWithout(versions, u);
      heads := map s | s in heads && s.user != u :: heads[s];
      keys := map ik | ik in keys && ik.user != u :: keys[ik];
      sessions := SessionsWithout(sessions, u);
    }

    // The statements that erase one account; false when a foreign key stops them.
    method EraseInTx(job: JobId, now: Time) returns (ok: bool)
      requires job in jobs && jobs[job].user in users
      modifies this
      ensures ok <==> !EraseBlocked(old(Tables()), old(jobs[job].user))
      ensures ok ==> Tables() == Erase(old(Tables()), job, now)
    {
      var u := jobs[job].user;
      jobs := jobs[job := jobs[job].(status := Running, attempts := jobs[job].attempts + 1)];
      DeleteAccountRows(u, now);
      if DevicesHeld(devices, sessions, versions, u) {
        return false;
      }
      devices := map d | d in devices && devices[d].user != u :: devices[d];
      users := users[u := User(Tombstone(job), Deleted)];
      jobs := jobs[job := jobs[job].(status := Complete)];
      ok := true;
    }

    // SELECT ... WHERE status='pending' ORDER BY created_at LIMIT 1
    method ClaimJob() returns (job: Option<JobId>)
      ensures job.None? <==> PendingIds() == {}
      ensures job.Some? ==> OldestPending(Tables(), job.value)
    {
      var js := jobs;
      var pending: set<JobId> := set j | j in jobs && jobs[j].status == Pending;
      if pending == {} {
        return None;
      }
      var first := PickLeast<JobId>(pending, (j: JobId) => if j in js then js[j].createdAt else 0, 1);
      var id :| id in first;
      SingletonIs(first, id);
      forall j | j in jobs && jobs[j].status == Pending ensures jobs[id].createdAt <= jobs[j].createdAt {
        assert j in pending;
        assert j != id ==> j in pending - first;
      }
      job := Some(id);
    }

    method RecordJobFailure(job: JobId)
      requires job in jobs
      modifies this`jobs
      ensures Tables() == RecordFailure(old(Tables()), job)
    {
      if jobs[job].status != Complete {
        var attempts := jobs[job].attempts + 1;
        jobs := jobs[job := jobs[job].(attempts := attempts, status := if attempts >= 10 then Failed else Pending)];
      }
    }

    // One worker call: Ok(false) when no job is pending, Ok(true) when one was
    // completed, Err when the transaction failed.
    method ProcessOneDeletion(fault: Fault, now: Time) returns (r: Result<bool, StoreError>, ghost job: JobId)
      requires JobsBounded(Tables())
      modifies this
      ensures r == Ok(false) <==> old(PendingIds()) == {}
      ensures r == Ok(false) ==> Tables() == old(Tables())
      ensures r != Ok(false) ==> OldestPending(old(Tables()), job)
                                 && Tables() == ProcessTx(old(Tables()), job, fault, now)
                                 && (r.Ok? <==> fault == NoFault && !EraseBlocked(old(Tables()), old(jobs)[job].user))
                                 && job in old(PendingIds()) && job !in old(CompletedIds())
                                 && CompletedIds() == old(CompletedIds()) + (if r.Ok? then {job} else {})
      ensures r == Ok(true) ==> PendingIds() == old(PendingIds()) - {job}
      ensures JobsBounded(Tables())
    {
      hide OldestPending, EraseBlocked, JobsBounded, Erase, RecordFailure, PendingOf, CompletedOf;
      job := 0;
      var claimed := ClaimJob();
      if claimed.None? {
        return Ok(false), 0;
      }
      job := claimed.value;
      var before := Tables();
      JobsAfterProcess(before, job, fault, now);
      var done := false;
      if fault == NoFault {
        done := EraseInTx(claimed.value, now);
      }
      if !done {
        Rollback(before);
        if fault != Unrecorded {
          RecordJobFailure(claimed.value);
        }
      }
      ProcessKeepsJobs(before, claimed.value, fault, now);
      r := if done then Ok(true) else Err(Constraint);
    }

    // Runs worker calls until the limit, an idle queue or the first error.
    // Every call that counts as processed completed one pending job.
    method ProcessDeletionBatch(limit: int, faults: seq<Fault>, now: Time) returns (processed: nat, ok: bool)
      requires JobsBounded(Tables()) && |faults| >= limit
      modifies this
      ensures JobsBounded(Tables())
      ensures limit < 1 || limit > 100 ==> !ok && Tables() == old(Tables()) && processed == 0
      ensures ok ==> |PendingIds()| == |old(PendingIds())| - processed && (processed == limit || PendingIds() == {})
      ensures processed > 0 ==> |CompletedIds()| == |old(CompletedIds())| + processed
    {
      hide OldestPending, EraseBlocked, JobsBounded, ProcessTx, PendingOf, CompletedOf;
      processed := 0;
      if limit < 1 || limit > 100 {
        return 0, false;
      }
      while processed < limit
        invariant processed <= limit
        invariant JobsBounded(Tables())
        invariant |PendingIds()| == |old(PendingIds())| - processed
        invariant |CompletedIds()| == |old(CompletedIds())| + processed
      {
        ghost var completed := CompletedIds();
        var r, job := ProcessOneDeletion(faults[processed], now);
        if r.Err? {
          return processed, false;
        }
        if !r.value {
          break;
        }
        assert job !in completed;
        processed := processed + 1;
      }
      ok := true;
    }

    ghost function PendingIds(): set<JobId>
      reads this
    {
      PendingOf(jobs)
    }

    ghost function CompletedIds(): set<JobId>
      reads this
    {
      CompletedOf(jobs)
    }
  }

  // Inserting the head row first changes nothing about a commit that is no replay.
  lemma UpsertFirst(db: Db, max: int, i: CommitInput, id: HeadId, now: Time)
    requires i.slot !in db.heads && HeadUpsertable(db, i.slot, id)
    requires IdemId(i.slot.user, i.idem) in db.keys ==> db.keys[IdemId(i.slot.user, i.idem)].expiresAt <= now
    ensures var o, p := CommitTx(db, max, i, id, now), CommitTx(db.(heads := db.heads[i.slot := Head(id, 0, None, now)]), max, i, id, now);
      o.result == p.result && (o.result.Ok? ==> o.db == p.db)
  {
    hide UsedBytes;
    var h := Head(id, 0, None, now);
    assert db.heads[i.slot := h][i.slot := h] == db.heads[i.slot := h];
    var k := Head(id, 1, None, now);
    assert db.heads[i.slot := h][i.slot := k] == db.heads[i.slot := k];
  }

  lemma ErrorsChangeNothing(db: Db, max: int, i: CommitInput, id: HeadId, now: Time)
    ensures CommitTx(db, max, i, id, now).result.Err? ==> CommitTx(db, max, i, id, now).db == db
  {
    hide UsedBytes, RowChecks;
  }

  // The jobs after one worker call.
  lemma JobsAfterProcess(db: Db, job: JobId, fault: Fault, now: Time)
    requires JobsBounded(db) && OldestPending(db, job)
    ensures job in db.jobs && db.jobs[job].user in db.users && job in PendingOf(db.jobs) && job !in CompletedOf(db.jobs)
    ensures var done, after := fault == NoFault && !EraseBlocked(db, db.jobs[job].user), ProcessTx(db, job, fault, now);
      && CompletedOf(after.jobs) == CompletedOf(db.jobs) + (if done then {job} else {})
      && (done ==> PendingOf(after.jobs) == PendingOf(db.jobs) - {job})
  {
    hide EraseBlocked;
  }

  function CompletedOf(jobs: map<JobId, Job>): set<JobId> {
    set j | j in jobs && jobs[j].status == Complete
  }

  lemma SingletonIs<T>(s: set<T>, x: T)
    requires x in s && |s| <= 1
    ensures s == {x}
  {
    assert |s - {x}| == 0;
  }

  lemma SameSize<T>(a: set<T>, b: set<T>)
    requires a <= b && |a| == |b|
    ensures a == b
  {
    assert |b - a| == |b| - |a|;
  }
}
