/**
 What every step of the save store keeps. A run is a sequence of events: each
 committed transaction is one atomic event and the clock only moves forward.
 */
module StoreInvariants {
  import Sums
  import opened Wrappers
  import opened SaveKeys
  import opened SaveTables

  datatype World = World(db: Db, now: Time)

  datatype Event =
    | Tick(seconds: nat)
    | Login(subject: Subject, client: string, user: UserId, device: DeviceId, session: SessionId, expiresAt: Time)
    | TouchSession(session: SessionId, expiresAt: Time, revokedAt: Option<Time>)
    | DropSessions(sessions: set<SessionId>)
    | RequestDeletion(user: UserId, job: JobId)
    | Commit(input: CommitInput, head: HeadId)
    | DeleteSaves(target: Target)
    | Prune(limit: nat, chosen: set<VKey>)
    | Purge(limit: nat, slots: set<Slot>)
    | ProcessJob(job: JobId, fault: Fault)
    | ForgetBlob(digest: Digest)
    | DropKeys(keys: set<IdemId>)

  // What the code around the transaction guarantees about its arguments.
  // `Hex64(input.checksum)` is checked by the service before it reaches the store.
  ghost predicate Enabled(w: World, e: Event) {
    match e
    case Tick(_) => true
    case Login(subject, client, user, device, session, _) =>
      subject.Wechat? && LoginRows(w.db, subject, client, user, device, session)
    case TouchSession(s, _, _) => s in w.db.sessions
    case DropSessions(ss) => ss <= ExpiredSessions(w.db, w.now)
    case RequestDeletion(_, _) => true
    case Commit(i, _) => Hex64(i.checksum)
    case DeleteSaves(_) => true
    case Prune(limit, chosen) => OldestOf(w.db.versions, Candidates(w.db, w.now), limit, chosen)
    case Purge(limit, slots) => slots <= Purgeable(w.db, w.now) && |slots| <= limit
    case ProcessJob(job, _) => OldestPending(w.db, job) && w.db.jobs[job].user in w.db.users
    case ForgetBlob(_) => true
    case DropKeys(ks) => ks <= ExpiredKeys(w.db, w.now)
  }

  ghost function NextDb(w: World, max: int, e: Event): Db
    requires Enabled(w, e)
  {
    match e
    case Tick(_) => w.db
    case Login(subject, client, user, device, session, expiresAt) =>
      LoginTx(w.db, subject, client, user, device, session, expiresAt).db
    case TouchSession(s, expiresAt, revokedAt) =>
      w.db.(sessions := w.db.sessions[s := w.db.sessions[s].(expiresAt := expiresAt, revokedAt := revokedAt)])
    case DropSessions(ss) => w.db.(sessions := w.db.sessions - ss)
    case RequestDeletion(user, job) => RequestDeletionTx(w.db, user, job, w.now).db
    case Commit(i, head) => CommitTx(w.db, max, i, head, w.now).db
    case DeleteSaves(target) => DeleteTx(w.db, target, w.now).db
    case Prune(_, chosen) => PruneTx(w.db, chosen, w.now)
    case Purge(_, slots) => PurgeTx(w.db, slots, w.now)
    case ProcessJob(job, fault) => ProcessTx(w.db, job, fault, w.now)
    case ForgetBlob(d) => ForgetTx(w.db, d, w.now)
    case DropKeys(ks) => w.db.(keys := w.db.keys - ks)
  }

  ghost function Next(w: World, max: int, e: Event): World
    requires Enabled(w, e)
  {
    World(NextDb(w, max, e), if e.Tick? then w.now + e.seconds else w.now)
  }

  ghost predicate Legal(w: World, max: int, es: seq<Event>)
    decreases |es|
  {
    es == [] || (Enabled(w, es[0]) && Legal(Next(w, max, es[0]), max, es[1..]))
  }

  ghost function Run(w: World, max: int, es: seq<Event>): World
    requires Legal(w, max, es)
    decreases |es|
  {
    if es == [] then w else Run(Next(w, max, es[0]), max, es[1..])
  }

  // ---------- The invariant ----------

  ghost predicate VersionRows(heads: map<Slot, Head>, versions: map<VKey, Version>, blobs: map<Digest, Blob>,
                              devices: map<DeviceId, Device>)
  {
    forall k | k in versions ::
      && k.slot in heads
      && versions[k].size > 0
      && versions[k].blob in blobs && blobs[versions[k].blob].size == versions[k].size
      && (versions[k].device.Some? ==> versions[k].device.value in devices)
  }

  ghost predicate HeadRows(users: map<UserId, User>, heads: map<Slot, Head>) {
    && (forall s | s in heads :: s.user in users)
    && (forall a, b | a in heads && b in heads && a != b :: heads[a].id != heads[b].id)
  }

  ghost predicate KeyRows(users: map<UserId, User>, keys: map<IdemId, IdemRow>) {
    forall ik | ik in keys :: ik.user in users
  }

  ghost predicate SessionRows(users: map<UserId, User>, devices: map<DeviceId, Device>, sessions: map<SessionId, Session>) {
    && (forall d | d in devices :: devices[d].user in users)
    && (forall s | s in sessions :: sessions[s].device in devices && devices[sessions[s].device].user == sessions[s].user)
  }

  ghost predicate ForeignKeys(db: Db) {
    && VersionRows(db.heads, db.versions, db.blobs, db.devices)
    && HeadRows(db.users, db.heads)
    && KeyRows(db.users, db.keys)
    && SessionRows(db.users, db.devices, db.sessions)
  }

  // The version rows of a head are exactly revisions 1..current_revision.
  ghost predicate GaplessRows(heads: map<Slot, Head>, versions: map<VKey, Version>) {
    forall s | s in heads ::
      heads[s].current >= 0 && forall r :: VKey(s, r) in versions <==> 1 <= r <= heads[s].current
  }

  ghost predicate Gapless(db: Db) {
    GaplessRows(db.heads, db.versions)
  }

  // The version a head points at has not been soft-deleted.
  ghost predicate CurrentRowsLive(heads: map<Slot, Head>, versions: map<VKey, Version>) {
    forall s | s in heads && heads[s].current > 0 :: Live(versions, VKey(s, heads[s].current))
  }

  ghost predicate CurrentIsLive(db: Db) {
    CurrentRowsLive(db.heads, db.versions)
  }

  ghost predicate RefsOf(blobs: map<Digest, Blob>, vs: map<VKey, Version>) {
    forall d | d in blobs ::
      blobs[d].refs == |LiveRefs(vs, d)| && (blobs[d].deleteAfter.None? <==> blobs[d].refs > 0)
  }

  ghost predicate RefCounts(db: Db) {
    RefsOf(db.blobs, db.versions)
  }

  ghost predicate QuotaKept(db: Db, max: int) {
    forall u :: UsedBytes(db.versions, u) <= max
  }

  ghost predicate NothingLeft(db: Db, u: UserId) {
    && (forall s | s in db.heads :: s.user != u)
    && (forall k | k in db.versions :: k.slot.user != u)
    && (forall ik | ik in db.keys :: ik.user != u)
    && (forall d | d in db.devices :: db.devices[d].user != u)
    && (forall s | s in db.sessions :: db.sessions[s].user != u)
  }

  ghost predicate ErasedIsEmpty(db: Db) {
    forall u | u in db.users && db.users[u].status == Deleted :: NothingLeft(db, u)
  }

  ghost predicate JobRows(users: map<UserId, User>, jobs: map<JobId, Job>) {
    && (forall j | j in jobs ::
          && jobs[j].user in users
          && jobs[j].status != Running
          && 0 <= jobs[j].attempts <= 10
          && (jobs[j].status == Pending ==> jobs[j].attempts < 10)
          && (jobs[j].status == Complete <==> users[jobs[j].user].status == Deleted)
          && users[jobs[j].user].status != Active)
    && (forall j, k | j in jobs && k in jobs && j != k :: jobs[j].user != jobs[k].user)
  }

  ghost predicate JobsBounded(db: Db) {
    JobRows(db.users, db.jobs)
  }

  // The CHECK constraints of heads and versions.
  ghost predicate ChecksKept(db: Db) {
    && (forall s | s in db.heads :: Hex64(s.rom) && SlotName(s.name))
    && forall k | k in db.versions ::
         var v := db.versions[k];
         Hex64(v.checksum) && Hex64(v.blob) && 1 <= |v.core| <= 128 && 0 < k.revision <= MAX_INT64
  }

  // A person has one account at most, and an erased account is named after its own job.
  ghost predicate SubjectRows(users: map<UserId, User>, jobs: map<JobId, Job>) {
    && (forall u, v | u in users && v in users && u != v :: users[u].subject != users[v].subject)
    && forall u | u in users && users[u].subject.Tombstone? ::
         users[u].subject.job in jobs && jobs[users[u].subject.job].user == u
  }

  // The UNIQUE constraints of users and devices.
  ghost predicate RowsUnique(db: Db) {
    && SubjectRows(db.users, db.jobs)
    && forall d, e | d in db.devices && e in db.devices && d != e :: db.devices[d] != db.devices[e]
  }

  ghost predicate Inv(db: Db, max: int) {
    && ForeignKeys(db)
    && ChecksKept(db)
    && RowsUnique(db)
    && Gapless(db)
    && CurrentIsLive(db)
    && RefCounts(db)
    && QuotaKept(db, max)
    && ErasedIsEmpty(db)
    && JobsBounded(db)
  }

  const EMPTY: Db := Db(map[], map[], map[], map[], map[], map[], map[], map[])

  // ---------- Shape of a commit ----------

  // The guards under which a commit adds a version.
  ghost predicate Appends(db: Db, max: int, i: CommitInput, id: HeadId, now: Time) {
    var h := HeadRow(db, i.slot, id, now);
    && IdemId(i.slot.user, i.idem) !in db.keys
    && HeadUpsertable(db, i.slot, id)
    && (h.current > 0 && h.deletedAt.None? ==> VKey(i.slot, h.current) in db.versions)
    && i.base == (if h.deletedAt.Some? then 0 else h.current)
    && i.slot.user in db.users && db.users[i.slot.user].status == Active
    && UsedBytes(db.versions, i.slot.user) <= max - i.size
    && RowChecks(db, i, h)
  }

  lemma CommitCases(db: Db, max: int, i: CommitInput, id: HeadId, now: Time)
    requires i.checksum != ""
    ensures var o := CommitTx(db, max, i, id, now);
            var h := HeadRow(db, i.slot, id, now);
            && (o.result.Err? ==> o.db == db)
            && (Appends(db, max, i, id, now) ==>
                  o.result == Ok(CommitResult(SaveView(i.slot, h.id, h.current + 1, i.checksum, i.size, i.core), false))
                  && o.db == StoreKey(AppendVersion(db, i, h, now), i, o.result.value, now))
            && (!Appends(db, max, i, id, now) ==>
                  o.db == db
                  || (i.slot in db.heads && o.result.Ok? && IdemId(i.slot.user, i.idem) !in db.keys
                      && CurrentView(db, i.slot, h) == Some(o.result.value.save)
                      && o.db == StoreKey(db, i, o.result.value, now)))
  {
    var h := HeadRow(db, i.slot, id, now);
    if i.slot in db.heads {
      assert db.heads[i.slot := h] == db.heads;
    }
  }

  // ---------- Reference counts ----------

  lemma CountSplit(vs: map<VKey, Version>, vs': map<VKey, Version>, removed: set<VKey>, d: Digest)
    requires forall k | k in removed :: Live(vs, k)
    requires LiveRefs(vs', d) == LiveRefs(vs, d) - removed
    ensures |LiveRefs(vs', d)| == |LiveRefs(vs, d)| - CountOf(removed, vs, d)
  {
    var gone := set k | k in removed && k in vs && vs[k].blob == d;
    assert gone <= LiveRefs(vs, d);
    assert LiveRefs(vs', d) == LiveRefs(vs, d) - gone;
  }

  // Soft-deleting or dropping live rows and releasing their blobs keeps every
  // count exact, and the subtraction never goes below zero.
  lemma ReleaseKeepsCounts(blobs: map<Digest, Blob>, vs: map<VKey, Version>, vs': map<VKey, Version>,
                           removed: set<VKey>, now: Time)
    requires RefsOf(blobs, vs)
    requires forall k | k in removed :: Live(vs, k)
    requires forall d :: LiveRefs(vs', d) == LiveRefs(vs, d) - removed
    ensures RefsOf(Release(blobs, vs, removed, now), vs')
    ensures forall d | d in blobs :: CountOf(removed, vs, d) <= blobs[d].refs
  {
    forall d | d in blobs
      ensures CountOf(removed, vs, d) <= blobs[d].refs
      ensures |LiveRefs(vs', d)| == blobs[d].refs - CountOf(removed, vs, d)
    {
      CountSplit(vs, vs', removed, d);
    }
  }

  lemma AddReferenceKeepsCounts(blobs: map<Digest, Blob>, vs: map<VKey, Version>, k: VKey, v: Version)
    requires RefsOf(blobs, vs) && k !in vs && v.deletedAt.None?
    requires v.blob !in blobs ==> LiveRefs(vs, v.blob) == {}
    ensures RefsOf(AddReference(blobs, v.blob, v.size), vs[k := v])
  {
    hide LiveRefs;
    var vs', blobs' := vs[k := v], AddReference(blobs, v.blob, v.size);
    forall d | d in blobs'
      ensures blobs'[d].refs == |LiveRefs(vs', d)| && (blobs'[d].deleteAfter.None? <==> blobs'[d].refs > 0)
    {
      LiveRefsMore(vs, k, v, d);
    }
  }

  lemma LiveRefsMore(vs: map<VKey, Version>, k: VKey, v: Version, d: Digest)
    requires k !in vs && v.deletedAt.None?
    ensures k !in LiveRefs(vs, d) && LiveRefs(vs[k := v], d) == LiveRefs(vs, d) + (if d == v.blob then {k} else {})
  {
  }

  lemma CommitKeepsCounts(db: Db, max: int, i: CommitInput, id: HeadId, now: Time)
    requires ForeignKeys(db) && RefCounts(db) && i.checksum != ""
    ensures RefCounts(CommitTx(db, max, i, id, now).db)
  {
    hide CommitTx, RefsOf;
    CommitCases(db, max, i, id, now);
    if Appends(db, max, i, id, now) {
      AppendKeepsCounts(db, i, id, now);
    }
  }

  lemma AppendKeepsCounts(db: Db, i: CommitInput, id: HeadId, now: Time)
    requires ForeignKeys(db) && RefCounts(db) && RowChecks(db, i, HeadRow(db, i.slot, id, now))
    ensures RefCounts(AppendVersion(db, i, HeadRow(db, i.slot, id, now), now))
  {
    hide RefsOf;
    var k := VKey(i.slot, HeadRow(db, i.slot, id, now).current + 1);
    var v := Version(i.checksum, i.blob, i.size, i.core, i.device, now, None);
    assert v.blob !in db.blobs ==> LiveRefs(db.versions, v.blob) == {};
    AddReferenceKeepsCounts(db.blobs, db.versions, k, v);
  }

  lemma PruneKeepsCounts(db: Db, chosen: set<VKey>, now: Time)
    requires RefCounts(db) && forall k | k in chosen :: Live(db.versions, k)
    ensures RefCounts(PruneTx(db, chosen, now))
    ensures forall d | d in db.blobs :: CountOf(chosen, db.versions, d) <= db.blobs[d].refs
  {
    ReleaseKeepsCounts(db.blobs, db.versions, MarkDeleted(db.versions, chosen, now), chosen, now);
  }

  lemma PurgeKeepsCounts(db: Db, slots: set<Slot>, now: Time)
    requires RefCounts(db)
    ensures RefCounts(PurgeTx(db, slots, now))
    ensures forall d | d in db.blobs :: CountOf(LiveUnder(db.versions, slots), db.versions, d) <= db.blobs[d].refs
  {
    ReleaseKeepsCounts(db.blobs, db.versions, PurgeTx(db, slots, now).versions, LiveUnder(db.versions, slots), now);
  }

  lemma EraseKeepsCounts(db: Db, job: JobId, now: Time)
    requires RefCounts(db) && job in db.jobs && db.jobs[job].user in db.users
    ensures RefCounts(Erase(db, job, now))
    ensures forall d | d in db.blobs :: CountOf(LiveOf(db.versions, db.jobs[job].user), db.versions, d) <= db.blobs[d].refs
  {
    ReleaseKeepsCounts(db.blobs, db.versions, Erase(db, job, now).versions,
                       LiveOf(db.versions, db.jobs[job].user), now);
  }

  lemma ChosenArePrunable(db: Db, now: Time, limit: nat, chosen: set<VKey>)
    requires OldestOf(db.versions, Candidates(db, now), limit, chosen)
    ensures chosen <= Candidates(db, now) && forall k | k in chosen :: Live(db.versions, k)
  {
  }

  lemma BlobsArePresent(db: Db)
    requires ForeignKeys(db)
    ensures forall k | k in db.versions :: db.versions[k].blob in db.blobs
  {
  }

  lemma RefCountsStep(w: World, max: int, e: Event)
    requires ForeignKeys(w.db) && RefCounts(w.db) && Enabled(w, e)
    ensures RefCounts(NextDb(w, max, e))
  {
    hide CommitTx, Release, EraseBlocked, Candidates, Purgeable, ForeignKeys;
    assert forall k | k in w.db.versions :: w.db.versions[k].blob in w.db.blobs by {
      BlobsArePresent(w.db);
    }
    match e
    case Commit(i, id) => CommitKeepsCounts(w.db, max, i, id, w.now);
    case Prune(limit, chosen) =>
      ChosenArePrunable(w.db, w.now, limit, chosen);
      PruneKeepsCounts(w.db, chosen, w.now);
    case Purge(_, slots) => PurgeKeepsCounts(w.db, slots, w.now);
    case ProcessJob(job, _) => EraseKeepsCounts(w.db, job, w.now);
    case _ =>
  }

  // ---------- Quota ----------

  lemma QuotaShrinks(vs: map<VKey, Version>, ws: map<VKey, Version>, max: int)
    requires forall k | k in ws :: ws[k].size > 0
    requires forall k | Live(vs, k) :: Live(ws, k) && vs[k].size == ws[k].size
    requires forall u :: UsedBytes(ws, u) <= max
    ensures forall u :: UsedBytes(vs, u) <= max
  {
    forall u ensures UsedBytes(vs, u) <= max {
      assert UsedBytes(ws, u) <= max;
      assert forall k | k in LiveOf(vs, u) :: Live(vs, k);
      Sums.Same(LiveOf(vs, u), SizeIn(vs), SizeIn(ws));
      Sums.Monotone(LiveOf(vs, u), LiveOf(ws, u), SizeIn(ws));
    }
  }

  lemma UsedAfterAppend(vs: map<VKey, Version>, k: VKey, v: Version, u: UserId)
    requires k !in vs && v.deletedAt.None?
    ensures UsedBytes(vs[k := v], u) == UsedBytes(vs, u) + (if u == k.slot.user then v.size else 0)
  {
    var vs' := vs[k := v];
    Sums.Same(LiveOf(vs, u), SizeIn(vs'), SizeIn(vs));
    if u == k.slot.user {
      Sums.Extract(LiveOf(vs', u), SizeIn(vs'), k);
      assert LiveOf(vs', u) - {k} == LiveOf(vs, u);
    } else {
      assert LiveOf(vs', u) == LiveOf(vs, u);
    }
  }

  lemma CommitKeepsQuota(db: Db, max: int, i: CommitInput, id: HeadId, now: Time)
    requires ForeignKeys(db) && QuotaKept(db, max) && i.checksum != ""
    ensures QuotaKept(CommitTx(db, max, i, id, now).db, max)
  {
    hide CommitTx, UsedBytes;
    CommitCases(db, max, i, id, now);
    if Appends(db, max, i, id, now) {
      AppendKeepsQuota(db, max, i, id, now);
    }
  }

  // The quota check, for the one user whose bytes grow.
  lemma AppendKeepsQuota(db: Db, max: int, i: CommitInput, id: HeadId, now: Time)
    requires QuotaKept(db, max) && Appends(db, max, i, id, now)
    ensures QuotaKept(AppendVersion(db, i, HeadRow(db, i.slot, id, now), now), max)
  {
    hide UsedBytes;
    var k := VKey(i.slot, HeadRow(db, i.slot, id, now).current + 1);
    var v := Version(i.checksum, i.blob, i.size, i.core, i.device, now, None);
    var vs' := db.versions[k := v];
    forall u ensures UsedBytes(vs', u) <= max {
      assert UsedBytes(db.versions, u) <= max;
      UsedAfterAppend(db.versions, k, v, u);
    }
  }

  lemma QuotaStep(w: World, max: int, e: Event)
    requires ForeignKeys(w.db) && QuotaKept(w.db, max) && Enabled(w, e)
    ensures QuotaKept(NextDb(w, max, e), max)
  {
    hide CommitTx, Release, EraseBlocked, Candidates, Purgeable, UsedBytes, LiveOf;
    match e
    case Commit(i, id) => CommitKeepsQuota(w.db, max, i, id, w.now);
    case Prune(_, chosen) => QuotaShrinks(PruneTx(w.db, chosen, w.now).versions, w.db.versions, max);
    case Purge(_, slots) => QuotaShrinks(PurgeTx(w.db, slots, w.now).versions, w.db.versions, max);
    case ProcessJob(job, _) => QuotaShrinks(Erase(w.db, job, w.now).versions, w.db.versions, max);
    case _ =>
  }

  // ---------- Keys, history, erasure and jobs ----------

  lemma CommitKeepsChecks(db: Db, max: int, i: CommitInput, id: HeadId, now: Time)
    requires Gapless(db) && ChecksKept(db) && i.checksum != ""
    ensures ChecksKept(CommitTx(db, max, i, id, now).db)
  {
    hide CommitTx, Hex64, SlotName, UsedBytes;
    CommitCases(db, max, i, id, now);
  }

  lemma FewerKeepChecks(db: Db, after: Db)
    requires ChecksKept(db)
    requires forall s | s in after.heads :: s in db.heads
    requires forall k | k in after.versions :: k in db.versions && after.versions[k].(deletedAt := None) == db.versions[k].(deletedAt := None)
    ensures ChecksKept(after)
  {
    hide Hex64, SlotName;
    forall k | k in after.versions
      ensures after.versions[k].checksum == db.versions[k].checksum && after.versions[k].blob == db.versions[k].blob
      ensures after.versions[k].core == db.versions[k].core
    {
      assert after.versions[k].(deletedAt := None).checksum == db.versions[k].(deletedAt := None).checksum;
    }
  }

  lemma UniqueStep(w: World, max: int, e: Event)
    requires RowsUnique(w.db) && Enabled(w, e)
    ensures RowsUnique(NextDb(w, max, e))
  {
    hide CommitTx, Release, EraseBlocked, Candidates, Purgeable, RowsUnique, Doomed, LoginTx, RequestDeletionTx, ProcessTx;
    match e
    case Commit(i, id) => CommitKeepsAccounts(w.db, max, i, id, w.now); SameAccounts(w.db, NextDb(w, max, e));
    case Login(subject, client, user, device, session, expiresAt) =>
      LoginKeepsUnique(w.db, subject, client, user, device, session, expiresAt);
    case RequestDeletion(u, job) => RequestKeepsUnique(w.db, u, job, w.now);
    case ProcessJob(job, fault) => ProcessKeepsUnique(w.db, job, fault, w.now);
    case _ => SameAccounts(w.db, NextDb(w, max, e));
  }

  lemma SameAccounts(db: Db, after: Db)
    requires RowsUnique(db) && after.users == db.users && after.devices == db.devices && after.jobs == db.jobs
    ensures RowsUnique(after)
  {
  }

  lemma CommitKeepsAccounts(db: Db, max: int, i: CommitInput, id: HeadId, now: Time)
    requires i.checksum != ""
    ensures var after := CommitTx(db, max, i, id, now).db;
      after.users == db.users && after.devices == db.devices && after.jobs == db.jobs
  {
    hide CommitTx;
    CommitCases(db, max, i, id, now);
  }

  lemma LoginKeepsUnique(db: Db, subject: Subject, client: string, u: UserId, d: DeviceId, s: SessionId, t: Time)
    requires RowsUnique(db) && subject.Wechat? && LoginRows(db, subject, client, u, d, s)
    ensures RowsUnique(LoginTx(db, subject, client, u, d, s, t).db)
  {
    LoginKeepsSubjects(db, subject, client, u, d, s, t);
    hide SubjectRows, SubjectTaken;
  }

  lemma LoginKeepsSubjects(db: Db, subject: Subject, client: string, u: UserId, d: DeviceId, s: SessionId, t: Time)
    requires RowsUnique(db) && subject.Wechat? && LoginRows(db, subject, client, u, d, s)
    ensures SubjectRows(LoginTx(db, subject, client, u, d, s, t).db.users, db.jobs)
  {
  }

  lemma RequestKeepsUnique(db: Db, u: UserId, job: JobId, now: Time)
    requires RowsUnique(db)
    ensures RowsUnique(RequestDeletionTx(db, u, job, now).db)
  {
    hide RevokeAll;
  }

  lemma ProcessKeepsUnique(db: Db, job: JobId, fault: Fault, now: Time)
    requires RowsUnique(db) && OldestPending(db, job) && db.jobs[job].user in db.users
    ensures RowsUnique(ProcessTx(db, job, fault, now))
  {
    hide EraseBlocked, Release, VersionsWithout, SessionsWithout;
  }

  lemma ChecksStep(w: World, max: int, e: Event)
    requires Gapless(w.db) && ChecksKept(w.db) && Enabled(w, e)
    ensures ChecksKept(NextDb(w, max, e))
  {
    hide CommitTx, Release, EraseBlocked, Candidates, Purgeable, ChecksKept, Doomed, LoginTx, Gapless;
    match e
    case Commit(i, id) => CommitKeepsChecks(w.db, max, i, id, w.now);
    case Login(subject, client, user, device, session, expiresAt) => LoginKeepsChecks(w, max, e);
    case _ => FewerKeepChecks(w.db, NextDb(w, max, e));
  }

  lemma LoginKeepsChecks(w: World, max: int, e: Event)
    requires ChecksKept(w.db) && Enabled(w, e) && e.Login?
    ensures ChecksKept(NextDb(w, max, e))
  {
    hide Hex64, SlotName;
  }

  lemma AppendKeepsForeignKeys(db: Db, i: CommitInput, id: HeadId, now: Time)
    requires ForeignKeys(db) && HeadUpsertable(db, i.slot, id) && RowChecks(db, i, HeadRow(db, i.slot, id, now))
    ensures ForeignKeys(AppendVersion(db, i, HeadRow(db, i.slot, id, now), now))
  {
  }

  lemma CommitKeepsForeignKeys(db: Db, max: int, i: CommitInput, id: HeadId, now: Time)
    requires ForeignKeys(db) && i.checksum != ""
    ensures ForeignKeys(CommitTx(db, max, i, id, now).db)
  {
    hide CommitTx;
    CommitCases(db, max, i, id, now);
    if Appends(db, max, i, id, now) {
      AppendKeepsForeignKeys(db, i, id, now);
    }
  }

  lemma EraseKeepsForeignKeys(db: Db, job: JobId, now: Time)
    requires ForeignKeys(db) && job in db.jobs && db.jobs[job].user in db.users && !EraseBlocked(db, db.jobs[job].user)
    ensures ForeignKeys(Erase(db, job, now))
  {
    var db' := Erase(db, job, now);
    forall k | k in db'.versions && db'.versions[k].device.Some?
      ensures db'.versions[k].device.value in db'.devices
    {
      assert k in db.versions;
    }
  }

  lemma ProcessKeepsForeignKeys(db: Db, job: JobId, fault: Fault, now: Time)
    requires ForeignKeys(db) && job in db.jobs && db.jobs[job].user in db.users
    ensures ForeignKeys(ProcessTx(db, job, fault, now))
  {
    if fault == NoFault && !EraseBlocked(db, db.jobs[job].user) {
      EraseKeepsForeignKeys(db, job, now);
    }
  }

  lemma LoginKeepsForeignKeys(db: Db, subject: Subject, client: string, u: UserId, d: DeviceId, s: SessionId, t: Time)
    requires ForeignKeys(db) && LoginRows(db, subject, client, u, d, s)
    ensures ForeignKeys(LoginTx(db, subject, client, u, d, s, t).db)
  {
    hide VersionRows;
    var o := LoginTx(db, subject, client, u, d, s, t);
    assert VersionRows(o.db.heads, o.db.versions, o.db.blobs, o.db.devices) by {
      MoreDevices(db.heads, db.versions, db.blobs, db.devices, o.db.devices);
    }
  }

  lemma MoreDevices(heads: map<Slot, Head>, vs: map<VKey, Version>, blobs: map<Digest, Blob>,
                    devices: map<DeviceId, Device>, more: map<DeviceId, Device>)
    requires VersionRows(heads, vs, blobs, devices) && devices.Keys <= more.Keys
    ensures VersionRows(heads, vs, blobs, more)
  {
  }

  lemma PruneKeepsForeignKeys(db: Db, chosen: set<VKey>, now: Time)
    requires ForeignKeys(db)
    ensures ForeignKeys(PruneTx(db, chosen, now))
  {
  }

  lemma PurgeKeepsForeignKeys(db: Db, slots: set<Slot>, now: Time)
    requires ForeignKeys(db)
    ensures ForeignKeys(PurgeTx(db, slots, now))
  {
  }

  lemma ForgetKeepsForeignKeys(db: Db, d: Digest, now: Time)
    requires ForeignKeys(db)
    ensures ForeignKeys(ForgetTx(db, d, now))
  {
  }

  lemma ForeignKeysStep(w: World, max: int, e: Event)
    requires ForeignKeys(w.db) && Enabled(w, e)
    ensures ForeignKeys(NextDb(w, max, e))
  {
    hide ForeignKeys, CommitTx, LoginTx, PruneTx, PurgeTx, ForgetTx, ProcessTx, Candidates, Purgeable;
    match e
    case Login(subject, client, u, d, s, t) => LoginKeepsForeignKeys(w.db, subject, client, u, d, s, t);
    case Commit(i, id) => CommitKeepsForeignKeys(w.db, max, i, id, w.now);
    case Prune(_, chosen) => PruneKeepsForeignKeys(w.db, chosen, w.now);
    case Purge(_, slots) => PurgeKeepsForeignKeys(w.db, slots, w.now);
    case ForgetBlob(d) => ForgetKeepsForeignKeys(w.db, d, w.now);
    case ProcessJob(job, fault) => ProcessKeepsForeignKeys(w.db, job, fault, w.now);
    case _ => OtherKeepsForeignKeys(w, max, e);
  }

  // Sessions, soft deletes, deletion requests and expired keys.
  lemma OtherKeepsForeignKeys(w: World, max: int, e: Event)
    requires ForeignKeys(w.db) && Enabled(w, e)
    requires !(e.Login? || e.Commit? || e.Prune? || e.Purge? || e.ForgetBlob? || e.ProcessJob?)
    ensures ForeignKeys(NextDb(w, max, e))
  {
    hide CommitTx, LoginTx, PruneTx, PurgeTx, ForgetTx, ProcessTx, Candidates, OldestOf, Purgeable;
  }

  lemma AppendKeepsHistory(db: Db, i: CommitInput, id: HeadId, now: Time)
    requires VersionRows(db.heads, db.versions, db.blobs, db.devices) && Gapless(db) && CurrentIsLive(db)
    ensures Gapless(AppendVersion(db, i, HeadRow(db, i.slot, id, now), now))
    ensures CurrentIsLive(AppendVersion(db, i, HeadRow(db, i.slot, id, now), now))
  {
    var h := HeadRow(db, i.slot, id, now);
    var db' := AppendVersion(db, i, h, now);
    forall r ensures VKey(i.slot, r) in db'.versions <==> 1 <= r <= h.current + 1 {
      if i.slot !in db.heads {
        assert VKey(i.slot, r) !in db.versions;
      }
    }
  }

  lemma CommitKeepsHistory(db: Db, max: int, i: CommitInput, id: HeadId, now: Time)
    requires ForeignKeys(db) && Gapless(db) && CurrentIsLive(db) && i.checksum != ""
    ensures Gapless(CommitTx(db, max, i, id, now).db) && CurrentIsLive(CommitTx(db, max, i, id, now).db)
  {
    CommitCases(db, max, i, id, now);
    if Appends(db, max, i, id, now) {
      AppendKeepsHistory(db, i, id, now);
    }
  }

  lemma PruneKeepsHistory(db: Db, now: Time, chosen: set<VKey>)
    requires Gapless(db) && CurrentIsLive(db) && chosen <= Candidates(db, now)
    ensures Gapless(PruneTx(db, chosen, now)) && CurrentIsLive(PruneTx(db, chosen, now))
  {
    var db' := PruneTx(db, chosen, now);
    assert db'.versions.Keys == db.versions.Keys;
  }

  lemma PurgeKeepsHistory(db: Db, now: Time, slots: set<Slot>)
    requires Gapless(db) && CurrentIsLive(db)
    ensures Gapless(PurgeTx(db, slots, now)) && CurrentIsLive(PurgeTx(db, slots, now))
  {
  }

  lemma DeleteKeepsHistory(db: Db, now: Time, target: Target)
    requires Gapless(db) && CurrentIsLive(db)
    ensures Gapless(DeleteTx(db, target, now).db) && CurrentIsLive(DeleteTx(db, target, now).db)
  {
  }

  lemma EraseKeepsHistory(db: Db, now: Time, job: JobId)
    requires Gapless(db) && CurrentIsLive(db) && job in db.jobs && db.jobs[job].user in db.users
    ensures Gapless(Erase(db, job, now)) && CurrentIsLive(Erase(db, job, now))
  {
  }

  lemma ProcessKeepsHistory(db: Db, now: Time, job: JobId, fault: Fault)
    requires Gapless(db) && CurrentIsLive(db) && job in db.jobs && db.jobs[job].user in db.users
    ensures Gapless(ProcessTx(db, job, fault, now)) && CurrentIsLive(ProcessTx(db, job, fault, now))
  {
    hide Erase, GaplessRows, CurrentRowsLive, EraseBlocked;
    EraseKeepsHistory(db, now, job);
  }

  lemma HistoryStep(w: World, max: int, e: Event)
    requires ForeignKeys(w.db) && Gapless(w.db) && CurrentIsLive(w.db) && Enabled(w, e)
    ensures Gapless(NextDb(w, max, e)) && CurrentIsLive(NextDb(w, max, e))
  {
    hide CommitTx, Release, EraseBlocked, Candidates, OldestOf, Purgeable, LoginTx, DeleteTx, PurgeTx, Gapless, CurrentIsLive;
    match e
    case Commit(i, id) => CommitKeepsHistory(w.db, max, i, id, w.now);
    case Prune(limit, chosen) =>
      ChosenArePrunable(w.db, w.now, limit, chosen);
      PruneKeepsHistory(w.db, w.now, chosen);
    case Purge(_, slots) => PurgeKeepsHistory(w.db, w.now, slots);
    case DeleteSaves(target) => DeleteKeepsHistory(w.db, w.now, target);
    case ProcessJob(job, fault) => ProcessKeepsHistory(w.db, w.now, job, fault);
    case _ => HistoryFrame(w, max, e);
  }

  lemma HistoryFrame(w: World, max: int, e: Event)
    requires Gapless(w.db) && CurrentIsLive(w.db) && Enabled(w, e)
    requires !(e.Commit? || e.Prune? || e.Purge? || e.DeleteSaves? || e.ProcessJob?)
    ensures Gapless(NextDb(w, max, e)) && CurrentIsLive(NextDb(w, max, e))
  {
    hide GaplessRows, CurrentRowsLive;
  }

  lemma CommitKeepsErased(db: Db, max: int, i: CommitInput, id: HeadId, now: Time)
    requires VersionRows(db.heads, db.versions, db.blobs, db.devices) && ErasedIsEmpty(db) && i.checksum != ""
    ensures ErasedIsEmpty(CommitTx(db, max, i, id, now).db)
  {
    hide CommitTx, CurrentView, AppendVersion, StoreKey, NothingLeft, VersionRows;
    CommitCases(db, max, i, id, now);
    var o, h := CommitTx(db, max, i, id, now), HeadRow(db, i.slot, id, now);
    CommitKeepsJobs(db, max, i, id, now);
    if o.db != db {
      OwnerIsNotErased(db, max, i, id, now);
      forall u | u in db.users && db.users[u].status == Deleted
        ensures NothingLeft(o.db, u)
      {
        OthersStayEmpty(db, i, h, o.result.value, now, u);
      }
    }
  }

  // A commit that changes anything appends for an active user, or answers about a head row.
  lemma OwnerIsNotErased(db: Db, max: int, i: CommitInput, id: HeadId, now: Time)
    requires ErasedIsEmpty(db) && (Appends(db, max, i, id, now) || i.slot in db.heads)
    ensures i.slot.user in db.users ==> db.users[i.slot.user].status != Deleted
  {
  }

  lemma OthersStayEmpty(db: Db, i: CommitInput, h: Head, result: CommitResult, now: Time, u: UserId)
    requires NothingLeft(db, u) && u != i.slot.user
    ensures NothingLeft(StoreKey(db, i, result, now), u)
    ensures NothingLeft(StoreKey(AppendVersion(db, i, h, now), i, result, now), u)
  {
  }

  lemma EraseKeepsErased(db: Db, job: JobId, now: Time)
    requires ErasedIsEmpty(db) && job in db.jobs && db.jobs[job].user in db.users
    ensures ErasedIsEmpty(Erase(db, job, now))
  {
    var db' := Erase(db, job, now);
    forall u | u in db'.users && db'.users[u].status == Deleted ensures NothingLeft(db', u) {
      if u != db.jobs[job].user {
        assert NothingLeft(db, u);
      }
    }
  }

  lemma ProcessKeepsErased(db: Db, job: JobId, fault: Fault, now: Time)
    requires ErasedIsEmpty(db) && job in db.jobs && db.jobs[job].user in db.users
    ensures ErasedIsEmpty(ProcessTx(db, job, fault, now))
  {
    hide Erase, EraseBlocked;
    EraseKeepsErased(db, job, now);
  }

  lemma LoginKeepsErased(db: Db, subject: Subject, client: string, u: UserId, d: DeviceId, s: SessionId, t: Time)
    requires ErasedIsEmpty(db) && LoginRows(db, subject, client, u, d, s)
    ensures ErasedIsEmpty(LoginTx(db, subject, client, u, d, s, t).db)
  {
    var o := LoginTx(db, subject, client, u, d, s, t);
    if o.result.Ok? {
      forall x | x in o.db.users && o.db.users[x].status == Deleted ensures NothingLeft(o.db, x) {
        assert x != u && NothingLeft(db, x);
      }
    }
  }

  lemma ErasedStep(w: World, max: int, e: Event)
    requires ForeignKeys(w.db) && ErasedIsEmpty(w.db) && Enabled(w, e)
    ensures ErasedIsEmpty(NextDb(w, max, e))
  {
    hide CommitTx, LoginTx, Release, EraseBlocked, Candidates, OldestOf, Purgeable, ErasedIsEmpty, ForeignKeys, NothingLeft;
    assert VersionRows(w.db.heads, w.db.versions, w.db.blobs, w.db.devices) by {
      RowsAreValid(w.db);
    }
    match e
    case Login(subject, client, u, d, s, t) => LoginKeepsErased(w.db, subject, client, u, d, s, t);
    case Commit(i, id) => CommitKeepsErased(w.db, max, i, id, w.now);
    case ProcessJob(job, fault) => ProcessKeepsErased(w.db, job, fault, w.now);
    case _ => ErasedFrame(w, max, e);
  }

  lemma RowsAreValid(db: Db)
    requires ForeignKeys(db)
    ensures VersionRows(db.heads, db.versions, db.blobs, db.devices)
  {
  }

  lemma ErasedFrame(w: World, max: int, e: Event)
    requires ErasedIsEmpty(w.db) && Enabled(w, e) && !(e.Login? || e.Commit? || e.ProcessJob?)
    ensures ErasedIsEmpty(NextDb(w, max, e))
  {
    hide Release, Candidates, OldestOf, Purgeable, NothingLeft;
    var after := NextDb(w, max, e);
    forall u | u in after.users && after.users[u].status == Deleted
      ensures NothingLeft(after, u)
    {
      FewerRows(w, max, e, u);
    }
  }

  lemma FewerRows(w: World, max: int, e: Event, u: UserId)
    requires Enabled(w, e) && !(e.Login? || e.Commit? || e.ProcessJob?) && NothingLeft(w.db, u)
    ensures NothingLeft(NextDb(w, max, e), u)
  {
    hide Release, Candidates, OldestOf, Purgeable;
  }

  lemma ProcessKeepsJobs(db: Db, job: JobId, fault: Fault, now: Time)
    requires JobsBounded(db) && OldestPending(db, job)
    ensures JobsBounded(ProcessTx(db, job, fault, now))
  {
    hide Erase, RecordFailure, EraseBlocked;
    ErasureKeepsJobs(db, job, now);
    FailureKeepsJobs(db, job);
  }

  lemma ErasureKeepsJobs(db: Db, job: JobId, now: Time)
    requires JobsBounded(db) && OldestPending(db, job) && db.jobs[job].user in db.users
    ensures JobsBounded(Erase(db, job, now))
  {
    hide Release, VersionsWithout, SessionsWithout, LiveOf;
  }

  lemma FailureKeepsJobs(db: Db, job: JobId)
    requires JobsBounded(db) && OldestPending(db, job)
    ensures JobsBounded(RecordFailure(db, job))
  {
  }

  lemma CommitKeepsJobs(db: Db, max: int, i: CommitInput, id: HeadId, now: Time)
    requires i.checksum != ""
    ensures CommitTx(db, max, i, id, now).db.jobs == db.jobs && CommitTx(db, max, i, id, now).db.users == db.users
  {
    CommitCases(db, max, i, id, now);
  }

  lemma JobsStep(w: World, max: int, e: Event)
    requires JobsBounded(w.db) && Enabled(w, e)
    ensures JobsBounded(NextDb(w, max, e))
  {
    hide CommitTx, ProcessTx, Candidates, Purgeable, Release, JobsBounded, JobRows, RequestDeletionTx, LoginTx;
    match e
    case Commit(i, id) => CommitKeepsJobs(w.db, max, i, id, w.now); SameJobs(w.db, NextDb(w, max, e));
    case ProcessJob(job, fault) => ProcessKeepsJobs(w.db, job, fault, w.now);
    case RequestDeletion(u, job) => RequestKeepsJobs(w.db, u, job, w.now);
    case Login(subject, client, u, d, s, t) => LoginKeepsJobs(w.db, subject, client, u, d, s, t);
    case _ => SameJobs(w.db, NextDb(w, max, e));
  }

  lemma SameJobs(db: Db, after: Db)
    requires JobsBounded(db) && after.jobs == db.jobs && after.users == db.users
    ensures JobsBounded(after)
  {
  }

  lemma RequestKeepsJobs(db: Db, u: UserId, job: JobId, now: Time)
    requires JobsBounded(db)
    ensures JobsBounded(RequestDeletionTx(db, u, job, now).db)
  {
    hide RevokeAll;
  }

  lemma LoginKeepsJobs(db: Db, subject: Subject, client: string, u: UserId, d: DeviceId, s: SessionId, t: Time)
    requires JobsBounded(db)
    ensures JobsBounded(LoginTx(db, subject, client, u, d, s, t).db)
  {
  }

  lemma InvStep(w: World, max: int, e: Event)
    requires Inv(w.db, max) && Enabled(w, e)
    ensures Inv(NextDb(w, max, e), max)
  {
    hide ForeignKeys, ChecksKept, RowsUnique, Gapless, CurrentIsLive, RefCounts, QuotaKept, ErasedIsEmpty, JobsBounded, Enabled;
    RefCountsStep(w, max, e);
    QuotaStep(w, max, e);
    ForeignKeysStep(w, max, e);
    ChecksStep(w, max, e);
    UniqueStep(w, max, e);
    HistoryStep(w, max, e);
    ErasedStep(w, max, e);
    JobsStep(w, max, e);
  }

  // The invariant holds in every state of every run that starts from empty tables.
  lemma {:induction false} InvRun(w: World, max: int, es: seq<Event>)
    requires Inv(w.db, max) && Legal(w, max, es)
    ensures Inv(Run(w, max, es).db, max)
    decreases |es|
  {
    if es != [] {
      InvStep(w, max, es[0]);
      InvRun(Next(w, max, es[0]), max, es[1..]);
    }
  }

  lemma InitialInv(max: int)
    requires max > 0
    ensures Inv(EMPTY, max)
  {
    forall u ensures UsedBytes(EMPTY.versions, u) <= max {
      assert LiveOf(EMPTY.versions, u) == {};
    }
  }
}
