/**
 The PostgreSQL tables of the save service as one value, and every committed
 transaction as a function from tables to tables. A transaction that fails
 returns the tables it was given.

 `save_heads` rows are addressed by their unique key (user, ROM, kind, slot)
 and `save_versions` rows by (head, revision). A head row cannot disappear
 while version rows reference it, so a version's slot names the same head row
 as its `save_head_id`. The row identifier is kept as `Head.id`: it tells two
 incarnations of one slot apart.
 */
module SaveTables {
  import opened Sums
  import opened Wrappers
  import opened SaveKeys

  type Time = int
  type Digest = string
  type UserId = nat
  type DeviceId = nat
  type SessionId = nat
  type HeadId = nat
  type JobId = nat
  type IdemKey = nat

  const DAY: Time := 86400

  datatype Kind = Battery | State | AutoState

  datatype UserStatus = Active | Deleting | Deleted

  datatype Subject = Wechat(hash: string) | Tombstone(job: JobId)

  datatype User = User(subject: Subject, status: UserStatus)

  datatype Device = Device(user: UserId, client: string)

  datatype Session = Session(user: UserId, device: DeviceId, expiresAt: Time, revokedAt: Option<Time>)

  datatype Slot = Slot(user: UserId, rom: string, kind: Kind, name: string)

  datatype Head = Head(id: HeadId, current: int, deletedAt: Option<Time>, updatedAt: Time)

  datatype VKey = VKey(slot: Slot, revision: int)

  datatype Version = Version(checksum: Digest, blob: Digest, size: int, core: string,
                             device: Option<DeviceId>, createdAt: Time, deletedAt: Option<Time>)

  datatype Blob = Blob(size: int, refs: int, deleteAfter: Option<Time>)

  // What `requestDigest` hashes. Two digests are equal exactly when the
  // requests are, up to SHA-256 collisions (see RequestEncoding).
  datatype Fingerprint =
    | UploadPrint(slot: Slot, base: int, digest: Digest, core: string, device: Option<DeviceId>)
    | RestorePrint(slot: Slot, base: int, source: int, device: Option<DeviceId>)

  // A version as clients see it; `head` is the row identifier, which the API does not expose.
  datatype SaveView = SaveView(slot: Slot, head: HeadId, revision: int, checksum: Digest, size: int, core: string)

  datatype CommitResult = CommitResult(save: SaveView, replay: bool)

  datatype IdemId = IdemId(user: UserId, key: IdemKey)

  datatype IdemRow = IdemRow(request: Fingerprint, result: CommitResult, expiresAt: Time)

  datatype JobStatus = Pending | Running | Complete | Failed

  datatype Job = Job(user: UserId, status: JobStatus, attempts: int, createdAt: Time)

  datatype Db = Db(
    users: map<UserId, User>,
    devices: map<DeviceId, Device>,
    sessions: map<SessionId, Session>,
    heads: map<Slot, Head>,
    versions: map<VKey, Version>,
    blobs: map<Digest, Blob>,
    keys: map<IdemId, IdemRow>,
    jobs: map<JobId, Job>)

  datatype CommitInput = CommitInput(
    slot: Slot, base: int, checksum: Digest, blob: Digest, size: int, core: string,
    device: Option<DeviceId>, idem: IdemKey, request: Fingerprint)

  datatype StoreError =
    | KeyReused
    | Conflict(current: Option<SaveView>)
    | Unavailable
    | QuotaExceeded
    | NotFound
    | Constraint // any database error: a violated key, foreign key or CHECK

  datatype Outcome<+T> = Outcome(db: Db, result: Result<T, StoreError>)

  // ---------- Reading ----------

  predicate Live(vs: map<VKey, Version>, k: VKey) {
    k in vs && vs[k].deletedAt.None?
  }

  // The live version rows naming blob d.
  function LiveRefs(vs: map<VKey, Version>, d: Digest): set<VKey> {
    set k | k in vs && vs[k].deletedAt.None? && vs[k].blob == d
  }

  // The rows the quota query sums: live versions of the user's heads, deleted heads included.
  function LiveOf(vs: map<VKey, Version>, u: UserId): set<VKey> {
    set k | k in vs && vs[k].deletedAt.None? && k.slot.user == u
  }

  function SizeIn(vs: map<VKey, Version>): VKey -> int {
    k => if k in vs then vs[k].size else 0
  }

  ghost function UsedBytes(vs: map<VKey, Version>, u: UserId): int {
    Sum(LiveOf(vs, u), SizeIn(vs))
  }

  function View(db: Db, slot: Slot, revision: int): SaveView
    requires slot in db.heads && VKey(slot, revision) in db.versions
  {
    var v := db.versions[VKey(slot, revision)];
    SaveView(slot, db.heads[slot].id, revision, v.checksum, v.size, v.core)
  }

  function GetContent(db: Db, slot: Slot, revision: int): Option<(SaveView, Digest)> {
    if slot !in db.heads || db.heads[slot].deletedAt.Some? then None else
      var r := if revision == 0 then db.heads[slot].current else revision;
      if Live(db.versions, VKey(slot, r))
      then Some((View(db, slot, r), db.versions[VKey(slot, r)].blob))
      else None
  }

  predicate Listed(db: Db, slot: Slot) {
    slot in db.heads && db.heads[slot].deletedAt.None? && VKey(slot, db.heads[slot].current) in db.versions
  }

  function ListHeads(db: Db, u: UserId): set<SaveView> {
    set slot | slot in db.heads && slot.user == u && Listed(db, slot) :: View(db, slot, db.heads[slot].current)
  }

  function ZeroView(slot: Slot): SaveView {
    SaveView(slot, 0, 0, "", 0, "")
  }

  // ---------- Commit ----------

  // INSERT INTO save_heads ... ON CONFLICT DO UPDATE ... RETURNING
  predicate HeadUpsertable(db: Db, slot: Slot, id: HeadId) {
    slot in db.heads || (
      && slot.user in db.users
      && Hex64(slot.rom) && SlotName(slot.name)
      && forall s | s in db.heads :: db.heads[s].id != id)
  }

  function HeadRow(db: Db, slot: Slot, id: HeadId, now: Time): Head {
    if slot in db.heads then db.heads[slot] else Head(id, 0, None, now)
  }

  // The current save of a live head; a head without versions reads as the zero value.
  function CurrentView(db: Db, slot: Slot, h: Head): Option<SaveView> {
    if h.current > 0 && h.deletedAt.None? && VKey(slot, h.current) in db.versions
    then var v := db.versions[VKey(slot, h.current)];
         Some(SaveView(slot, h.id, h.current, v.checksum, v.size, v.core))
    else None
  }

  function ChecksumOf(view: Option<SaveView>): Digest {
    if view.Some? then view.value.checksum else ""
  }

  predicate RowChecks(db: Db, i: CommitInput, h: Head) {
    && Hex64(i.checksum) && Hex64(i.blob)
    && i.size > 0
    && 1 <= |i.core| <= 128
    && 0 < h.current + 1 <= MAX_INT64
    && (i.device.Some? ==> i.device.value in db.devices)
    && (i.blob in db.blobs ==> db.blobs[i.blob].size == i.size)
    && VKey(i.slot, h.current + 1) !in db.versions
  }

  function AddReference(blobs: map<Digest, Blob>, d: Digest, size: int): map<Digest, Blob> {
    blobs[d := Blob(size, (if d in blobs then blobs[d].refs else 0) + 1, None)]
  }

  function AppendVersion(db: Db, i: CommitInput, h: Head, now: Time): Db {
    var r := h.current + 1;
    db.(blobs := AddReference(db.blobs, i.blob, i.size),
        versions := db.versions[VKey(i.slot, r) := Version(i.checksum, i.blob, i.size, i.core, i.device, now, None)],
        heads := db.heads[i.slot := h.(current := r, deletedAt := None, updatedAt := now)])
  }

  function StoreKey(db: Db, i: CommitInput, result: CommitResult, now: Time): Db {
    db.(keys := db.keys[IdemId(i.slot.user, i.idem) := IdemRow(i.request, result, now + DAY)])
  }

  ghost function CommitTx(db: Db, max: int, i: CommitInput, id: HeadId, now: Time): Outcome<CommitResult> {
    var ik := IdemId(i.slot.user, i.idem);
    var h := HeadRow(db, i.slot, id, now);
    var current := CurrentView(db, i.slot, h);
    if ik in db.keys && db.keys[ik].expiresAt > now then
      Outcome(db, if db.keys[ik].request == i.request then Ok(db.keys[ik].result.(replay := true)) else Err(KeyReused))
    else if !HeadUpsertable(db, i.slot, id) then Outcome(db, Err(Constraint))
    else if h.current > 0 && h.deletedAt.None? && current.None? then Outcome(db, Err(Constraint))
    else if h.deletedAt.None? && h.current != i.base then
      if ChecksumOf(current) != i.checksum then Outcome(db, Err(Conflict(current)))
      else if ik in db.keys then Outcome(db, Err(Constraint))
      else
        var result := CommitResult((if current.Some? then current.value else ZeroView(i.slot)), false);
        Outcome(StoreKey(db.(heads := db.heads[i.slot := h]), i, result, now), Ok(result))
    else if h.deletedAt.Some? && i.base != 0 then Outcome(db, Err(Conflict(None)))
    else if i.slot.user !in db.users || db.users[i.slot.user].status != Active then Outcome(db, Err(Unavailable))
    else if UsedBytes(db.versions, i.slot.user) > max - i.size then Outcome(db, Err(QuotaExceeded))
    else if !RowChecks(db, i, h) || ik in db.keys then Outcome(db, Err(Constraint))
    else
      var result := CommitResult(SaveView(i.slot, h.id, h.current + 1, i.checksum, i.size, i.core), false);
      Outcome(StoreKey(AppendVersion(db, i, h, now), i, result, now), Ok(result))
  }

  // ---------- Sessions, account deletion request, save deletion ----------

  predicate SubjectTaken(db: Db, subject: Subject) {
    exists u :: u in db.users && db.users[u].subject == subject
  }

  // `user` is the row with this subject if there is one, otherwise a new row; likewise `device`.
  predicate LoginRows(db: Db, subject: Subject, client: string, user: UserId, device: DeviceId, session: SessionId) {
    && (if SubjectTaken(db, subject) then user in db.users && db.users[user].subject == subject else user !in db.users)
    && (if exists d :: d in db.devices && db.devices[d] == Device(user, client)
        then device in db.devices && db.devices[device] == Device(user, client)
        else device !in db.devices)
    && session !in db.sessions
  }

  function LoginTx(db: Db, subject: Subject, client: string, user: UserId, device: DeviceId, session: SessionId,
                   expiresAt: Time): Outcome<SessionId>
  {
    if user in db.users && db.users[user].status != Active then Outcome(db, Err(Unavailable))
    else
      Outcome(db.(users := if user in db.users then db.users else db.users[user := User(subject, Active)],
                  devices := db.devices[device := Device(user, client)],
                  sessions := db.sessions[session := Session(user, device, expiresAt, None)]), Ok(session))
  }

  function RevokeAll(sessions: map<SessionId, Session>, u: UserId, now: Time): map<SessionId, Session> {
    map s | s in sessions ::
      if sessions[s].user == u && sessions[s].revokedAt.None? then sessions[s].(revokedAt := Some(now)) else sessions[s]
  }

  function RequestDeletionTx(db: Db, u: UserId, job: JobId, now: Time): Outcome<JobId> {
    if u !in db.users || db.users[u].status != Active then Outcome(db, Err(Unavailable))
    else if job in db.jobs then Outcome(db, Err(Constraint))
    else
      Outcome(db.(users := db.users[u := db.users[u].(status := Deleting)],
                  sessions := RevokeAll(db.sessions, u, now),
                  jobs := db.jobs[job := Job(u, Pending, 0, now)]), Ok(job))
  }

  // DeleteHead names one slot, DeleteROM every slot of a ROM.
  datatype Target = OneSlot(slot: Slot) | WholeRom(user: UserId, rom: string)

  predicate Hits(t: Target, slot: Slot) {
    match t
    case OneSlot(s) => slot == s
    case WholeRom(u, rom) => slot.user == u && slot.rom == rom
  }

  function Doomed(db: Db, t: Target): set<Slot> {
    set s | s in db.heads && db.heads[s].deletedAt.None? && Hits(t, s)
  }

  function DeleteTx(db: Db, t: Target, now: Time): Outcome<nat> {
    var hit := Doomed(db, t);
    if hit == {} then Outcome(db, Err(NotFound))
    else Outcome(db.(heads := map s | s in db.heads ::
                                if s in hit then db.heads[s].(deletedAt := Some(now), updatedAt := now) else db.heads[s]),
                 Ok(|hit|))
  }

  // ---------- Releasing blob references ----------

  function Max0(x: int): int {
    if x < 0 then 0 else x
  }

  function CountOf(removed: set<VKey>, vs: map<VKey, Version>, d: Digest): nat {
    |set k | k in removed && k in vs && vs[k].blob == d|
  }

  function ReleaseOne(b: Blob, n: nat, now: Time): Blob {
    if n == 0 then b
    else Blob(b.size, Max0(b.refs - n), if b.refs - n <= 0 then Some(now + 7 * DAY) else b.deleteAfter)
  }

  // UPDATE blobs ... FROM counts, where counts groups the removed rows by digest.
  function Release(blobs: map<Digest, Blob>, vs: map<VKey, Version>, removed: set<VKey>, now: Time): map<Digest, Blob> {
    map d | d in blobs :: ReleaseOne(blobs[d], CountOf(removed, vs, d), now)
  }

  function MarkDeleted(vs: map<VKey, Version>, removed: set<VKey>, now: Time): map<VKey, Version> {
    map k | k in vs :: if k in removed then vs[k].(deletedAt := Some(now)) else vs[k]
  }

  // ---------- Retention ----------

  function KeepCount(kind: Kind): nat {
    if kind == Battery then 10 else 3
  }

  function KeepAge(kind: Kind): Time {
    if kind == Battery then 30 * DAY else 14 * DAY
  }

  function NewerLive(vs: map<VKey, Version>, k: VKey): set<VKey> {
    set j | j in vs && vs[j].deletedAt.None? && j.slot == k.slot && j.revision > k.revision
  }

  // row_number() OVER (PARTITION BY save_head_id ORDER BY revision DESC)
  function Position(vs: map<VKey, Version>, k: VKey): nat {
    1 + |NewerLive(vs, k)|
  }

  predicate Prunable(db: Db, now: Time, k: VKey) {
    && Live(db.versions, k)
    && k.slot in db.heads && db.heads[k.slot].deletedAt.None?
    && k.revision != db.heads[k.slot].current
    && Position(db.versions, k) > KeepCount(k.slot.kind)
    && db.versions[k].createdAt < now - KeepAge(k.slot.kind)
  }

  function Candidates(db: Db, now: Time): set<VKey> {
    set k | k in db.versions && Prunable(db, now, k)
  }

  // ORDER BY created_at LIMIT n: any n oldest candidates, ties broken either way.
  predicate OldestOf(vs: map<VKey, Version>, all: set<VKey>, limit: nat, chosen: set<VKey>) {
    && chosen <= all && all <= vs.Keys
    && |chosen| == (if |all| < limit then |all| else limit)
    && forall a, b | a in chosen && b in all - chosen :: vs[a].createdAt <= vs[b].createdAt
  }

  function PruneTx(db: Db, chosen: set<VKey>, now: Time): Db {
    db.(versions := MarkDeleted(db.versions, chosen, now),
        blobs := Release(db.blobs, db.versions, chosen, now))
  }

  function Purgeable(db: Db, now: Time): set<Slot> {
    set s | s in db.heads && db.heads[s].deletedAt.Some? && db.heads[s].deletedAt.value < now - 7 * DAY
  }

  function LiveUnder(vs: map<VKey, Version>, slots: set<Slot>): set<VKey> {
    set k | k in vs && vs[k].deletedAt.None? && k.slot in slots
  }

  function PurgeTx(db: Db, chosen: set<Slot>, now: Time): Db {
    db.(versions := map k | k in db.versions && k.slot !in chosen :: db.versions[k],
        heads := db.heads - chosen,
        blobs := Release(db.blobs, db.versions, LiveUnder(db.versions, chosen), now))
  }

  // ---------- Account erasure ----------

  function VersionsWithout(vs: map<VKey, Version>, u: UserId): map<VKey, Version> {
    map k | k in vs && k.slot.user != u :: vs[k]
  }

  function SessionsWithout(sessions: map<SessionId, Session>, u: UserId): map<SessionId, Session> {
    map s | s in sessions && sessions[s].user != u :: sessions[s]
  }

  // Whether rows name one of the user's devices, so that a foreign key blocks `DELETE FROM devices`.
  predicate DevicesHeld(devices: map<DeviceId, Device>, sessions: map<SessionId, Session>, vs: map<VKey, Version>, u: UserId) {
    || (exists k :: k in vs && vs[k].device.Some? && vs[k].device.value in devices && devices[vs[k].device.value].user == u)
    || (exists s :: s in sessions && sessions[s].device in devices && devices[sessions[s].device].user == u)
  }

  // The user's own versions and sessions are gone by then; rows of other users can still be in the way.
  predicate EraseBlocked(db: Db, u: UserId) {
    DevicesHeld(db.devices, SessionsWithout(db.sessions, u), VersionsWithout(db.versions, u), u)
  }

  function Erase(db: Db, job: JobId, now: Time): Db
    requires job in db.jobs && db.jobs[job].user in db.users
  {
    var u := db.jobs[job].user;
    Db(users := db.users[u := User(Tombstone(job), Deleted)],
       devices := map d | d in db.devices && db.devices[d].user != u :: db.devices[d],
       sessions := SessionsWithout(db.sessions, u),
       heads := map s | s in db.heads && s.user != u :: db.heads[s],
       versions := VersionsWithout(db.versions, u),
       blobs := Release(db.blobs, db.versions, LiveOf(db.versions, u), now),
       keys := map ik | ik in db.keys && ik.user != u :: db.keys[ik],
       jobs := db.jobs[job := db.jobs[job].(status := Complete, attempts := db.jobs[job].attempts + 1)])
  }

  function RecordFailure(db: Db, job: JobId): Db
    requires job in db.jobs
  {
    var j := db.jobs[job];
    if j.status == Complete then db
    else db.(jobs := db.jobs[job := j.(attempts := j.attempts + 1, status := if j.attempts + 1 >= 10 then Failed else Pending)])
  }

  function PendingOf(jobs: map<JobId, Job>): set<JobId> {
    set j | j in jobs && jobs[j].status == Pending
  }

  predicate OldestPending(db: Db, job: JobId) {
    && job in db.jobs && db.jobs[job].status == Pending
    && forall j | j in db.jobs && db.jobs[j].status == Pending :: db.jobs[job].createdAt <= db.jobs[j].createdAt
  }

  // How the environment treats one worker call: the transaction runs, or it
  // fails and the failure is recorded, or (cancellation, lost connection) it is not.
  datatype Fault = NoFault | Recorded | Unrecorded

  function ProcessTx(db: Db, job: JobId, fault: Fault, now: Time): Db
    requires job in db.jobs && db.jobs[job].user in db.users
  {
    if fault == Unrecorded then db
    else if fault == Recorded || EraseBlocked(db, db.jobs[job].user) then RecordFailure(db, job)
    else Erase(db, job, now)
  }

  // ---------- Cleanup ----------

  predicate BlobDue(db: Db, d: Digest, now: Time) {
    && d in db.blobs && db.blobs[d].refs == 0
    && db.blobs[d].deleteAfter.Some? && db.blobs[d].deleteAfter.value <= now
  }

  // Soft-deleted version rows still reference the blob, so the DELETE can fail.
  predicate BlobReferenced(db: Db, d: Digest) {
    exists k :: k in db.versions && db.versions[k].blob == d
  }

  function ForgetTx(db: Db, d: Digest, now: Time): Db {
    if BlobDue(db, d, now) && !BlobReferenced(db, d) then db.(blobs := db.blobs - {d}) else db
  }

  function ExpiredKeys(db: Db, now: Time): set<IdemId> {
    set ik | ik in db.keys && db.keys[ik].expiresAt < now
  }

  function ExpiredSessions(db: Db, now: Time): set<SessionId> {
    set s | s in db.sessions && (
      || db.sessions[s].expiresAt < now - 7 * DAY
      || (db.sessions[s].revokedAt.Some? && db.sessions[s].revokedAt.value < now - 7 * DAY))
  }
}
