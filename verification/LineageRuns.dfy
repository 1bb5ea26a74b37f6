/**
 Two runs of the whole system in which a device supersedes content it never had: once because
 the head row it knew was purged, once because it read its revision in another account.
 */
module LineageRuns {
  import opened Wrappers
  import opened SaveKeys
  import opened SaveTables
  import opened StoreInvariants
  import opened Scenarios
  import opened SyncProtocol
  import Runs

  // A device saves, then sends what it saved to the account it is signed in to.
  lemma SaveAndSend(n: Net, dev: DevId, slot: Slot, checksum: Digest, idem: IdemKey) returns (m: Net, req: Request)
    requires ReachableNet(n, 10) && Hex64(checksum)
    requires dev in n.clients && n.clients[dev].account == Some(slot.user)
    ensures ReachableNet(m, 10) && m.w == n.w && m.book == n.book && m.replies == n.replies
    ensures m.clients == n.clients[dev := SaveLocally(n.clients[dev], PlaceOf(slot), false, checksum)]
    ensures var saved := SaveLocally(n.clients[dev], PlaceOf(slot), false, checksum).disk[PlaceOf(slot)].current;
      req == UploadReq(dev, OneByte(slot, saved.cloud, checksum, idem), saved.origin)
    ensures req in m.sent
  {
    hide ReachableNet, Hex64;
    var save := LocalSave(dev, PlaceOf(slot), false, checksum);
    ReachMore(n, 10, save);
    m := DoStep(n, 10, save);
    var saved := m.clients[dev].disk[PlaceOf(slot)].current;
    var send := SendUpload(dev, false, OneByte(slot, saved.cloud, checksum, idem));
    ReachMore(m, 10, send);
    m := DoStep(m, 10, send);
    req := UploadReq(dev, OneByte(slot, saved.cloud, checksum, idem), saved.origin);
  }

  // Serving an upload that appends a version.
  lemma ServeAppend(n: Net, req: Request, id: HeadId) returns (m: Net)
    requires ReachableNet(n, 10) && CanStep(n, ServeUpload(req, id)) && Appends(n.w.db, 10, req.input, id, n.w.now)
    ensures ReachableNet(m, 10) && m.clients == n.clients && m.w.now == n.w.now
    ensures var h, i := HeadRow(n.w.db, req.input.slot, id, n.w.now), req.input;
      var save := SaveView(i.slot, h.id, h.current + 1, i.checksum, i.size, i.core);
      && m.w.db == StoreKey(AppendVersion(n.w.db, i, h, n.w.now), i, CommitResult(save, false), n.w.now)
      && m.book == Enter(n.book, i, h) && Stored(req.dev, save) in m.replies
  {
    hide ReachableNet, Hex64, Appends, RowChecks, AppendVersion, StoreKey, UsedBytes, CommitTx;
    ReachMore(n, 10, ServeUpload(req, id));
    m := DoStep(n, 10, ServeUpload(req, id));
    NotEmpty(req.input.checksum);
    CommitCases(n.w.db, 10, req.input, id, n.w.now);
  }

  function SignedIn(c: Client, user: UserId): Client {
    c.(account := Some(user), accounts := c.accounts + {user})
  }

  lemma SignInTo(n: Net, dev: DevId, user: UserId) returns (m: Net)
    requires ReachableNet(n, 10) && dev in n.clients && user in n.w.db.users
    ensures ReachableNet(m, 10) && m == n.(clients := m.clients)
    ensures m.clients == n.clients[dev := SignedIn(n.clients[dev], user)]
  {
    hide ReachableNet;
    ReachMore(n, 10, SignIn(dev, user));
    m := DoStep(n, 10, SignIn(dev, user));
  }

  // The one save of these runs, in an account.
  function TheSlot(user: UserId): Slot {
    SlotOf(user, Battery, "current")
  }

  function ThePlace(): Place {
    PlaceOf(TheSlot(0))
  }

  lemma SlotIsValid(user: UserId)
    ensures TheSlot(user).user == user && Hex64(TheSlot(user).rom) && SlotName(TheSlot(user).name)
    ensures PlaceOf(TheSlot(user)) == ThePlace()
  {
    SlotsAreValid();
  }

  function TwoUsers(): map<UserId, User> {
    map[0 := User(Wechat("zero"), Active), 1 := User(Wechat("one"), Active)]
  }

  // Two accounts and two devices; nothing is stored.
  lemma TwoDevices() returns (n: Net)
    ensures ReachableNet(n, 10) && n.clients == map[0 := NEW_DEVICE, 1 := NEW_DEVICE]
    ensures n.w.db.users == TwoUsers() && n.book == Book(map[], map[])
    ensures n.w.db.heads == map[] && n.w.db.versions == map[] && n.w.db.blobs == map[] && n.w.db.keys == map[]
  {
    n := Initial(0, {0, 1});
    Runs.ReachesSelf(Machine(10), n);
    assert ReachableNet(n, 10);
    hide ReachableNet, CanStep, DoStep, LoginTx;
    n := LoggedIn(n, Wechat("zero"), 0);
    n := LoggedIn(n, Wechat("one"), 1);
  }

  // A first login.
  lemma LoggedIn(n: Net, subject: Subject, user: UserId) returns (m: Net)
    requires ReachableNet(n, 10) && subject.Wechat? && !SubjectTaken(n.w.db, subject)
    requires user !in n.w.db.users && user !in n.w.db.devices && user !in n.w.db.sessions
    requires forall d | d in n.w.db.devices :: n.w.db.devices[d].user != user
    ensures ReachableNet(m, 10) && m == n.(w := m.w)
    ensures m.w.db == n.w.db.(users := n.w.db.users[user := User(subject, Active)],
                              devices := n.w.db.devices[user := Device(user, "client")],
                              sessions := n.w.db.sessions[user := Session(user, user, DAY, None)])
  {
    hide ReachableNet, SubjectTaken;
    var login := Server(Login(subject, "client", user, user, user, DAY));
    ReachMore(n, 10, login);
    m := DoStep(n, 10, login);
  }

  // An account without saves, and identifiers not used before.
  ghost predicate Unused(db: Db, user: UserId, idem: IdemKey, id: HeadId) {
    && db.users == TwoUsers() && user in TwoUsers() && SmallBlobs(db.blobs) && IdemId(user, idem) !in db.keys
    && (forall s | s in db.heads :: s.user != user && db.heads[s].id != id)
    && forall k | k in db.versions :: k.slot.user != user
  }

  // The account has revision 1 now.
  ghost predicate FirstRow(db: Db, after: Db, user: UserId, checksum: Digest, idem: IdemKey, id: HeadId, now: Time) {
    && after.users == db.users && SmallBlobs(after.blobs) && after.keys.Keys == db.keys.Keys + {IdemId(user, idem)}
    && after.heads == db.heads[TheSlot(user) := Head(id, 1, None, now)]
    && after.versions.Keys == db.versions.Keys + {VKey(TheSlot(user), 1)}
    && after.versions[VKey(TheSlot(user), 1)].checksum == checksum && UsedBytes(after.versions, user) == 1
  }

  lemma AppendedFirst(db: Db, user: UserId, checksum: Digest, idem: IdemKey, id: HeadId, now: Time, result: CommitResult)
    requires Unused(db, user, idem, id)
    ensures var i := OneByte(TheSlot(user), 0, checksum, idem);
      FirstRow(db, StoreKey(AppendVersion(db, i, HeadRow(db, TheSlot(user), id, now), now), i, result, now), user, checksum, idem, id, now)
  {
    hide Digits, TheSlot, UsedBytes;
    SlotIsValid(user);
    NothingUsed(db.versions, user);
    UsedAfterAppend(db.versions, VKey(TheSlot(user), 1), Version(checksum, checksum, 1, "core", None, now, None), user);
  }

  // A device signs in to an account without saves and uploads revision 1.
  lemma Uploaded(n: Net, dev: DevId, user: UserId, checksum: Digest, idem: IdemKey, id: HeadId) returns (m: Net)
    requires ReachableNet(n, 10) && dev in n.clients && ThePlace() !in n.clients[dev].disk && Hex64(checksum)
    requires Unused(n.w.db, user, idem, id) && id !in n.book.owners
    ensures ReachableNet(m, 10) && m.w.now == n.w.now && m.book.owners == n.book.owners[id := TheSlot(user)]
    ensures m.clients == n.clients[dev := SaveLocally(SignedIn(n.clients[dev], user), ThePlace(), false, checksum)]
    ensures FirstRow(n.w.db, m.w.db, user, checksum, idem, id, n.w.now)
    ensures Stored(dev, SaveView(TheSlot(user), id, 1, checksum, 1, "core")) in m.replies
  {
    hide ReachableNet, Hex64, Digits, TheSlot, UsedBytes, Appends, CommitTx, AppendVersion, StoreKey, FirstRow;
    var slot := TheSlot(user);
    SlotIsValid(user);
    m := SignInTo(n, dev, user);
    var req;
    m, req := SaveAndSend(m, dev, slot, checksum, idem);
    NothingUsed(m.w.db.versions, user);
    OneByteAppends(m.w.db, slot, 0, checksum, idem, id, m.w.now);
    AppendedFirst(m.w.db, user, checksum, idem, id, m.w.now, CommitResult(SaveView(slot, id, 1, checksum, 1, "core"), false));
    m := ServeAppend(m, req, id);
  }

  // Device 0 has uploaded revision 1 to an account, and knows so.
  ghost predicate FirstUploaded(n: Net, user: UserId, mine: Digest) {
    && ReachableNet(n, 10) && n.clients.Keys == {0, 1} && n.clients[1] == NEW_DEVICE
    && n.clients[0].account == Some(user) && n.clients[0].held == {(ThePlace(), mine)}
    && ThePlace() in n.clients[0].disk && n.clients[0].disk[ThePlace()].current == Manifest(1, 1, mine, 0)
    && n.w.db.users == TwoUsers() && SmallBlobs(n.w.db.blobs) && n.w.db.keys.Keys == {IdemId(user, 7)}
    && n.book.owners == map[0 := TheSlot(user)]
  }

  lemma FirstUpload(user: UserId, mine: Digest) returns (n: Net)
    requires Hex64(mine) && user in TwoUsers()
    ensures FirstUploaded(n, user, mine)
    ensures n.w.db.heads == map[TheSlot(user) := Head(0, 1, None, n.w.now)]
    ensures n.w.db.versions.Keys == {VKey(TheSlot(user), 1)}
  {
    hide ReachableNet, Hex64, TheSlot, UsedBytes, SmallBlobs;
    NoBlobs();
    n := TwoDevices();
    SlotIsValid(user);
    n := Uploaded(n, 0, user, mine, 7, 0);
    n := Marked(n, SaveView(TheSlot(user), 0, 1, mine, 1, "core"));
  }

  lemma NoBlobs()
    ensures SmallBlobs(map[])
  {
  }

  // Device 0 learns that its upload was stored.
  lemma Marked(n: Net, save: SaveView) returns (m: Net)
    requires ReachableNet(n, 10) && Stored(0, save) in n.replies && 0 in n.clients
    requires PlaceOf(save.slot) in n.clients[0].disk
    ensures ReachableNet(m, 10) && m == n.(clients := n.clients[0 := Rebase(n.clients[0], save, false)])
  {
    hide ReachableNet;
    var mark := MarkUploaded(Stored(0, save), false);
    ReachMore(n, 10, mark);
    m := DoStep(n, 10, mark);
  }

  // Account 0 has a revision 1 that device 0, whose save is based on a revision 1, has not had.
  ghost predicate Stale(n: Net, mine: Digest, theirs: Digest) {
    && ReachableNet(n, 10) && 0 in n.clients && n.clients[0].held == {(ThePlace(), mine)} && theirs != mine
    && ThePlace() in n.clients[0].disk && n.clients[0].disk[ThePlace()].current == Manifest(1, 1, mine, 0)
    && n.w.db.users == TwoUsers() && SmallBlobs(n.w.db.blobs) && IdemId(0, 9) !in n.w.db.keys
    && TheSlot(0) in n.w.db.heads && n.w.db.heads[TheSlot(0)] == Head(1, 1, None, n.w.now)
    && VKey(TheSlot(0), 1) in n.w.db.versions && VKey(TheSlot(0), 2) !in n.w.db.versions
    && n.w.db.versions[VKey(TheSlot(0), 1)].checksum == theirs && UsedBytes(n.w.db.versions, 0) == 1
  }

  // Device 1 uploads it.
  lemma SecondUpload(n: Net, user: UserId, mine: Digest, theirs: Digest) returns (m: Net)
    requires FirstUploaded(n, user, mine) && Unused(n.w.db, 0, 8, 1) && Hex64(theirs) && theirs != mine
    ensures Stale(m, mine, theirs) && m.clients[0] == n.clients[0]
    ensures m.w.db.heads == n.w.db.heads[TheSlot(0) := Head(1, 1, None, n.w.now)]
  {
    hide ReachableNet, Hex64, TheSlot, UsedBytes, SmallBlobs;
    SlotIsValid(0);
    m := Uploaded(n, 1, 0, theirs, 8, 1);
  }

  // Device 0 saves again on top of its revision 1 and sends it to account 0.
  lemma Supersede(n: Net, mine: Digest, theirs: Digest, next: Digest) returns (m: Net, req: Request)
    requires Stale(n, mine, theirs) && n.clients[0].account == Some(0) && Hex64(next) && theirs != next
    ensures ReachableNet(m, 10) && CanStep(m, ServeUpload(req, 2)) && Appends(m.w.db, 10, req.input, 2, m.w.now)
    ensures m.w == n.w && req.input.slot == TheSlot(0) && req.origin == 0
    ensures m.w.db.heads[TheSlot(0)] == Head(1, 1, None, n.w.now) && !HoldsCurrent(m, req.dev, TheSlot(0))
  {
    hide ReachableNet, Hex64, Digits, TheSlot, UsedBytes, Appends, CommitTx;
    SlotIsValid(0);
    m, req := SaveAndSend(n, 0, TheSlot(0), next, 9);
    OneByteAppends(m.w.db, TheSlot(0), 1, next, 9, 2, m.w.now);
  }

  // ---------- A purge ----------

  lemma DeleteOne(db: Db, slot: Slot, now: Time)
    requires db.heads == map[slot := Head(0, 1, None, now)]
    ensures DeleteTx(db, OneSlot(slot), now).db == db.(heads := map[slot := Head(0, 1, Some(now), now)])
  {
    assert Doomed(db, OneSlot(slot)) == {slot};
  }

  lemma PurgeOne(db: Db, slot: Slot, at: Time, now: Time)
    requires db.heads == map[slot := Head(0, 1, Some(at), at)] && now == at + 8 * DAY
    requires db.versions.Keys == {VKey(slot, 1)} && SmallBlobs(db.blobs)
    ensures Purgeable(db, now) == {slot}
    ensures var after := PurgeTx(db, {slot}, now);
      after.heads == map[] && after.versions == map[] && SmallBlobs(after.blobs) && after.users == db.users && after.keys == db.keys
  {
    hide CountOf, LiveUnder;
  }

  // The head is deleted, and purged a week later.
  lemma Purged(n: Net, slot: Slot) returns (m: Net)
    requires ReachableNet(n, 10) && n.w.db.heads == map[slot := Head(0, 1, None, n.w.now)]
    requires n.w.db.versions.Keys == {VKey(slot, 1)} && SmallBlobs(n.w.db.blobs)
    ensures ReachableNet(m, 10) && m.clients == n.clients && m.book == n.book
    ensures m.w.db.users == n.w.db.users && m.w.db.keys == n.w.db.keys
    ensures m.w.db.heads == map[] && m.w.db.versions == map[] && SmallBlobs(m.w.db.blobs)
  {
    hide ReachableNet, UsedBytes, SmallBlobs, DeleteTx, PurgeTx, Purgeable;
    var delete := Server(DeleteSaves(OneSlot(slot)));
    DeleteOne(n.w.db, slot, n.w.now);
    ReachMore(n, 10, delete);
    m := DoStep(n, 10, delete);
    var tick := Server(Tick(8 * DAY));
    ReachMore(m, 10, tick);
    m := DoStep(m, 10, tick);
    var purge := Server(Purge(1, {slot}));
    PurgeOne(m.w.db, slot, n.w.now, m.w.now);
    ReachMore(m, 10, purge);
    m := DoStep(m, 10, purge);
  }

  // Revision numbers restart after a purge: in some run a device that saw revision 1 of the
  // purged head row supersedes revision 1 of the new row, whose content it never had.
  lemma PurgeBreaksLineage() returns (n: Net, req: Request)
    ensures ReachableNet(n, 10) && CanStep(n, ServeUpload(req, 2)) && Appends(n.w.db, 10, req.input, 2, n.w.now)
    ensures req.input.slot in n.w.db.heads && n.w.db.heads[req.input.slot].deletedAt.None?
    ensures !RowPresent(n.w.db.heads, req.origin) && !HoldsCurrent(n, req.dev, req.input.slot)
  {
    var mine, theirs, next := Digits('a'), Digits('c'), Digits('b');
    DigitsDiffer('a', 'c');
    DigitsDiffer('b', 'c');
    DigitsDiffer('c', 'a');
    hide ReachableNet, Hex64, Digits, TheSlot, UsedBytes, Appends, CommitTx, Stale;
    n := FirstUpload(0, mine);
    n := Purged(n, TheSlot(0));
    n := SecondUpload(n, 0, mine, theirs);
    n, req := Supersede(n, mine, theirs, next);
  }

  // ---------- A change of account ----------

  // The save directory outlives the account: in some run a device that saw revision 1 in one
  // account, and was then signed in to another, supersedes the other's revision 1, whose
  // content it never had. No head row was ever purged.
  lemma AccountSwitchBreaksLineage() returns (n: Net, req: Request)
    ensures ReachableNet(n, 10) && CanStep(n, ServeUpload(req, 2)) && Appends(n.w.db, 10, req.input, 2, n.w.now)
    ensures req.input.slot in n.w.db.heads && n.w.db.heads[req.input.slot].deletedAt.None?
    ensures RowPresent(n.w.db.heads, req.origin) && n.w.db.heads[req.input.slot].id != req.origin
    ensures !HoldsCurrent(n, req.dev, req.input.slot)
  {
    var mine, theirs, next := Digits('a'), Digits('c'), Digits('b');
    DigitsDiffer('a', 'c');
    DigitsDiffer('b', 'c');
    DigitsDiffer('c', 'a');
    hide ReachableNet, Hex64, Digits, TheSlot, UsedBytes, Appends, CommitTx;
    SlotIsValid(0);
    SlotIsValid(1);
    n := FirstUpload(1, mine);
    n := SecondUpload(n, 1, mine, theirs);
    n := SignInTo(n, 0, 0);
    n, req := Supersede(n, mine, theirs, next);
    assert n.w.db.heads[TheSlot(1)].id == req.origin;
  }
}
