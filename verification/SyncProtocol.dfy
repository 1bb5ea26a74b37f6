/**
 Many devices and one server. Requests are never removed from `sent` and
 replies never from `replies`, so every request can be served late, twice or
 never and every reply can be lost, late or duplicated. Each repository method
 of a device is one atomic step. A device keeps one directory per ROM, kind and
 name, whichever account is signed in, and requests go to the account of the moment.

 `origin`, `observed`, `held`, `accounts` and `book` are history variables: they record
 where revision numbers came from, and no step that the code takes depends on
 them (`book` only says that row identifiers are never used twice).
 */
module SyncProtocol {
  import opened Wrappers
  import opened SaveKeys
  import opened SaveTables
  import opened StoreInvariants
  import Runs

  type DevId = nat

  // A save directory.
  datatype Place = Place(rom: string, kind: Kind, name: string)

  function PlaceOf(slot: Slot): Place {
    Place(slot.rom, slot.kind, slot.name)
  }

  function SlotAt(user: UserId, place: Place): Slot {
    Slot(user, place.rom, place.kind, place.name)
  }

  // `cloud` is the server revision this save is based on, `origin` the head row it was read from.
  datatype Manifest = Manifest(local: nat, cloud: int, checksum: Digest, origin: HeadId)

  // manifest.json and manifest.json.previous
  datatype Saved = Saved(current: Manifest, previous: Option<Manifest>)

  // `bases` are the bases, cloud revision and origin, that import dialogs have read from a
  // manifest, `accounts` the accounts the device has ever been signed in to.
  datatype Client = Client(account: Option<UserId>, disk: map<Place, Saved>, bases: set<(Place, int, HeadId)>,
                           held: set<(Place, Digest)>, observed: set<(HeadId, int)>, accounts: set<UserId>)

  datatype Request =
    | UploadReq(dev: DevId, input: CommitInput, origin: HeadId)
    | RestoreReq(dev: DevId, slot: Slot, source: int, base: int, device: Option<DeviceId>, idem: IdemKey, origin: HeadId)

  datatype Reply =
    | Stored(dev: DevId, save: SaveView)                         // 200 on upload
    | Refused(dev: DevId, checksum: Digest, current: SaveView)   // 409 with the current head
    | Content(dev: DevId, save: SaveView)                        // download
    | Listing(dev: DevId, save: SaveView)                        // head listing

  // Every version ever committed, by head row and revision, and the slot of every head row ever used.
  datatype Book = Book(history: map<(HeadId, int), Digest>, owners: map<HeadId, Slot>)

  datatype Net = Net(w: World, clients: map<DevId, Client>, sent: set<Request>, replies: set<Reply>, book: Book)

  datatype Step =
    | SignIn(dev: DevId, user: UserId)
    | SignOut(dev: DevId)
    | LocalSave(dev: DevId, place: Place, previous: bool, checksum: Digest)
    | OpenImport(dev: DevId, place: Place, previous: bool)
    | Import(dev: DevId, place: Place, checksum: Digest, cloud: int, origin: HeadId)
    | RemoveLocal(dev: DevId, place: Place)
    | FallBack(dev: DevId, place: Place)
    | SendUpload(dev: DevId, previous: bool, input: CommitInput)
    | ServeUpload(req: Request, head: HeadId)
    | SendRestore(reply: Reply, source: int, device: Option<DeviceId>, idem: IdemKey)
    | ServeRestore(req: Request, input: CommitInput, head: HeadId)
    | ServeRead(dev: DevId, slot: Slot, revision: int)
    | ServeList(dev: DevId, slot: Slot)
    | MarkUploaded(reply: Reply, previous: bool)
    | KeepLocal(reply: Reply, previous: bool)
    | TakeCloud(reply: Reply)
    | Server(event: Event)

  // Row identifiers are never used twice.
  ghost predicate FreshHead(n: Net, slot: Slot, id: HeadId) {
    slot in n.w.db.heads || id !in n.book.owners
  }

  // The manifest a method reads: manifest.json, or the previous one when reading that fails.
  function Loaded(saved: Saved, previous: bool): Manifest {
    if previous && saved.previous.Some? then saved.previous.value else saved.current
  }

  // What an upload request carries: the loaded manifest's base and checksum.
  ghost predicate Carries(i: CommitInput, m: Manifest) {
    && i.base == m.cloud && i.checksum == m.checksum && i.blob == m.checksum
    && i.request == UploadPrint(i.slot, i.base, i.checksum, i.core, i.device)
  }

  // The version an upload ended up as: its own, or an equal one already there.
  function Uploaded(reply: Reply): SaveView
    requires reply.Stored? || reply.Refused?
  {
    if reply.Stored? then reply.save else reply.current
  }

  ghost predicate CanStep(n: Net, st: Step) {
    match st
    case SignIn(dev, user) => dev in n.clients && user in n.w.db.users
    case SignOut(dev) => dev in n.clients
    case LocalSave(dev, _, _, checksum) => dev in n.clients && Hex64(checksum)
    case OpenImport(dev, place, _) => dev in n.clients && place in n.clients[dev].disk
    case Import(dev, place, checksum, cloud, origin) =>
      dev in n.clients && Hex64(checksum) && ((place, cloud, origin) in n.clients[dev].bases || cloud == 0)
    case RemoveLocal(dev, _) => dev in n.clients
    case FallBack(dev, place) => dev in n.clients && place in n.clients[dev].disk
    case SendUpload(dev, previous, i) =>
      && dev in n.clients && n.clients[dev].account == Some(i.slot.user) && PlaceOf(i.slot) in n.clients[dev].disk
      && Carries(i, Loaded(n.clients[dev].disk[PlaceOf(i.slot)], previous))
    case ServeUpload(req, id) => req in n.sent && req.UploadReq? && Hex64(req.input.checksum) && FreshHead(n, req.input.slot, id)
    case SendRestore(reply, source, _, _) =>
      reply in n.replies && reply.Listing? && reply.dev in n.clients && n.clients[reply.dev].account.Some? && source > 0
    case ServeRestore(req, i, id) =>
      && req in n.sent && req.RestoreReq?
      && i.slot == req.slot && i.base == req.base && i.idem == req.idem && Hex64(i.checksum)
      && i.request == RestorePrint(req.slot, req.base, req.source, req.device) && FreshHead(n, i.slot, id)
    case ServeRead(dev, slot, revision) =>
      dev in n.clients && slot.user in n.clients[dev].accounts && GetContent(n.w.db, slot, revision).Some?
    case ServeList(dev, slot) => dev in n.clients && slot.user in n.clients[dev].accounts && Listed(n.w.db, slot)
    case MarkUploaded(reply, _) =>
      && reply in n.replies && reply.dev in n.clients
      && (reply.Stored? || (reply.Refused? && reply.current.checksum == reply.checksum))
      && PlaceOf(Uploaded(reply).slot) in n.clients[reply.dev].disk
    case KeepLocal(reply, _) =>
      && reply in n.replies && reply.Content? && reply.dev in n.clients
      && PlaceOf(reply.save.slot) in n.clients[reply.dev].disk
    case TakeCloud(reply) => reply in n.replies && reply.Content? && reply.dev in n.clients
    case Server(e) => Enabled(n.w, e) && !e.Commit?
  }

  function WriteManifest(c: Client, place: Place, m: Manifest): Client {
    c.(disk := c.disk[place := Saved(m, if place in c.disk then Some(c.disk[place].current) else None)])
  }

  // updateCloudRevision
  function Rebase(c: Client, save: SaveView, previous: bool): Client
    requires PlaceOf(save.slot) in c.disk
  {
    var place := PlaceOf(save.slot);
    WriteManifest(c, place, Loaded(c.disk[place], previous).(cloud := save.revision, origin := save.head))
      .(observed := c.observed + {(save.head, save.revision)})
  }

  // commit of downloaded bytes
  function Adopt(c: Client, save: SaveView): Client {
    var place := PlaceOf(save.slot);
    var local := if place in c.disk then c.disk[place].current.local + 1 else 1;
    WriteManifest(c, place, Manifest(local, save.revision, save.checksum, save.head))
      .(observed := c.observed + {(save.head, save.revision)}, held := c.held + {(place, save.checksum)})
  }

  // commit of a local save keeps the cloud revision it is based on, whatever account that was
  function SaveLocally(c: Client, place: Place, previous: bool, checksum: Digest): Client {
    var m := if place in c.disk then Loaded(c.disk[place], previous) else Manifest(0, 0, "", 0);
    WriteManifest(c, place, Manifest(m.local + 1, m.cloud, checksum, m.origin)).(held := c.held + {(place, checksum)})
  }

  // commit of an imported file with the revision read before its dialog
  function ImportFile(c: Client, place: Place, checksum: Digest, cloud: int, origin: HeadId): Client {
    var local := if place in c.disk then c.disk[place].current.local + 1 else 1;
    WriteManifest(c, place, Manifest(local, cloud, checksum, origin)).(held := c.held + {(place, checksum)})
  }

  function Opened(c: Client, place: Place, previous: bool): Client
    requires place in c.disk
  {
    var m := Loaded(c.disk[place], previous);
    c.(bases := c.bases + {(place, m.cloud, m.origin)})
  }

  function Enter(book: Book, i: CommitInput, h: Head): Book {
    Book(book.history[(h.id, h.current + 1) := i.checksum], book.owners[h.id := i.slot])
  }

  // The server commits and remembers the new version in the history.
  ghost function Served(n: Net, max: int, i: CommitInput, id: HeadId): Net
    requires Hex64(i.checksum)
  {
    var w' := Next(n.w, max, Commit(i, id));
    if Appends(n.w.db, max, i, id, n.w.now) then
      var h := HeadRow(n.w.db, i.slot, id, n.w.now);
      n.(w := w', book := Enter(n.book, i, h))
    else n.(w := w')
  }

  ghost function UploadReply(n: Net, max: int, req: Request, id: HeadId): set<Reply>
    requires req.UploadReq?
  {
    match CommitTx(n.w.db, max, req.input, id, n.w.now).result
    case Ok(result) => {Stored(req.dev, result.save)}
    case Err(Conflict(Some(current))) => {Refused(req.dev, req.input.checksum, current)}
    case Err(_) => {}
  }

  ghost function DoStep(n: Net, max: int, st: Step): Net
    requires CanStep(n, st)
  {
    match st
    case SignIn(dev, user) =>
      n.(clients := n.clients[dev := n.clients[dev].(account := Some(user), accounts := n.clients[dev].accounts + {user})])
    case SignOut(dev) => n.(clients := n.clients[dev := n.clients[dev].(account := None)])
    case LocalSave(dev, place, previous, checksum) =>
      n.(clients := n.clients[dev := SaveLocally(n.clients[dev], place, previous, checksum)])
    case OpenImport(dev, place, previous) => n.(clients := n.clients[dev := Opened(n.clients[dev], place, previous)])
    case Import(dev, place, checksum, cloud, origin) =>
      n.(clients := n.clients[dev := ImportFile(n.clients[dev], place, checksum, cloud, origin)])
    case RemoveLocal(dev, place) =>
      n.(clients := n.clients[dev := n.clients[dev].(disk := n.clients[dev].disk - {place})])
    case FallBack(dev, place) =>
      var c := n.clients[dev];
      n.(clients := n.clients[dev := c.(disk := c.disk[place := Saved(Loaded(c.disk[place], true), None)])])
    case SendUpload(dev, previous, i) =>
      n.(sent := n.sent + {UploadReq(dev, i, Loaded(n.clients[dev].disk[PlaceOf(i.slot)], previous).origin)})
    case ServeUpload(req, id) =>
      Served(n, max, req.input, id).(replies := n.replies + UploadReply(n, max, req, id))
    case SendRestore(reply, source, device, idem) =>
      var c := n.clients[reply.dev];
      var slot := SlotAt(c.account.value, PlaceOf(reply.save.slot));
      n.(sent := n.sent + {RestoreReq(reply.dev, slot, source, reply.save.revision, device, idem, reply.save.head)},
         clients := n.clients[reply.dev := c.(observed := c.observed + {(reply.save.head, reply.save.revision)})])
    case ServeRestore(req, i, id) => Served(n, max, i, id)
    case ServeRead(dev, slot, revision) =>
      n.(replies := n.replies + {Content(dev, GetContent(n.w.db, slot, revision).value.0)})
    case ServeList(dev, slot) => n.(replies := n.replies + {Listing(dev, View(n.w.db, slot, n.w.db.heads[slot].current))})
    case MarkUploaded(reply, previous) =>
      n.(clients := n.clients[reply.dev := Rebase(n.clients[reply.dev], Uploaded(reply), previous)])
    case KeepLocal(reply, previous) =>
      // the cloud copy is stored before the revision is taken over
      var c := n.clients[reply.dev];
      var kept := c.(held := c.held + {(PlaceOf(reply.save.slot), reply.save.checksum)});
      n.(clients := n.clients[reply.dev := Rebase(kept, reply.save, previous)])
    case TakeCloud(reply) => n.(clients := n.clients[reply.dev := Adopt(n.clients[reply.dev], reply.save)])
    case Server(e) => n.(w := Next(n.w, max, e))
  }

  // The step function of the system: None where the step is not enabled.
  ghost function Machine(max: int): (Net, Step) -> Option<Net> {
    (n: Net, st: Step) => if CanStep(n, st) then Some(DoStep(n, max, st)) else None
  }

  // ---------- Invariant ----------

  // A revision number some server state really had, with its content and head row.
  ghost predicate Known(book: Book, save: SaveView) {
    && save.revision > 0 && (save.head, save.revision) in book.history
    && book.history[(save.head, save.revision)] == save.checksum
    && save.head in book.owners && book.owners[save.head] == save.slot
  }

  ghost predicate HistoryMatches(heads: map<Slot, Head>, versions: map<VKey, Version>, book: Book) {
    && (forall s | s in heads :: heads[s].current > 0 && heads[s].id in book.owners && book.owners[heads[s].id] == s)
    && (forall k | k in versions :: k.slot in heads && k.revision > 0
          && (heads[k.slot].id, k.revision) in book.history
          && book.history[(heads[k.slot].id, k.revision)] == versions[k].checksum)
    && (forall p | p in book.history :: p.0 in book.owners)
    && (forall p, s | p in book.history && s in heads && heads[s].id == p.0 :: p.1 <= heads[s].current)
  }

  // The stored answer of an upload is about the content of the request it answers.
  ghost predicate AnswerMatches(book: Book, request: Fingerprint, save: SaveView) {
    && Known(book, save) && save.slot == request.slot
    && (request.UploadPrint? ==> save.checksum == request.digest)
  }

  ghost predicate KeysMatch(keys: map<IdemId, IdemRow>, book: Book) {
    forall ik | ik in keys :: AnswerMatches(book, keys[ik].request, keys[ik].result.save)
  }

  // The device has seen revision `revision` of head row `origin`, of this directory's slot in
  // an account it was signed in to.
  ghost predicate Seen(cs: map<DevId, Client>, book: Book, dev: DevId, place: Place, origin: HeadId, revision: int) {
    && dev in cs
    && (origin, revision) in book.history && origin in book.owners && PlaceOf(book.owners[origin]) == place
    && book.owners[origin].user in cs[dev].accounts
    && (origin, revision) in cs[dev].observed
  }

  // ... and has had its content in a local save or a stored conflict copy.
  ghost predicate HeldContent(cs: map<DevId, Client>, book: Book, dev: DevId, place: Place, origin: HeadId, revision: int) {
    Seen(cs, book, dev, place, origin, revision) && (place, book.history[(origin, revision)]) in cs[dev].held
  }

  ghost predicate BaseOk(cs: map<DevId, Client>, book: Book, dev: DevId, place: Place, cloud: int, origin: HeadId) {
    cloud >= 0 && (cloud > 0 ==> HeldContent(cs, book, dev, place, origin, cloud))
  }

  ghost predicate ManifestOk(cs: map<DevId, Client>, book: Book, dev: DevId, place: Place, m: Manifest) {
    && dev in cs && (place, m.checksum) in cs[dev].held
    && BaseOk(cs, book, dev, place, m.cloud, m.origin)
  }

  ghost predicate SavedOk(cs: map<DevId, Client>, book: Book, dev: DevId, place: Place, saved: Saved) {
    && ManifestOk(cs, book, dev, place, saved.current)
    && (saved.previous.Some? ==> ManifestOk(cs, book, dev, place, saved.previous.value))
  }

  ghost predicate DisksOk(cs: map<DevId, Client>, book: Book) {
    && (forall dev, place | dev in cs && place in cs[dev].disk :: SavedOk(cs, book, dev, place, cs[dev].disk[place]))
    && (forall dev, o | dev in cs && o in cs[dev].bases :: BaseOk(cs, book, dev, o.0, o.1, o.2))
    && forall dev | dev in cs && cs[dev].account.Some? :: cs[dev].account.value in cs[dev].accounts
  }

  ghost predicate RequestOk(cs: map<DevId, Client>, book: Book, req: Request) {
    match req
    case UploadReq(dev, i, origin) =>
      && dev in cs && i.slot.user in cs[dev].accounts && (PlaceOf(i.slot), i.checksum) in cs[dev].held
      && i.request == UploadPrint(i.slot, i.base, i.checksum, i.core, i.device)
      && BaseOk(cs, book, dev, PlaceOf(i.slot), i.base, origin)
    case RestoreReq(dev, slot, _, base, _, _, origin) => base > 0 && Seen(cs, book, dev, PlaceOf(slot), origin, base)
  }

  ghost predicate RequestsOk(cs: map<DevId, Client>, book: Book, sent: set<Request>) {
    forall req | req in sent :: RequestOk(cs, book, req)
  }

  ghost predicate ReplyOk(cs: map<DevId, Client>, book: Book, reply: Reply) {
    match reply
    case Stored(dev, save) => KnownTo(cs, book, dev, save) && (PlaceOf(save.slot), save.checksum) in cs[dev].held
    case Refused(dev, checksum, save) => KnownTo(cs, book, dev, save) && (PlaceOf(save.slot), checksum) in cs[dev].held
    case Content(dev, save) => KnownTo(cs, book, dev, save)
    case Listing(dev, save) => KnownTo(cs, book, dev, save)
  }

  // A real revision, of an account the device was signed in to.
  ghost predicate KnownTo(cs: map<DevId, Client>, book: Book, dev: DevId, save: SaveView) {
    dev in cs && save.slot.user in cs[dev].accounts && Known(book, save)
  }

  ghost predicate RepliesOk(cs: map<DevId, Client>, book: Book, replies: set<Reply>) {
    forall reply | reply in replies :: ReplyOk(cs, book, reply)
  }

  ghost predicate NetInv(n: Net, max: int) {
    && Inv(n.w.db, max)
    && HistoryMatches(n.w.db.heads, n.w.db.versions, n.book)
    && KeysMatch(n.w.db.keys, n.book)
    && DisksOk(n.clients, n.book)
    && RequestsOk(n.clients, n.book, n.sent)
    && RepliesOk(n.clients, n.book, n.replies)
  }

  // ---------- Knowledge only grows ----------

  ghost predicate BookGrows(book: Book, book': Book) {
    && (forall p | p in book.history :: p in book'.history && book'.history[p] == book.history[p])
    && (forall id | id in book.owners :: id in book'.owners && book'.owners[id] == book.owners[id])
  }

  ghost predicate ClientsGrow(cs: map<DevId, Client>, cs': map<DevId, Client>) {
    forall d | d in cs ::
      d in cs' && cs[d].held <= cs'[d].held && cs[d].observed <= cs'[d].observed && cs[d].accounts <= cs'[d].accounts
  }

  lemma MessagesStayOk(cs: map<DevId, Client>, book: Book, cs': map<DevId, Client>, book': Book,
                       sent: set<Request>, replies: set<Reply>)
    requires ClientsGrow(cs, cs') && BookGrows(book, book')
    requires RequestsOk(cs, book, sent) && RepliesOk(cs, book, replies)
    ensures RequestsOk(cs', book', sent) && RepliesOk(cs', book', replies)
  {
    forall req | req in sent ensures RequestOk(cs', book', req) {
      assert RequestOk(cs, book, req);
    }
    forall reply | reply in replies ensures ReplyOk(cs', book', reply) {
      assert ReplyOk(cs, book, reply);
    }
  }

  lemma DisksStayOk(cs: map<DevId, Client>, book: Book, book': Book)
    requires BookGrows(book, book') && DisksOk(cs, book)
    ensures DisksOk(cs, book')
  {
    forall dev, p | dev in cs && p in cs[dev].disk ensures SavedOk(cs, book', dev, p, cs[dev].disk[p]) {
      assert SavedOk(cs, book, dev, p, cs[dev].disk[p]);
    }
    forall dev, o | dev in cs && o in cs[dev].bases ensures BaseOk(cs, book', dev, o.0, o.1, o.2) {
      assert BaseOk(cs, book, dev, o.0, o.1, o.2);
    }
  }

  // ---------- Server steps ----------

  // No head changes its identity or revision and no version or key its content.
  ghost predicate Quiet(db: Db, db': Db) {
    && (forall s | s in db'.heads ::
          s in db.heads && db'.heads[s].id == db.heads[s].id && db'.heads[s].current == db.heads[s].current)
    && (forall k | k in db'.versions :: k in db.versions && db'.versions[k].checksum == db.versions[k].checksum)
    && (forall ik | ik in db'.keys :: ik in db.keys && db'.keys[ik] == db.keys[ik])
  }

  lemma EventsAreQuiet(w: World, max: int, e: Event)
    requires Enabled(w, e) && !e.Commit?
    ensures Quiet(w.db, NextDb(w, max, e))
  {
    hide Quiet, Candidates, OldestOf, Purgeable, Release, EraseBlocked;
    match e
    case DeleteSaves(target) => DeleteIsQuiet(w.db, target, w.now);
    case Prune(_, chosen) => PruneIsQuiet(w.db, chosen, w.now);
    case Purge(_, slots) => PurgeIsQuiet(w.db, slots, w.now);
    case ProcessJob(job, fault) => ProcessIsQuiet(w.db, job, fault, w.now);
    case Commit(_, _) => assert false;
    case _ => FewerKeysAreQuiet(w.db, NextDb(w, max, e));
  }

  lemma FewerKeysAreQuiet(db: Db, after: Db)
    requires after.heads == db.heads && after.versions == db.versions
    requires forall ik | ik in after.keys :: ik in db.keys && after.keys[ik] == db.keys[ik]
    ensures Quiet(db, after)
  {
  }

  lemma DeleteIsQuiet(db: Db, target: Target, now: Time)
    ensures Quiet(db, DeleteTx(db, target, now).db)
  {
    hide Doomed;
  }

  lemma PruneIsQuiet(db: Db, chosen: set<VKey>, now: Time)
    ensures Quiet(db, PruneTx(db, chosen, now))
  {
    hide Release;
  }

  lemma PurgeIsQuiet(db: Db, slots: set<Slot>, now: Time)
    ensures Quiet(db, PurgeTx(db, slots, now))
  {
    hide Release;
  }

  lemma ProcessIsQuiet(db: Db, job: JobId, fault: Fault, now: Time)
    requires job in db.jobs && db.jobs[job].user in db.users
    ensures Quiet(db, ProcessTx(db, job, fault, now))
  {
    hide Release, EraseBlocked;
  }

  lemma QuietKeepsHistory(db: Db, db': Db, book: Book)
    requires Quiet(db, db') && ForeignKeys(db')
    requires HistoryMatches(db.heads, db.versions, book) && KeysMatch(db.keys, book)
    ensures HistoryMatches(db'.heads, db'.versions, book) && KeysMatch(db'.keys, book)
  {
  }

  lemma EnterGrows(n: Net, i: CommitInput, id: HeadId)
    requires HistoryMatches(n.w.db.heads, n.w.db.versions, n.book) && FreshHead(n, i.slot, id)
    ensures BookGrows(n.book, Enter(n.book, i, HeadRow(n.w.db, i.slot, id, n.w.now)))
  {
    var h := HeadRow(n.w.db, i.slot, id, n.w.now);
    assert (h.id, h.current + 1) !in n.book.history;
  }

  lemma ServedGrows(n: Net, max: int, i: CommitInput, id: HeadId)
    requires NetInv(n, max) && Hex64(i.checksum) && FreshHead(n, i.slot, id)
    ensures BookGrows(n.book, Served(n, max, i, id).book)
  {
    EnterGrows(n, i, id);
  }

  lemma AppendedHistory(n: Net, i: CommitInput, id: HeadId)
    requires HistoryMatches(n.w.db.heads, n.w.db.versions, n.book) && FreshHead(n, i.slot, id)
    ensures var h := HeadRow(n.w.db, i.slot, id, n.w.now);
            var db' := AppendVersion(n.w.db, i, h, n.w.now);
            HistoryMatches(db'.heads, db'.versions, Enter(n.book, i, h))
  {
    EnterGrows(n, i, id);
  }

  lemma ServedHistory(n: Net, max: int, i: CommitInput, id: HeadId)
    requires NetInv(n, max) && Hex64(i.checksum) && FreshHead(n, i.slot, id)
    ensures var n' := Served(n, max, i, id); HistoryMatches(n'.w.db.heads, n'.w.db.versions, n'.book)
  {
    hide HistoryMatches, Appends, AppendVersion, CommitTx, KeysMatch, DisksOk, RequestsOk, RepliesOk, Inv;
    NotEmpty(i.checksum);
    CommitCases(n.w.db, max, i, id, n.w.now);
    if Appends(n.w.db, max, i, id, n.w.now) {
      AppendedHistory(n, i, id);
    }
  }

  // Where the views in the server's answers come from.
  lemma AnswerCases(db: Db, max: int, i: CommitInput, id: HeadId, now: Time)
    requires i.checksum != ""
    ensures var result, ik := CommitTx(db, max, i, id, now).result, IdemId(i.slot.user, i.idem);
            var current := CurrentView(db, i.slot, HeadRow(db, i.slot, id, now));
            && (result.Ok? ==>
                  || Appends(db, max, i, id, now)
                  || (ik in db.keys && db.keys[ik].request == i.request && result.value.save == db.keys[ik].result.save)
                  || (i.slot in db.heads && current == Some(result.value.save) && current.value.checksum == i.checksum))
            && (result.Err? && result.error.Conflict? && result.error.current.Some? ==>
                  i.slot in db.heads && result.error.current == current)
  {
  }

  // What the server answers is true, and an upload's answer is about its own content.
  lemma AnswersAreKnown(n: Net, max: int, i: CommitInput, id: HeadId)
    requires NetInv(n, max) && Hex64(i.checksum) && FreshHead(n, i.slot, id) && i.request.slot == i.slot
    requires i.request.UploadPrint? ==> i.request.digest == i.checksum
    ensures var book', result := Served(n, max, i, id).book, CommitTx(n.w.db, max, i, id, n.w.now).result;
            && (result.Ok? ==> AnswerMatches(book', i.request, result.value.save))
            && (result.Err? && result.error.Conflict? && result.error.current.Some? ==>
                  Known(book', result.error.current.value) && result.error.current.value.slot == i.slot)
  {
    hide Inv, CommitTx, Appends, AnswerMatches, Known, HistoryMatches, KeysMatch, DisksOk, RequestsOk, RepliesOk, BookGrows,
      Hex64, CurrentView, FreshHead;
    var db, ik, book' := n.w.db, IdemId(i.slot.user, i.idem), Served(n, max, i, id).book;
    NotEmpty(i.checksum);
    AnswerCases(db, max, i, id, n.w.now);
    ServedGrows(n, max, i, id);
    if ik in db.keys {
      StoredIsKnown(db.keys, n.book, book', ik);
    }
    if i.slot in db.heads {
      CurrentIsKnown(db, n.book, book', i.slot, HeadRow(db, i.slot, id, n.w.now), i);
    }
    if Appends(db, max, i, id, n.w.now) {
      AppendedIsKnown(n, max, i, id);
    }
  }

  lemma StoredIsKnown(keys: map<IdemId, IdemRow>, book: Book, book': Book, ik: IdemId)
    requires KeysMatch(keys, book) && BookGrows(book, book') && ik in keys
    ensures AnswerMatches(book', keys[ik].request, keys[ik].result.save)
  {
    assert AnswerMatches(book, keys[ik].request, keys[ik].result.save);
  }

  lemma CurrentIsKnown(db: Db, book: Book, book': Book, slot: Slot, h: Head, i: CommitInput)
    requires HistoryMatches(db.heads, db.versions, book) && BookGrows(book, book') && slot in db.heads && h == db.heads[slot]
    requires i.request.slot == slot && (i.request.UploadPrint? ==> i.request.digest == i.checksum)
    ensures var current := CurrentView(db, slot, h); current.Some? ==>
      && Known(book', current.value) && current.value.slot == slot
      && (current.value.checksum == i.checksum ==> AnswerMatches(book', i.request, current.value))
  {
  }

  lemma AppendedIsKnown(n: Net, max: int, i: CommitInput, id: HeadId)
    requires Hex64(i.checksum) && i.request.slot == i.slot && (i.request.UploadPrint? ==> i.request.digest == i.checksum)
    requires Appends(n.w.db, max, i, id, n.w.now)
    ensures var result := CommitTx(n.w.db, max, i, id, n.w.now).result;
      result.Ok? && AnswerMatches(Served(n, max, i, id).book, i.request, result.value.save)
  {
    NotEmpty(i.checksum);
    CommitCases(n.w.db, max, i, id, n.w.now);
    AppendedPositive(n.w.db, max, i, id, n.w.now);
    hide CommitTx, Appends, Hex64;
  }

  lemma AppendedPositive(db: Db, max: int, i: CommitInput, id: HeadId, now: Time)
    requires Appends(db, max, i, id, now)
    ensures HeadRow(db, i.slot, id, now).current + 1 > 0
  {
  }

  lemma KeysStayMatched(db: Db, max: int, i: CommitInput, id: HeadId, now: Time, book: Book, book': Book)
    requires i.checksum != "" && KeysMatch(db.keys, book) && BookGrows(book, book')
    requires var result := CommitTx(db, max, i, id, now).result;
             result.Ok? ==> AnswerMatches(book', i.request, result.value.save)
    ensures KeysMatch(CommitTx(db, max, i, id, now).db.keys, book')
  {
    CommitCases(db, max, i, id, now);
    forall ik | ik in db.keys ensures AnswerMatches(book', db.keys[ik].request, db.keys[ik].result.save) {
      assert AnswerMatches(book, db.keys[ik].request, db.keys[ik].result.save);
    }
  }

  lemma ServedKeepsNetInv(n: Net, max: int, i: CommitInput, id: HeadId)
    requires NetInv(n, max) && Hex64(i.checksum) && FreshHead(n, i.slot, id) && i.request.slot == i.slot
    requires i.request.UploadPrint? ==> i.request.digest == i.checksum
    ensures NetInv(Served(n, max, i, id), max)
  {
    hide Inv, HistoryMatches, KeysMatch, DisksOk, RequestsOk, RepliesOk, AnswerMatches, Known, BookGrows, CommitTx, Appends;
    NotEmpty(i.checksum);
    var n' := Served(n, max, i, id);
    InvStep(n.w, max, Commit(i, id));
    ServedGrows(n, max, i, id);
    ServedHistory(n, max, i, id);
    AnswersAreKnown(n, max, i, id);
    KeysStayMatched(n.w.db, max, i, id, n.w.now, n.book, n'.book);
    MessagesStayOk(n.clients, n.book, n.clients, n'.book, n.sent, n.replies);
    DisksStayOk(n.clients, n.book, n'.book);
  }

  lemma UploadReplyIsOk(n: Net, max: int, req: Request, id: HeadId, reply: Reply)
    requires req.UploadReq? && Hex64(req.input.checksum) && FreshHead(n, req.input.slot, id)
    requires RequestOk(n.clients, n.book, req) && NetInv(n, max) && reply in UploadReply(n, max, req, id)
    ensures ReplyOk(n.clients, Served(n, max, req.input, id).book, reply)
  {
    hide HistoryMatches, KeysMatch, DisksOk, Inv, SavedOk, CommitTx, RequestsOk, RepliesOk;
    AnswersAreKnown(n, max, req.input, id);
  }

  lemma ServeUploadKeepsNetInv(n: Net, max: int, req: Request, id: HeadId)
    requires NetInv(n, max) && CanStep(n, ServeUpload(req, id))
    ensures NetInv(DoStep(n, max, ServeUpload(req, id)), max)
  {
    assert RequestOk(n.clients, n.book, req);
    ServedKeepsNetInv(n, max, req.input, id);
    forall reply | reply in UploadReply(n, max, req, id)
      ensures ReplyOk(n.clients, Served(n, max, req.input, id).book, reply)
    {
      UploadReplyIsOk(n, max, req, id, reply);
    }
  }

  lemma ReadsAreKnown(n: Net, max: int, slot: Slot, revision: int)
    requires NetInv(n, max)
    ensures GetContent(n.w.db, slot, revision).Some? ==> Known(n.book, GetContent(n.w.db, slot, revision).value.0)
    ensures Listed(n.w.db, slot) ==> Known(n.book, View(n.w.db, slot, n.w.db.heads[slot].current))
  {
  }

  // ---------- Client steps ----------

  // A device that rewrites one directory with sound manifests keeps the invariant.
  lemma ClientKeepsNetInv(n: Net, max: int, dev: DevId, c: Client, place: Place)
    requires NetInv(n, max) && dev in n.clients
    requires n.clients[dev].held <= c.held && n.clients[dev].observed <= c.observed && n.clients[dev].accounts <= c.accounts
    requires c.account.Some? ==> c.account.value in c.accounts
    requires forall p | p in c.disk && p != place :: p in n.clients[dev].disk && c.disk[p] == n.clients[dev].disk[p]
    requires place in c.disk ==> SavedOk(n.clients[dev := c], n.book, dev, place, c.disk[place])
    requires forall o | o in c.bases - n.clients[dev].bases :: BaseOk(n.clients[dev := c], n.book, dev, o.0, o.1, o.2)
    ensures NetInv(n.(clients := n.clients[dev := c]), max)
  {
    hide Inv, HistoryMatches, KeysMatch, RequestsOk, RepliesOk;
    var cs' := n.clients[dev := c];
    MessagesStayOk(n.clients, n.book, cs', n.book, n.sent, n.replies);
    forall d, p | d in cs' && p in cs'[d].disk ensures SavedOk(cs', n.book, d, p, cs'[d].disk[p]) {
      if !(d == dev && p == place) {
        assert SavedOk(n.clients, n.book, d, p, n.clients[d].disk[p]);
      }
    }
    forall d, o | d in cs' && o in cs'[d].bases ensures BaseOk(cs', n.book, d, o.0, o.1, o.2) {
      if d != dev || o in n.clients[dev].bases {
        assert BaseOk(n.clients, n.book, d, o.0, o.1, o.2);
      }
    }
  }

  lemma SignKeepsNetInv(n: Net, max: int, st: Step)
    requires NetInv(n, max) && (st.SignIn? || st.SignOut?) && CanStep(n, st)
    ensures NetInv(DoStep(n, max, st), max)
  {
    hide Inv, HistoryMatches, KeysMatch, RequestsOk, RepliesOk;
    var c := n.clients[st.dev];
    var place := Place("", Battery, "");
    if place in c.disk {
      assert SavedOk(n.clients, n.book, st.dev, place, c.disk[place]);
    }
    match st
    case SignIn(dev, user) =>
      ClientKeepsNetInv(n, max, dev, c.(account := Some(user), accounts := c.accounts + {user}), place);
    case SignOut(dev) => ClientKeepsNetInv(n, max, dev, c.(account := None), place);
  }

  lemma LocalSaveKeepsNetInv(n: Net, max: int, dev: DevId, place: Place, previous: bool, checksum: Digest)
    requires NetInv(n, max) && CanStep(n, LocalSave(dev, place, previous, checksum))
    ensures NetInv(DoStep(n, max, LocalSave(dev, place, previous, checksum)), max)
  {
    hide Inv, HistoryMatches, KeysMatch, RequestsOk, RepliesOk, Hex64;
    var c := n.clients[dev];
    if place in c.disk {
      assert SavedOk(n.clients, n.book, dev, place, c.disk[place]);
    }
    ClientKeepsNetInv(n, max, dev, SaveLocally(c, place, previous, checksum), place);
  }

  lemma OpenImportKeepsNetInv(n: Net, max: int, dev: DevId, place: Place, previous: bool)
    requires NetInv(n, max) && CanStep(n, OpenImport(dev, place, previous))
    ensures NetInv(DoStep(n, max, OpenImport(dev, place, previous)), max)
  {
    hide Inv, HistoryMatches, KeysMatch, RequestsOk, RepliesOk;
    var c := n.clients[dev];
    assert SavedOk(n.clients, n.book, dev, place, c.disk[place]);
    ClientKeepsNetInv(n, max, dev, Opened(c, place, previous), place);
  }

  lemma ImportKeepsNetInv(n: Net, max: int, dev: DevId, place: Place, checksum: Digest, cloud: int, origin: HeadId)
    requires NetInv(n, max) && CanStep(n, Import(dev, place, checksum, cloud, origin))
    ensures NetInv(DoStep(n, max, Import(dev, place, checksum, cloud, origin)), max)
  {
    hide Inv, HistoryMatches, KeysMatch, RequestsOk, RepliesOk, Hex64;
    var c := n.clients[dev];
    if place in c.disk {
      assert SavedOk(n.clients, n.book, dev, place, c.disk[place]);
    }
    if cloud != 0 {
      assert BaseOk(n.clients, n.book, dev, place, cloud, origin);
    }
    ClientKeepsNetInv(n, max, dev, ImportFile(c, place, checksum, cloud, origin), place);
  }

  lemma RemoveKeepsNetInv(n: Net, max: int, dev: DevId, place: Place)
    requires NetInv(n, max) && CanStep(n, RemoveLocal(dev, place))
    ensures NetInv(DoStep(n, max, RemoveLocal(dev, place)), max)
  {
    hide Inv, HistoryMatches, KeysMatch, RequestsOk, RepliesOk;
    var c := n.clients[dev];
    ClientKeepsNetInv(n, max, dev, c.(disk := c.disk - {place}), place);
  }

  lemma FallBackKeepsNetInv(n: Net, max: int, dev: DevId, place: Place)
    requires NetInv(n, max) && CanStep(n, FallBack(dev, place))
    ensures NetInv(DoStep(n, max, FallBack(dev, place)), max)
  {
    hide Inv, HistoryMatches, KeysMatch, RequestsOk, RepliesOk;
    var c := n.clients[dev];
    assert SavedOk(n.clients, n.book, dev, place, c.disk[place]);
    ClientKeepsNetInv(n, max, dev, c.(disk := c.disk[place := Saved(Loaded(c.disk[place], true), None)]), place);
  }

  lemma RebaseKeepsNetInv(n: Net, max: int, dev: DevId, kept: Client, save: SaveView, previous: bool)
    requires NetInv(n, max) && PlaceOf(save.slot) in kept.disk && KnownTo(n.clients, n.book, dev, save)
    requires kept == n.clients[dev].(held := kept.held)
    requires n.clients[dev].held <= kept.held && (PlaceOf(save.slot), save.checksum) in kept.held
    ensures NetInv(n.(clients := n.clients[dev := Rebase(kept, save, previous)]), max)
  {
    hide Inv, HistoryMatches, KeysMatch, RequestsOk, RepliesOk;
    var place := PlaceOf(save.slot);
    assert SavedOk(n.clients, n.book, dev, place, kept.disk[place]);
    ClientKeepsNetInv(n, max, dev, Rebase(kept, save, previous), place);
  }

  lemma AdoptKeepsNetInv(n: Net, max: int, dev: DevId, save: SaveView)
    requires NetInv(n, max) && KnownTo(n.clients, n.book, dev, save)
    ensures NetInv(n.(clients := n.clients[dev := Adopt(n.clients[dev], save)]), max)
  {
    hide Inv, HistoryMatches, KeysMatch, RequestsOk, RepliesOk;
    var place := PlaceOf(save.slot);
    if place in n.clients[dev].disk {
      assert SavedOk(n.clients, n.book, dev, place, n.clients[dev].disk[place]);
    }
    ClientKeepsNetInv(n, max, dev, Adopt(n.clients[dev], save), place);
  }

  lemma SendKeepsNetInv(n: Net, max: int, st: Step)
    requires NetInv(n, max) && (st.SendUpload? || st.SendRestore?) && CanStep(n, st)
    ensures NetInv(DoStep(n, max, st), max)
  {
    hide Inv, HistoryMatches, KeysMatch, Hex64;
    match st
    case SendUpload(dev, previous, i) =>
      assert SavedOk(n.clients, n.book, dev, PlaceOf(i.slot), n.clients[dev].disk[PlaceOf(i.slot)]);
    case SendRestore(reply, source, device, idem) =>
      assert ReplyOk(n.clients, n.book, reply);
      var c := n.clients[reply.dev].(observed := n.clients[reply.dev].observed + {(reply.save.head, reply.save.revision)});
      var place := PlaceOf(reply.save.slot);
      if place in c.disk {
        assert SavedOk(n.clients, n.book, reply.dev, place, c.disk[place]);
      }
      ClientKeepsNetInv(n, max, reply.dev, c, place);
  }

  lemma RowsReferToRows(db: Db, max: int)
    requires Inv(db, max)
    ensures ForeignKeys(db)
  {
  }

  lemma ServerKeepsNetInv(n: Net, max: int, e: Event)
    requires NetInv(n, max) && CanStep(n, Server(e))
    ensures NetInv(DoStep(n, max, Server(e)), max)
  {
    hide HistoryMatches, KeysMatch, DisksOk, Inv, SavedOk;
    InvStep(n.w, max, e);
    RowsReferToRows(NextDb(n.w, max, e), max);
    EventsAreQuiet(n.w, max, e);
    QuietKeepsHistory(n.w.db, NextDb(n.w, max, e), n.book);
  }

  lemma NetInvStep(n: Net, max: int, st: Step)
    requires NetInv(n, max) && CanStep(n, st)
    ensures NetInv(DoStep(n, max, st), max)
  {
    hide HistoryMatches, KeysMatch, DisksOk, Inv, SavedOk;
    match st
    case SignIn(_, _) => SignKeepsNetInv(n, max, st);
    case SignOut(_) => SignKeepsNetInv(n, max, st);
    case LocalSave(dev, place, previous, checksum) => LocalSaveKeepsNetInv(n, max, dev, place, previous, checksum);
    case OpenImport(dev, place, previous) => OpenImportKeepsNetInv(n, max, dev, place, previous);
    case Import(dev, place, checksum, cloud, origin) => ImportKeepsNetInv(n, max, dev, place, checksum, cloud, origin);
    case RemoveLocal(dev, place) => RemoveKeepsNetInv(n, max, dev, place);
    case FallBack(dev, place) => FallBackKeepsNetInv(n, max, dev, place);
    case SendUpload(_, _, _) => SendKeepsNetInv(n, max, st);
    case SendRestore(_, _, _, _) => SendKeepsNetInv(n, max, st);
    case ServeUpload(req, id) => ServeUploadKeepsNetInv(n, max, req, id);
    case ServeRestore(req, i, id) => ServedKeepsNetInv(n, max, i, id);
    case ServeRead(_, slot, revision) => ReadsAreKnown(n, max, slot, revision);
    case ServeList(_, slot) => ReadsAreKnown(n, max, slot, 0);
    case MarkUploaded(reply, previous) =>
      assert ReplyOk(n.clients, n.book, reply);
      RebaseKeepsNetInv(n, max, reply.dev, n.clients[reply.dev], Uploaded(reply), previous);
    case KeepLocal(reply, previous) =>
      assert ReplyOk(n.clients, n.book, reply);
      var c, save := n.clients[reply.dev], reply.save;
      RebaseKeepsNetInv(n, max, reply.dev, c.(held := c.held + {(PlaceOf(save.slot), save.checksum)}), save, previous);
    case TakeCloud(reply) =>
      assert ReplyOk(n.clients, n.book, reply);
      AdoptKeepsNetInv(n, max, reply.dev, reply.save);
    case Server(e) => ServerKeepsNetInv(n, max, e);
  }

  // A device without saves, signed in nowhere.
  const NEW_DEVICE: Client := Client(None, map[], {}, {}, {}, {})

  // Empty tables and new devices.
  function Initial(t0: Time, devices: set<DevId>): Net {
    Net(World(EMPTY, t0), map d | d in devices :: NEW_DEVICE, {}, {}, Book(map[], map[]))
  }

  // What some run of the whole system reaches.
  ghost predicate ReachableNet(n: Net, max: int) {
    max > 0 && exists t0: Time, devices: set<DevId> :: Runs.Reaches(Machine(max), Initial(t0, devices), n)
  }

  lemma ReachableNetInv(n: Net, max: int)
    requires ReachableNet(n, max)
    ensures NetInv(n, max)
  {
    hide NetInv, CanStep, DoStep;
    var t0: Time, devices: set<DevId> :| Runs.Reaches(Machine(max), Initial(t0, devices), n);
    var steps: seq<Step> :| Runs.After(Machine(max), Initial(t0, devices), steps) == Some(n);
    var inv := (x: Net) => NetInv(x, max);
    InitialNetInv(t0, devices, max);
    forall x: Net, st: Step | inv(x) && Machine(max)(x, st).Some?
      ensures inv(Machine(max)(x, st).value)
    {
      NetInvStep(x, max, st);
    }
    Runs.RunKeeps(Machine(max), inv, Initial(t0, devices), steps);
  }

  lemma InitialNetInv(t0: Time, devices: set<DevId>, max: int)
    requires max > 0
    ensures NetInv(Initial(t0, devices), max)
  {
    InitialInv(max);
  }

  lemma ReachMore(n: Net, max: int, st: Step)
    requires ReachableNet(n, max) && CanStep(n, st)
    ensures ReachableNet(DoStep(n, max, st), max)
  {
    hide CanStep, DoStep;
    var t0: Time, devices: set<DevId> :| Runs.Reaches(Machine(max), Initial(t0, devices), n);
    Runs.ReachesMore(Machine(max), Initial(t0, devices), n, st);
  }

  // ---------- No silent overwrite ----------

  // The row with identifier `id` is in the table.
  ghost predicate RowPresent(heads: map<Slot, Head>, id: HeadId) {
    exists s :: s in heads && heads[s].id == id
  }

  // In every run: when an upload adds revision r+1 on top of a live revision r, its device
  // has observed revision r of a head row of this directory, in an account it was signed in to,
  // and has had the content of that version. That row is the one now in the table, so
  // the superseded content is the one the device had, exactly when it is a row of this very slot,
  // not of another account's, and was not purged in between. On a deleted head only base 0
  // is accepted.
  lemma NoSilentOverwrite(n: Net, max: int, req: Request, id: HeadId)
    requires ReachableNet(n, max) && CanStep(n, ServeUpload(req, id))
    requires Appends(n.w.db, max, req.input, id, n.w.now) && req.input.slot in n.w.db.heads
    ensures var i, h := req.input, n.w.db.heads[req.input.slot];
            && i.base == (if h.deletedAt.Some? then 0 else h.current)
            && (h.deletedAt.None? ==>
                  && HeldContent(n.clients, n.book, req.dev, PlaceOf(i.slot), req.origin, h.current)
                  && (req.origin == h.id <==> RowPresent(n.w.db.heads, req.origin) && n.book.owners[req.origin] == i.slot)
                  && (req.origin == h.id ==> HoldsCurrent(n, req.dev, i.slot)))
  {
    ReachableNetInv(n, max);
    assert RequestOk(n.clients, n.book, req);
    var h := n.w.db.heads[req.input.slot];
    if h.deletedAt.None? {
      assert VKey(req.input.slot, h.current) in n.w.db.versions;
      if RowPresent(n.w.db.heads, req.origin) {
        var s :| s in n.w.db.heads && n.w.db.heads[s].id == req.origin;
        assert n.book.owners[req.origin] == s;
      }
    }
  }

  // A device that was never signed in to another account has no other account's revisions.
  lemma OneAccountKeepsLineage(n: Net, max: int, req: Request, id: HeadId)
    requires ReachableNet(n, max) && CanStep(n, ServeUpload(req, id))
    requires Appends(n.w.db, max, req.input, id, n.w.now) && req.input.slot in n.w.db.heads
    requires n.w.db.heads[req.input.slot].deletedAt.None?
    requires req.dev in n.clients && n.clients[req.dev].accounts <= {req.input.slot.user}
    ensures req.origin in n.book.owners && n.book.owners[req.origin] == req.input.slot
    ensures RowPresent(n.w.db.heads, req.origin) ==> HoldsCurrent(n, req.dev, req.input.slot)
  {
    NoSilentOverwrite(n, max, req, id);
    var owner := n.book.owners[req.origin];
    assert owner == SlotAt(owner.user, PlaceOf(owner));
  }

  // The device has had the content of the slot's current version.
  ghost predicate HoldsCurrent(n: Net, dev: DevId, slot: Slot) {
    && dev in n.clients && slot in n.w.db.heads
    && VKey(slot, n.w.db.heads[slot].current) in n.w.db.versions
    && (PlaceOf(slot), n.w.db.versions[VKey(slot, n.w.db.heads[slot].current)].checksum) in n.clients[dev].held
  }

  // A history restore replaces a live revision number that its device has seen listed for this
  // directory; of the row now in the table, under the same condition.
  lemma RestoresAreInformed(n: Net, max: int, req: Request, i: CommitInput, id: HeadId)
    requires ReachableNet(n, max) && CanStep(n, ServeRestore(req, i, id))
    requires Appends(n.w.db, max, i, id, n.w.now)
    ensures i.slot in n.w.db.heads && n.w.db.heads[i.slot].deletedAt.None?
    ensures Seen(n.clients, n.book, req.dev, PlaceOf(i.slot), req.origin, n.w.db.heads[i.slot].current)
    ensures req.origin == n.w.db.heads[i.slot].id
      <==> RowPresent(n.w.db.heads, req.origin) && n.book.owners[req.origin] == i.slot
  {
    ReachableNetInv(n, max);
    assert RequestOk(n.clients, n.book, req);
    if RowPresent(n.w.db.heads, req.origin) {
      var s :| s in n.w.db.heads && n.w.db.heads[s].id == req.origin;
      assert n.book.owners[req.origin] == s;
    }
  }
}
