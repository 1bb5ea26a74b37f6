/**
 What the single steps of a device leave in its save directory, and that they lead
 somewhere: a stale upload is refused with the current save, and a device that has
 settled the refusal uploads successfully on top of it.
 */
module SyncProgress {
  import opened Wrappers
  import opened SaveKeys
  import opened SaveTables
  import opened StoreInvariants
  import opened SyncProtocol
  import StoreAnswers

  // The steps that take a cloud revision over: after an upload, in favour of the local
  // save, or in favour of the cloud save.
  predicate Settles(st: Step) {
    match st
    case MarkUploaded(reply, _) => reply.Stored? || reply.Refused?
    case KeepLocal(reply, _) => reply.Content?
    case TakeCloud(reply) => reply.Content?
    case _ => false
  }

  // The save whose revision is taken over.
  function Answer(st: Step): SaveView
    requires Settles(st)
  {
    match st
    case MarkUploaded(reply, _) => if reply.Stored? then reply.save else reply.current
    case KeepLocal(reply, _) => reply.save
    case TakeCloud(reply) => reply.save
  }

  // Nothing changes but the directory, and there only the manifest pair.
  ghost predicate OnlyManifest(n: Net, m: Net, dev: DevId, place: Place) {
    && m == n.(clients := m.clients) && m.clients.Keys == n.clients.Keys && dev in n.clients
    && (forall d | d in n.clients && d != dev :: m.clients[d] == n.clients[d])
    && m.clients[dev].account == n.clients[dev].account
    && (forall p | p != place :: p in m.clients[dev].disk <==> p in n.clients[dev].disk)
    && (forall p | p in n.clients[dev].disk && p != place :: m.clients[dev].disk[p] == n.clients[dev].disk[p])
    && place in m.clients[dev].disk
    && m.clients[dev].disk[place].previous
       == if place in n.clients[dev].disk then Some(n.clients[dev].disk[place].current) else None
  }

  // Each of them leaves a manifest that names the answer's revision and head, with the local
  // save's number and checksum or, when the cloud save is taken, a new number and its checksum.
  lemma SettlingTakesRevisionOver(n: Net, max: int, st: Step)
    requires CanStep(n, st) && Settles(st)
    ensures var m, dev, place := DoStep(n, max, st), st.reply.dev, PlaceOf(Answer(st).slot);
      && OnlyManifest(n, m, dev, place)
      && var kept := m.clients[dev].disk[place].current;
         && kept.cloud == Answer(st).revision && kept.origin == Answer(st).head
         && (Answer(st).head, Answer(st).revision) in m.clients[dev].observed
         && (!st.TakeCloud? && !st.previous ==>
               && kept.checksum == n.clients[dev].disk[place].current.checksum
               && kept.local == n.clients[dev].disk[place].current.local)
         && (!st.TakeCloud? && st.previous && n.clients[dev].disk[place].previous.Some? ==>
               && kept.checksum == n.clients[dev].disk[place].previous.value.checksum
               && kept.local == n.clients[dev].disk[place].previous.value.local)
         && (st.TakeCloud? ==>
               && kept.checksum == Answer(st).checksum
               && kept.local == 1 + (if place in n.clients[dev].disk then n.clients[dev].disk[place].current.local else 0))
         && (!st.MarkUploaded? ==> (place, Answer(st).checksum) in m.clients[dev].held)
  {
  }

  // A local save keeps the base of the manifest it read, and an import takes the one its dialog read.
  lemma SavingKeepsBase(n: Net, max: int, st: Step)
    requires CanStep(n, st) && (st.LocalSave? || st.Import?)
    ensures var m, old_ := DoStep(n, max, st), n.clients[st.dev].disk;
      && OnlyManifest(n, m, st.dev, st.place)
      && var saved := m.clients[st.dev].disk[st.place].current;
         && saved.checksum == st.checksum && (st.place, st.checksum) in m.clients[st.dev].held
         && (st.Import? ==> saved.cloud == st.cloud && saved.origin == st.origin)
         && (st.LocalSave? && st.place !in old_ ==> saved == Manifest(1, 0, st.checksum, 0))
         && (st.LocalSave? && st.place in old_ && !st.previous ==>
               && saved.cloud == old_[st.place].current.cloud && saved.origin == old_[st.place].current.origin
               && saved.local == old_[st.place].current.local + 1)
  {
  }

  // A removed save is forgotten with its base: the next local save starts at revision 1 on base 0. A lost
  // manifest.json is replaced by the previous manifest, and its base with it.
  lemma RemovalForgetsBase(n: Net, max: int, st: Step, checksum: Digest)
    requires CanStep(n, st) && (st.RemoveLocal? || st.FallBack?) && Hex64(checksum)
    ensures var m := DoStep(n, max, st);
      && (st.RemoveLocal? ==> st.place !in m.clients[st.dev].disk)
      && (st.FallBack? && n.clients[st.dev].disk[st.place].previous.Some? ==>
            m.clients[st.dev].disk[st.place] == Saved(n.clients[st.dev].disk[st.place].previous.value, None))
      && CanStep(m, LocalSave(st.dev, st.place, false, checksum))
      && var saved := DoStep(m, max, LocalSave(st.dev, st.place, false, checksum)).clients[st.dev].disk[st.place];
         && (st.RemoveLocal? ==> saved == Saved(Manifest(1, 0, checksum, 0), None))
         && (st.FallBack? && n.clients[st.dev].disk[st.place].previous.Some? ==>
               saved.current.cloud == n.clients[st.dev].disk[st.place].previous.value.cloud)
  {
    hide Hex64;
  }

  // A history restore asks the account signed in to for the revision chosen, over the one listed.
  lemma RestoreAsksOverListed(n: Net, max: int, st: Step)
    requires CanStep(n, st) && st.SendRestore?
    ensures var m, save := DoStep(n, max, st), st.reply.save;
      var slot := Slot(n.clients[st.reply.dev].account.value, save.slot.rom, save.slot.kind, save.slot.name);
      && m == n.(sent := m.sent, clients := m.clients)
      && m.sent == n.sent + {RestoreReq(st.reply.dev, slot, st.source, save.revision, st.device, st.idem, save.head)}
      && (save.head, save.revision) in m.clients[st.reply.dev].observed
      && m.clients[st.reply.dev].disk == n.clients[st.reply.dev].disk
  {
  }

  // Reads and listings answer what the store holds, to the device that asked, and change nothing.
  lemma ReadsAnswerTheStore(n: Net, max: int, st: Step)
    requires ReachableNet(n, max) && CanStep(n, st) && (st.ServeRead? || st.ServeList?)
    ensures var c := GetContent(n.w.db, st.slot, if st.ServeRead? then st.revision else 0);
      && c.Some?
      && DoStep(n, max, st)
         == n.(replies := n.replies + {if st.ServeRead? then Content(st.dev, c.value.0) else Listing(st.dev, c.value.0)})
  {
    hide ReachableNet, Inv;
    StoreInv(n, max);
    if st.ServeList? {
      ListedIsRead(n.w.db, max, st.slot);
    }
  }

  lemma ListedIsRead(db: Db, max: int, slot: Slot)
    requires Inv(db, max) && Listed(db, slot)
    ensures GetContent(db, slot, 0).Some? && GetContent(db, slot, 0).value.0 == View(db, slot, db.heads[slot].current)
  {
    hide Inv;
    StoreAnswers.InvHistory(db, max);
    assert db.heads[slot].current > 0;
  }

  // A valid upload whose key the server has not stored.
  ghost predicate ValidUpload(n: Net, req: Request, id: HeadId) {
    && req.UploadReq? && CanStep(n, ServeUpload(req, id)) && StoreAnswers.ValidRequest(n.w.db, req.input, id)
    && IdemId(req.input.slot.user, req.input.idem) !in n.w.db.keys
  }

  // An upload on a stale base with other content is refused with the save that is current, and nothing changes.
  lemma StaleUploadIsRefused(n: Net, max: int, req: Request, id: HeadId, current: SaveView)
    requires ReachableNet(n, max) && ValidUpload(n, req, id)
    requires StoreAnswers.ReadView(n.w.db, req.input.slot) == Some(current)
    requires req.input.base != current.revision && req.input.checksum != current.checksum
    ensures DoStep(n, max, ServeUpload(req, id))
      == n.(replies := n.replies + {Refused(req.dev, req.input.checksum, current)})
  {
    hide ReachableNet, Inv, CommitTx, UsedBytes, Hex64, SlotName;
    StoreInv(n, max);
    StoreAnswers.CommitAnswers(n.w.db, max, req.input, id, n.w.now);
    NotEmpty(req.input.checksum);
    NotAppended(n.w.db, max, req.input, id, n.w.now);
  }

  lemma StoreInv(n: Net, max: int)
    requires ReachableNet(n, max)
    ensures Inv(n.w.db, max)
  {
    hide ReachableNet, Inv;
    ReachableNetInv(n, max);
  }

  lemma NotAppended(db: Db, max: int, i: CommitInput, id: HeadId, now: Time)
    requires i.checksum != "" && CommitTx(db, max, i, id, now).result.Err?
    ensures !Appends(db, max, i, id, now)
  {
    CommitCases(db, max, i, id, now);
  }

  // After settling against the save that is current, the device's next upload has the current
  // revision as its base. With quota and rows in order it is stored, and the content it
  // sends becomes the current save.
  lemma SettledDeviceUploads(n: Net, max: int, st: Step, i: CommitInput, id: HeadId)
    requires ReachableNet(n, max) && CanStep(n, st) && Settles(st)
    requires i.slot == Answer(st).slot && StoreAnswers.ReadView(n.w.db, i.slot) == Some(Answer(st))
    requires CanStep(DoStep(n, max, st), SendUpload(st.reply.dev, false, i)) && Hex64(i.checksum)
    ensures i.base == n.w.db.heads[i.slot].current
    ensures IdemId(i.slot.user, i.idem) !in n.w.db.keys && i.slot.user in n.w.db.users && n.w.db.users[i.slot.user].status == Active
      && UsedBytes(n.w.db.versions, i.slot.user) + i.size <= max && StoreAnswers.Storable(n.w.db, i)
      ==> var o := CommitTx(n.w.db, max, i, id, n.w.now);
          && o.result.Ok? && StoreAnswers.ReadView(o.db, i.slot) == Some(o.result.value.save)
          && o.result.value.save.checksum == DoStep(n, max, st).clients[st.reply.dev].disk[PlaceOf(i.slot)].current.checksum
          && o.result.value.save.revision == i.base + 1
  {
    hide ReachableNet, Inv, CommitTx, UsedBytes, Hex64, SlotName;
    StoreInv(n, max);
    SettlingTakesRevisionOver(n, max, st);
    SlotIsValid(n.w.db, max, i.slot);
    if IdemId(i.slot.user, i.idem) !in n.w.db.keys && i.slot.user in n.w.db.users {
      StoreAnswers.CommitAnswers(n.w.db, max, i, id, n.w.now);
    }
  }

  lemma SlotIsValid(db: Db, max: int, slot: Slot)
    requires Inv(db, max) && slot in db.heads
    ensures Hex64(slot.rom) && SlotName(slot.name)
  {
    assert ChecksKept(db);
  }
}
