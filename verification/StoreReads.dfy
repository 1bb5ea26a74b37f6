/**
 What a client can read before and after a transaction: uploads and restores read
 back, deletes hide, and no transaction changes what anybody else reads.
 */
module StoreReads {
  import opened Wrappers
  import opened SaveKeys
  import opened SaveTables
  import opened StoreInvariants
  import StoreTheorems
  import opened SaveStore

  // What an event may change for readers of a slot and a revision (0 for the current one).
  predicate Affects(w: World, e: Event, slot: Slot, revision: int) {
    match e
    case Commit(i, _) => i.slot == slot
    case DeleteSaves(target) => Hits(target, slot)
    case Prune(_, chosen) => VKey(slot, revision) in chosen
    case Purge(_, slots) => slot in slots
    case ProcessJob(job, fault) => job in w.db.jobs && w.db.jobs[job].user == slot.user
    case _ => false
  }

  // Every other event leaves what is read, and what is listed, as it was.
  lemma ReadsAreIsolated(w: World, max: int, e: Event, slot: Slot, revision: int)
    requires Inv(w.db, max) && Enabled(w, e) && !Affects(w, e, slot, revision)
    ensures GetContent(NextDb(w, max, e), slot, revision) == GetContent(w.db, slot, revision)
    ensures Listed(NextDb(w, max, e), slot) == Listed(w.db, slot)
  {
    hide Inv, CommitTx, ProcessTx, PruneTx, PurgeTx, Candidates, OldestOf, Purgeable, LoginTx, RequestDeletionTx, ForgetTx,
      EraseBlocked;
    match e
    case Commit(i, id) => CommitReadsElsewhere(w.db, max, i, id, w.now, slot, revision);
    case ProcessJob(job, fault) => ProcessReadsElsewhere(w.db, job, fault, w.now, slot, revision);
    case Prune(limit, chosen) =>
      ChosenArePrunable(w.db, w.now, limit, chosen);
      PruneReadsElsewhere(w.db, w.now, chosen, slot, revision);
    case Purge(_, slots) => PurgeReadsElsewhere(w.db, slots, w.now, slot, revision);
    case Login(subject, client, user, device, session, expiresAt) => OthersKeepSaves(w, max, e);
    case RequestDeletion(_, _) => OthersKeepSaves(w, max, e);
    case ForgetBlob(_) => OthersKeepSaves(w, max, e);
    case _ =>
  }

  lemma OthersKeepSaves(w: World, max: int, e: Event)
    requires Enabled(w, e) && (e.Login? || e.RequestDeletion? || e.ForgetBlob?)
    ensures NextDb(w, max, e).heads == w.db.heads && NextDb(w, max, e).versions == w.db.versions
  {
  }

  lemma PurgeReadsElsewhere(db: Db, slots: set<Slot>, now: Time, slot: Slot, revision: int)
    requires slot !in slots
    ensures var after := PurgeTx(db, slots, now);
      GetContent(after, slot, revision) == GetContent(db, slot, revision) && Listed(after, slot) == Listed(db, slot)
  {
    hide Release;
  }

  lemma CommitReadsElsewhere(db: Db, max: int, i: CommitInput, id: HeadId, now: Time, slot: Slot, revision: int)
    requires Hex64(i.checksum) && slot != i.slot
    ensures var after := CommitTx(db, max, i, id, now).db;
      GetContent(after, slot, revision) == GetContent(db, slot, revision) && Listed(after, slot) == Listed(db, slot)
  {
    hide CommitTx, Appends, Hex64, CurrentView, GetContent, Listed, AppendVersion, StoreKey;
    NotEmpty(i.checksum);
    CommitCases(db, max, i, id, now);
    var h := HeadRow(db, i.slot, id, now);
    var o := CommitTx(db, max, i, id, now);
    if o.db != db {
      var result := o.result.value;
      KeysReadSame(db, i, result, now, slot, revision);
      KeysReadSame(AppendVersion(db, i, h, now), i, result, now, slot, revision);
      AppendReadsElsewhere(db, i, h, now, slot, revision);
    }
  }

  lemma KeysReadSame(db: Db, i: CommitInput, result: CommitResult, now: Time, slot: Slot, revision: int)
    ensures var after := StoreKey(db, i, result, now);
      GetContent(after, slot, revision) == GetContent(db, slot, revision) && Listed(after, slot) == Listed(db, slot)
  {
  }

  lemma AppendReadsElsewhere(db: Db, i: CommitInput, h: Head, now: Time, slot: Slot, revision: int)
    requires slot != i.slot
    ensures var after := AppendVersion(db, i, h, now);
      GetContent(after, slot, revision) == GetContent(db, slot, revision) && Listed(after, slot) == Listed(db, slot)
  {
    hide GetContent, Listed;
    SameRows(db, AppendVersion(db, i, h, now), slot, revision);
  }

  // Reads depend on the slot's own rows only.
  lemma SameRows(db: Db, after: Db, slot: Slot, revision: int)
    requires slot in after.heads <==> slot in db.heads
    requires slot in db.heads ==> after.heads[slot] == db.heads[slot]
    requires forall k: VKey | k.slot == slot :: k in after.versions <==> k in db.versions
    requires forall k: VKey | k.slot == slot && k in db.versions :: after.versions[k] == db.versions[k]
    ensures GetContent(after, slot, revision) == GetContent(db, slot, revision) && Listed(after, slot) == Listed(db, slot)
  {
  }

  lemma AppendsContent(db: Db, max: int, i: CommitInput, id: HeadId, now: Time)
    requires Appends(db, max, i, id, now)
    ensures i.checksum != ""
  {
    NotEmpty(i.checksum);
  }

  lemma ProcessReadsElsewhere(db: Db, job: JobId, fault: Fault, now: Time, slot: Slot, revision: int)
    requires job in db.jobs && db.jobs[job].user in db.users && slot.user != db.jobs[job].user
    ensures var after := ProcessTx(db, job, fault, now);
      GetContent(after, slot, revision) == GetContent(db, slot, revision) && Listed(after, slot) == Listed(db, slot)
  {
    hide EraseBlocked, Release;
  }

  // Pruning never takes the current version, so revision 0 is safe too.
  lemma PruneReadsElsewhere(db: Db, now: Time, chosen: set<VKey>, slot: Slot, revision: int)
    requires chosen <= Candidates(db, now) && VKey(slot, revision) !in chosen
    ensures var after := PruneTx(db, chosen, now);
      GetContent(after, slot, revision) == GetContent(db, slot, revision) && Listed(after, slot) == Listed(db, slot)
  {
    hide Release;
    if slot in db.heads {
      assert VKey(slot, db.heads[slot].current) !in chosen;
    }
  }

  // A commit that appends is read back as the current content, with the next revision.
  // Older revisions of a live head read as before; those of a deleted head come back.
  lemma CommitReadsBack(db: Db, max: int, i: CommitInput, id: HeadId, now: Time, revision: int)
    requires Appends(db, max, i, id, now)
    ensures var after, h := CommitTx(db, max, i, id, now).db, HeadRow(db, i.slot, id, now);
      && GetContent(after, i.slot, 0)
           == Some((SaveView(i.slot, h.id, h.current + 1, i.checksum, i.size, i.core), i.blob))
      && (0 < revision <= h.current ==>
            (GetContent(after, i.slot, revision).Some? <==> Live(db.versions, VKey(i.slot, revision))))
      && (0 < revision <= h.current && h.deletedAt.None? ==>
            GetContent(after, i.slot, revision) == GetContent(db, i.slot, revision))
  {
    hide UsedBytes, RowChecks, CommitTx;
    AppendsContent(db, max, i, id, now);
    CommitCases(db, max, i, id, now);
  }

  // Restoring revision r makes its content current again, as a new revision; r itself stays.
  lemma RestoreReproducesSource(db: Db, max: int, i: RestoreInput, id: HeadId, now: Time)
    requires Inv(db, max) && i.source > 0 && GetContent(db, i.slot, i.source).Some?
    requires Appends(db, max, RestoreCommit(i, GetContent(db, i.slot, i.source).value), id, now)
    ensures var source, after := GetContent(db, i.slot, i.source).value, RestoreTx(db, max, i, id, now).db;
      && GetContent(after, i.slot, 0) == Some((source.0.(revision := db.heads[i.slot].current + 1), source.1))
      && GetContent(after, i.slot, i.source) == Some(source)
  {
    hide Appends, CommitTx, Inv;
    SourceIsOlder(db, max, i.slot, i.source);
    CommitReadsBack(db, max, RestoreCommit(i, GetContent(db, i.slot, i.source).value), id, now, i.source);
  }

  lemma SourceIsOlder(db: Db, max: int, slot: Slot, revision: int)
    requires Inv(db, max) && revision > 0 && GetContent(db, slot, revision).Some?
    ensures revision <= db.heads[slot].current
  {
    assert Gapless(db);
    assert VKey(slot, revision) in db.versions;
  }

  // A delete hides exactly the heads it names, and frees no quota: versions and blobs stay.
  lemma DeleteHides(db: Db, t: Target, now: Time, slot: Slot, revision: int)
    requires DeleteTx(db, t, now).result.Ok?
    ensures var after := DeleteTx(db, t, now).db;
      && after.versions == db.versions && after.blobs == db.blobs
      && (Hits(t, slot) ==> GetContent(after, slot, revision) == None && !Listed(after, slot))
      && (!Hits(t, slot) ==> GetContent(after, slot, revision) == GetContent(db, slot, revision))
  {
  }

  predicate SessionActive(db: Db, u: UserId, s: SessionId, now: Time) {
    && s in db.sessions && db.sessions[s].user == u && db.sessions[s].revokedAt.None? && db.sessions[s].expiresAt > now
    && u in db.users && db.users[u].status == Active
  }

  // A login succeeds exactly for a new or active user, opens this session and closes none.
  lemma LoginOpensSession(db: Db, subject: Subject, client: string, u: UserId, d: DeviceId, s: SessionId, expiresAt: Time, now: Time)
    requires LoginRows(db, subject, client, u, d, s) && expiresAt > now
    ensures var o := LoginTx(db, subject, client, u, d, s, expiresAt);
      && (o.result.Ok? <==> u !in db.users || db.users[u].status == Active)
      && (o.result.Ok? ==> SessionActive(o.db, u, s, now) && o.db.users[u].subject == subject)
      && (o.result.Err? ==> o.db == db)
      && forall v: UserId, t | SessionActive(db, v, t, now) :: SessionActive(o.db, v, t, now)
  {
  }

  // From a deletion request on, no session of the account is active, in any run.
  lemma DeletionEndsSessions(w: World, max: int, u: UserId, job: JobId, es: seq<Event>, s: SessionId)
    requires Inv(w.db, max) && RequestDeletionTx(w.db, u, job, w.now).result.Ok?
    requires Legal(Next(w, max, RequestDeletion(u, job)), max, es)
    ensures var w' := Run(Next(w, max, RequestDeletion(u, job)), max, es); !SessionActive(w'.db, u, s, w'.now)
  {
    InvStep(w, max, RequestDeletion(u, job));
    StoreTheorems.StatusRun(Next(w, max, RequestDeletion(u, job)), max, es, u);
  }

}
