/**
 One-byte saves, for the concrete runs that show where an assumption
 of a theorem is needed.
 */
module Scenarios {
  import opened Wrappers
  import opened SaveKeys
  import opened SaveTables
  import opened StoreInvariants

  function Digits(c: char): Digest {
    seq(64, _ => c)
  }

  function OneByte(slot: Slot, base: int, checksum: Digest, idem: IdemKey): CommitInput {
    CommitInput(slot, base, checksum, checksum, 1, "core", None, idem, UploadPrint(slot, base, checksum, "core", None))
  }

  function SlotOf(user: UserId, kind: Kind, name: string): Slot {
    Slot(user, Digits('0'), kind, name)
  }

  lemma SlotsAreValid()
    ensures Hex64(Digits('0')) && SlotName("0") && SlotName("current")
  {
  }

  lemma DigitsDiffer(c: char, d: char)
    requires c != d && LowerHex(c)
    ensures Hex64(Digits(c)) && Digits(c) != Digits(d)
  {
    assert Digits(c)[0] != Digits(d)[0];
  }

  predicate SmallBlobs(blobs: map<Digest, Blob>) {
    forall d | d in blobs :: blobs[d].size == 1
  }

  // The next version of a slot, for an active user with room for it.
  lemma OneByteAppends(db: Db, slot: Slot, base: nat, checksum: Digest, idem: IdemKey, id: HeadId, now: Time)
    requires Hex64(slot.rom) && SlotName(slot.name) && Hex64(checksum) && base < 100
    requires slot.user in db.users && db.users[slot.user].status == Active && SmallBlobs(db.blobs)
    requires IdemId(slot.user, idem) !in db.keys && UsedBytes(db.versions, slot.user) < 10
    requires base == 0 ==>
      slot !in db.heads && VKey(slot, 1) !in db.versions && forall s | s in db.heads :: db.heads[s].id != id
    requires base > 0 ==>
      && slot in db.heads && db.heads[slot].current == base && db.heads[slot].deletedAt.None?
      && VKey(slot, base) in db.versions && VKey(slot, base + 1) !in db.versions
    ensures Appends(db, 10, OneByte(slot, base, checksum, idem), id, now)
  {
    hide Hex64, UsedBytes;
  }

  lemma NothingUsed(vs: map<VKey, Version>, u: UserId)
    requires forall k | k in vs :: k.slot.user != u
    ensures UsedBytes(vs, u) == 0
  {
    assert LiveOf(vs, u) == {};
  }
}
