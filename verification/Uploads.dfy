/**
 An upload from the request to the tables: validation, the content-addressed blob
 directory and the commit. File and reader calls may fail at any point; calls of
 other requests come between them only in BlobGc.
 */
module Uploads {
  import opened Wrappers
  import opened SaveKeys
  import opened SaveTables
  import opened StoreInvariants
  import opened SaveStore
  import opened StoreReads
  import opened BlobGc

  type Bytes = seq<bv8>

  type Sha = Bytes -> Digest

  datatype PutError = InvalidDigest | TooLarge | Empty | ChecksumMismatch | IoError

  datatype PutResult = PutResult(digest: Digest, size: nat)

  // Every file's content has the digest that names it.
  predicate ContentAddressed(sha: Sha, files: map<Digest, Bytes>) {
    forall d | d in files :: sha(files[d]) == d
  }

  class FSStore {
    const sha: Sha
    var files: map<Digest, Bytes>
    var temporary: set<nat> // unfinished uploads and files whose removal failed
    ghost var faults: nat // file and reader calls that failed

    constructor (sha: Sha)
      ensures files == map[] && temporary == {} && this.sha == sha
    {
      this.sha := sha;
      files, temporary, faults := map[], {}, 0;
    }

    // `name` is the new temporary file. A caller's limit and digest are enforced before
    // anything becomes visible; a failure after that can leave the file in place. The temporary
    // file is gone after a success; after a failure its removal may have failed too.
    method Put(name: nat, src: Bytes, maxBytes: int, expected: Digest) returns (r: Result<PutResult, PutError>)
      requires ContentAddressed(sha, files) && name !in temporary
      modifies this
      ensures ContentAddressed(sha, files)
      ensures temporary == old(temporary) || (r.Err? && temporary == old(temporary) + {name})
      ensures r.Ok? ==>
        && 0 < |src| <= maxBytes && (expected == "" || expected == sha(src))
        && r.value == PutResult(sha(src), |src|) && sha(src) in files
      ensures files == old(files) || (sha(src) !in old(files) && files == old(files)[sha(src) := src])
      ensures files != old(files) ==> 0 < |src| <= maxBytes && (expected == "" || expected == sha(src))
      ensures r == Err(TooLarge) ==> |src| > maxBytes
      ensures r == Err(ChecksumMismatch) ==> expected != sha(src)
      ensures faults >= old(faults)
      ensures faults == old(faults) ==>
        r == if maxBytes <= 0 then Err(IoError)
             else if expected != "" && !Hex64(expected) then Err(InvalidDigest)
             else if |src| > maxBytes then Err(TooLarge)
             else if |src| == 0 then Err(Empty)
             else if expected != "" && expected != sha(src) then Err(ChecksumMismatch)
             else Ok(PutResult(sha(src), |src|))
    {
      if maxBytes <= 0 {
        return Err(IoError);
      }
      if expected != "" && !Hex64(expected) {
        return Err(InvalidDigest);
      }
      if * {
        faults := faults + 1;
        return Err(IoError);
      }
      temporary := temporary + {name};
      r := PutTemporary(src, maxBytes, expected);
      if r.Ok? {
        var removed := RemoveTemporary(name);
        if removed {
          if * {
            r, faults := Err(IoError), faults + 1; // syncing the directory
          }
          return;
        }
        r := Err(IoError);
      }
      var _ := RemoveTemporary(name); // deferred, its error ignored
    }

    method RemoveTemporary(name: nat) returns (ok: bool)
      modifies this`temporary, this`faults
      ensures temporary == if ok then old(temporary) - {name} else old(temporary)
      ensures faults == if ok then old(faults) else old(faults) + 1
    {
      ok := true;
      if * {
        ok, faults := false, faults + 1;
      } else {
        temporary := temporary - {name};
      }
    }

    // The part of `Put` that writes the temporary file and links it.
    method PutTemporary(src: Bytes, maxBytes: int, expected: Digest) returns (r: Result<PutResult, PutError>)
      requires ContentAddressed(sha, files) && maxBytes > 0
      modifies this`files, this`faults
      ensures ContentAddressed(sha, files)
      ensures r.Ok? ==>
        && 0 < |src| <= maxBytes && (expected == "" || expected == sha(src))
        && r.value == PutResult(sha(src), |src|) && sha(src) in files
      ensures files == old(files) || (sha(src) !in old(files) && files == old(files)[sha(src) := src])
      ensures files != old(files) ==> 0 < |src| <= maxBytes && (expected == "" || expected == sha(src))
      ensures r == Err(TooLarge) ==> |src| > maxBytes
      ensures r == Err(ChecksumMismatch) ==> expected != sha(src)
      ensures faults >= old(faults)
      ensures faults == old(faults) ==>
        r == if |src| > maxBytes then Err(TooLarge)
             else if |src| == 0 then Err(Empty)
             else if expected != "" && expected != sha(src) then Err(ChecksumMismatch)
             else Ok(PutResult(sha(src), |src|))
    {
      var taken := if |src| > maxBytes + 1 then src[..maxBytes + 1] else src; // io.LimitReader
      if * {
        faults := faults + 1;
        return Err(IoError);
      }
      if |taken| > maxBytes {
        return Err(TooLarge);
      }
      if |taken| == 0 {
        return Err(Empty);
      }
      var digest := sha(taken);
      if expected != "" && digest != expected {
        return Err(ChecksumMismatch);
      }
      var linked := true;
      if * {
        linked, faults := false, faults + 1;
      }
      if linked && digest !in files {
        files := files[digest := taken];
      } else if digest !in files {
        return Err(IoError);
      }
      return Ok(PutResult(digest, |taken|));
    }

    method Delete(digest: Digest) returns (ok: bool)
      requires ContentAddressed(sha, files)
      modifies this`files, this`faults
      ensures ContentAddressed(sha, files)
      ensures files == if ok then old(files) - {digest} else old(files)
      ensures ok ==> Hex64(digest)
      ensures faults >= old(faults) && (faults == old(faults) ==> (ok <==> Hex64(digest)))
    {
      if !Hex64(digest) {
        return false;
      }
      if * {
        faults := faults + 1;
        return false;
      }
      files := files - {digest};
      return true;
    }
  }

  datatype Upload = Upload(
    slot: Slot, base: int, expected: Digest, core: string, device: Option<DeviceId>, idem: IdemKey, body: Bytes)

  function KindName(kind: Kind): string {
    match kind
    case Battery => "battery"
    case State => "state"
    case AutoState => "auto_state"
  }

  predicate ValidSlot(slot: Slot) {
    ValidKey(Key(slot.rom, KindName(slot.kind), slot.name))
  }

  datatype UploadError = Invalid | NotStored(put: PutError) | NotCommitted(store: StoreError)

  // What the commit has to carry when the body has the digest the client announced.
  ghost function Sent(u: Upload): CommitInput {
    CommitInput(u.slot, u.base, u.expected, u.expected, |u.body|, u.core, u.device, u.idem,
                UploadPrint(u.slot, u.base, u.expected, u.core, u.device))
  }

  // The one battery save, the five state slots and the automatic state of a ROM.
  predicate Acceptable(u: Upload) {
    && Hex64(u.slot.rom) && u.base >= 0 && Hex64(u.expected) && 1 <= |u.core| <= 128
    && match u.slot.kind
       case Battery => u.slot.name == "current"
       case State => u.slot.name in {"0", "1", "2", "3", "4"}
       case AutoState => u.slot.name == "auto"
  }

  lemma AcceptableSlots(u: Upload)
    ensures Acceptable(u) <==> ValidSlot(u.slot) && u.base >= 0 && Hex64(u.expected) && 1 <= |u.core| <= 128
  {
    hide Hex64;
  }

  class Service {
    const store: Store
    const blobs: FSStore
    const maxBatteryBytes: int
    const maxStateBytes: int

    constructor (store: Store, blobs: FSStore, maxBatteryBytes: int, maxStateBytes: int)
      ensures this.store == store && this.blobs == blobs
      ensures this.maxBatteryBytes == maxBatteryBytes && this.maxStateBytes == maxStateBytes
    {
      this.store, this.blobs, this.maxBatteryBytes, this.maxStateBytes := store, blobs, maxBatteryBytes, maxStateBytes;
    }

    // The tables keep their invariant and every live version its file, whose content has its digest.
    ghost predicate Valid()
      reads store, blobs
    {
      && Inv(store.Tables(), store.maxUserBytes)
      && ContentAddressed(blobs.sha, blobs.files)
      && LiveFilesExist(store.Tables(), blobs.files.Keys)
    }

    ghost function Limit(kind: Kind): int {
      if kind == Battery then maxBatteryBytes else maxStateBytes
    }

    // A success means that this content is stored and, unless it only replays an earlier
    // answer, is now the slot's current content for every reader. Nothing is stored
    // for a request that fails validation, and when no call fails the commit decides.
    method UploadSave(u: Upload, temporary: nat, id: HeadId, now: Time) returns (r: Result<CommitResult, UploadError>)
      requires Valid() && temporary !in blobs.temporary
      modifies store, blobs
      ensures Valid()
      ensures !Acceptable(u) ==>
        r == Err(Invalid) && store.Tables() == old(store.Tables()) && blobs.files == old(blobs.files)
      ensures r.Ok? ==>
        && blobs.sha(u.body) == u.expected && u.expected in blobs.files
        && Acceptable(u) && 0 < |u.body| <= Limit(u.slot.kind)
        && Outcome(store.Tables(), Ok(r.value))
           == CommitTx(old(store.Tables()), store.maxUserBytes, Sent(u), id, now)
      ensures r.Ok? && !r.value.replay ==>
        var c := GetContent(store.Tables(), u.slot, 0);
        c.Some? && c.value.0.checksum == u.expected && c.value.1 in blobs.files && blobs.sha(blobs.files[c.value.1]) == c.value.1
      ensures r.Err? ==> store.Tables() == old(store.Tables())
      ensures blobs.faults == old(blobs.faults) && Acceptable(u) && 0 < |u.body| <= Limit(u.slot.kind) && blobs.sha(u.body) == u.expected ==>
        r == match CommitTx(old(store.Tables()), store.maxUserBytes, Sent(u), id, now).result
             case Ok(result) => Ok(result)
             case Err(e) => Err(NotCommitted(e))
    {
      hide Inv, CommitTx, LiveFilesExist, GetContent, ValidSlot, Hex64, Acceptable;
      AcceptableSlots(u);
      if !ValidSlot(u.slot) || u.base < 0 || !Hex64(u.expected) || |u.core| == 0 || |u.core| > 128 {
        return Err(Invalid);
      }
      var limit := if u.slot.kind == Battery then maxBatteryBytes else maxStateBytes;
      ghost var before, files := store.Tables(), blobs.files.Keys;
      var stored := blobs.Put(temporary, u.body, limit, u.expected);
      MoreFiles(before, files, blobs.files.Keys);
      if stored.Err? {
        return Err(NotStored(stored.error));
      }
      NotEmpty(u.expected);
      var digest, size := stored.value.digest, stored.value.size;
      var input := CommitInput(u.slot, u.base, digest, digest, size, u.core, u.device, u.idem,
                               UploadPrint(u.slot, u.base, digest, u.core, u.device));
      CommitKeepsFiles(before, store.maxUserBytes, input, id, now, blobs.files.Keys);
      var committed := store.Commit(input, id, now);
      if committed.Err? {
        ErrorsChangeNothing(before, store.maxUserBytes, input, id, now);
        return Err(NotCommitted(committed.error));
      }
      if !committed.value.replay {
        CommittedIsCurrent(before, store.maxUserBytes, input, id, now);
        CurrentHasFile(store.Tables(), u.slot, blobs.files.Keys);
      }
      return Ok(committed.value);
    }
  }

  lemma MoreFiles(db: Db, files: set<Digest>, more: set<Digest>)
    requires LiveFilesExist(db, files) && files <= more
    ensures LiveFilesExist(db, more)
  {
  }

  lemma CommitKeepsFiles(db: Db, max: int, i: CommitInput, id: HeadId, now: Time, files: set<Digest>)
    requires LiveFilesExist(db, files) && i.blob in files && i.checksum != ""
    ensures LiveFilesExist(CommitTx(db, max, i, id, now).db, files)
  {
    CommitTouchesOneBlob(World(db, now), max, i, id);
  }

  // A success that is no replay leaves the content sent as the current content, whether
  // it was appended or was there already.
  lemma CommittedIsCurrent(db: Db, max: int, i: CommitInput, id: HeadId, now: Time)
    requires Inv(db, max) && Hex64(i.checksum)
    requires var o := CommitTx(db, max, i, id, now); o.result.Ok? && !o.result.value.replay
    ensures var c := GetContent(CommitTx(db, max, i, id, now).db, i.slot, 0); c.Some? && c.value.0.checksum == i.checksum
  {
    if Appends(db, max, i, id, now) {
      CommitReadsBack(db, max, i, id, now, 0);
    } else {
      NotEmpty(i.checksum);
      EqualIsCurrent(db, max, i, id, now);
      if db.heads[i.slot].current > 0 {
        CurrentRow(db, max, i.slot);
      }
      hide CommitTx, Appends, Inv, Hex64;
    }
  }

  // The equal-checksum shortcut found this content current, and changes no save row.
  lemma EqualIsCurrent(db: Db, max: int, i: CommitInput, id: HeadId, now: Time)
    requires i.checksum != "" && !Appends(db, max, i, id, now)
    requires var o := CommitTx(db, max, i, id, now); o.result.Ok? && !o.result.value.replay
    ensures var o := CommitTx(db, max, i, id, now);
      && o.db.versions == db.versions && o.db.heads == db.heads && i.slot in db.heads
      && ChecksumOf(CurrentView(db, i.slot, db.heads[i.slot])) == i.checksum
  {
    hide UsedBytes, RowChecks;
    if i.slot in db.heads {
      assert db.heads[i.slot := db.heads[i.slot]] == db.heads;
    }
  }

  lemma CurrentRow(db: Db, max: int, slot: Slot)
    requires Inv(db, max) && slot in db.heads && db.heads[slot].current > 0
    ensures Live(db.versions, VKey(slot, db.heads[slot].current))
  {
    assert CurrentRowsLive(db.heads, db.versions);
  }

  lemma CurrentHasFile(db: Db, slot: Slot, files: set<Digest>)
    requires LiveFilesExist(db, files) && GetContent(db, slot, 0).Some?
    ensures GetContent(db, slot, 0).value.1 in files
  {
  }
}
