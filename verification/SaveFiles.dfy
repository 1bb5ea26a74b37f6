/**
 Local saves as four files, current.bin and manifest.json and the `.previous`
 file of each, rewritten by unlink and rename steps. A crash can stop a commit
 after any step, so every disk state the program passes through is recorded in
 `trace`, and the theorems speak of every recorded state.
 */
module SaveFiles {
  import opened Wrappers
  import opened SaveKeys

  type Bytes = seq<bv8>

  const SCHEMA: int := 1

  datatype SaveManifest = SaveManifest(
    schema: int, key: Key, checksum: string, size: nat, core: string, localRevision: nat, cloudRevision: nat)

  // A file holds bytes, a manifest, or text that does not parse.
  datatype Content = Data(bytes: Bytes) | Json(manifest: SaveManifest) | Torn

  datatype Name = Current | CurrentPrevious | Manifest | ManifestPrevious | Temporary(id: nat)

  type Disk = map<Name, Content>

  type Sha = Bytes -> string

  datatype Error = EmptySave | InvalidManifest | NoSuchSave | NoCopy | BadCopy | WriteFailed

  datatype Stored = Stored(manifest: SaveManifest, bytes: Bytes, recovered: bool)

  function At(s: Disk, n: Name): Option<Content> {
    if n in s then Some(s[n]) else None
  }

  // ---------- Reading ----------

  // Length and checksum agree.
  predicate Describes(sha: Sha, m: SaveManifest, b: Bytes) {
    |b| == m.size && sha(b) == m.checksum
  }

  predicate Ours(key: Key, m: SaveManifest) {
    m.schema == SCHEMA && m.key == key
  }

  // The manifest file that `manifest` parses, manifest.json unless missing or unparsable.
  function ManifestSource(s: Disk): Option<Content> {
    match At(s, Manifest)
    case Some(Json(m)) => Some(Json(m))
    case Some(c) => if ManifestPrevious in s then At(s, ManifestPrevious) else Some(c)
    case None => At(s, ManifestPrevious)
  }

  function ManifestOf(key: Key, s: Disk): Result<Option<SaveManifest>, Error> {
    match ManifestSource(s)
    case None => Ok(None)
    case Some(Json(m)) => if Ours(key, m) then Ok(Some(m)) else Err(InvalidManifest)
    case Some(_) => Err(InvalidManifest)
  }

  predicate CurrentMatches(sha: Sha, s: Disk, m: SaveManifest) {
    Current in s && s[Current].Data? && Describes(sha, m, s[Current].bytes)
  }

  function LoadOf(sha: Sha, key: Key, s: Disk): Result<Option<Stored>, Error> {
    match ManifestOf(key, s)
    case Err(e) => Err(e)
    case Ok(None) => Ok(None)
    case Ok(Some(m)) =>
      if CurrentMatches(sha, s, m) then Ok(Some(Stored(m, s[Current].bytes, false)))
      else if CurrentPrevious !in s || ManifestPrevious !in s then Err(NoCopy)
      else match (s[CurrentPrevious], s[ManifestPrevious])
        case (Data(b), Json(p)) =>
          if Ours(key, p) && Describes(sha, p, b) then Ok(Some(Stored(p, b, true))) else Err(BadCopy)
        case _ => Err(BadCopy)
  }

  predicate OnDisk(s: Disk, n: Name, p: Name, c: Content) {
    At(s, n) == Some(c) || At(s, p) == Some(c)
  }

  // Whatever the files hold, what load returns is on disk, belongs to the key and
  // is described by the manifest it comes with.
  lemma LoadIsConsistent(sha: Sha, key: Key, s: Disk)
    requires var r := LoadOf(sha, key, s); r.Ok? && r.value.Some?
    ensures var x := LoadOf(sha, key, s).value.value;
      && Ours(key, x.manifest) && Describes(sha, x.manifest, x.bytes)
      && OnDisk(s, Current, CurrentPrevious, Data(x.bytes))
      && OnDisk(s, Manifest, ManifestPrevious, Json(x.manifest))
  {
    var m := ManifestOf(key, s).value.value;
    assert ManifestSource(s) == Some(Json(m));
  }

  // ---------- The states of a commit ----------

  function Previous(n: Name): Name {
    if n == Current then CurrentPrevious else ManifestPrevious
  }

  // t holds these two contents, and differs from s elsewhere in temporaries only.
  ghost predicate Holds(s: Disk, t: Disk, target: Name, now: Option<Content>, previous: Option<Content>) {
    && At(t, target) == now && At(t, Previous(target)) == previous
    && forall n: Name | !n.Temporary? && n != target && n != Previous(target) :: At(t, n) == At(s, n)
  }

  // The states that replacing `target` by c can leave, whichever call fails or is the last before a crash.
  ghost predicate Rotating(s: Disk, t: Disk, target: Name, c: Content) {
    || Holds(s, t, target, At(s, target), At(s, Previous(target)))
    || Holds(s, t, target, At(s, target), None)
    || Holds(s, t, target, None, At(s, target))
    || Holds(s, t, target, Some(c), At(s, target))
  }

  ghost predicate Rotated(s: Disk, t: Disk, target: Name, c: Content) {
    Holds(s, t, target, Some(c), At(s, target))
  }

  // The calls of `replace`, on what the disk holds, with n the temporary file.
  lemma Calls(s: Disk, t: Disk, target: Name, now: Option<Content>, previous: Option<Content>, n: Name, c: Content)
    requires Holds(s, t, target, now, previous) && target in {Current, Manifest} && n.Temporary? && At(t, n) == Some(c)
    ensures now.Some? <==> target in t
    ensures previous.Some? <==> Previous(target) in t
    ensures n in t && t[n] == c
    ensures var u := t - {Previous(target)};
      Holds(s, u, target, now, None) && At(u, n) == Some(c)
    ensures target in t ==>
      var u := (t - {target})[Previous(target) := t[target]];
      Holds(s, u, target, None, now) && At(u, n) == Some(c)
    ensures Previous(target) in t ==>
      var u := (t - {Previous(target)})[target := t[Previous(target)]];
      Holds(s, u, target, previous, None)
    ensures Holds(s, (t - {n})[target := c], target, Some(c), previous)
  {
    forall m: Name | !m.Temporary? && m != target
      ensures At((t - {n})[target := c], m) == At(t, m)
    {
    }
  }

  lemma TemporaryCalls(s: Disk, t: Disk, target: Name, c: Content, n: Name, d: Content)
    requires n.Temporary? && target in {Current, Manifest}
    ensures Rotating(s, t, target, c) ==> Rotating(s, t - {n}, target, c) && Rotating(s, t[n := d], target, c)
    ensures forall u :: Rotating(s[n := d], u, target, c) ==> Rotating(s, u, target, c)
    ensures forall u :: Rotated(s[n := d], u, target, c) ==> Rotated(s, u, target, c)
    ensures Rotating(s, s, target, c)
  {
    hide Holds, At;
    Untouched(s, target);
    TemporaryHolds(s, t, target, n, d);
    TemporaryStart(s, target, n, d);
  }

  lemma TemporaryHolds(s: Disk, t: Disk, target: Name, n: Name, d: Content)
    requires n.Temporary? && target in {Current, Manifest}
    ensures forall now, previous | Holds(s, t, target, now, previous) ::
      Holds(s, t - {n}, target, now, previous) && Holds(s, t[n := d], target, now, previous)
  {
    forall now, previous | Holds(s, t, target, now, previous)
      ensures Holds(s, t - {n}, target, now, previous) && Holds(s, t[n := d], target, now, previous)
    {
    }
  }

  lemma TemporaryStart(s: Disk, target: Name, n: Name, d: Content)
    requires n.Temporary? && target in {Current, Manifest}
    ensures At(s[n := d], target) == At(s, target) && At(s[n := d], Previous(target)) == At(s, Previous(target))
    ensures forall u, now, previous | Holds(s[n := d], u, target, now, previous) :: Holds(s, u, target, now, previous)
  {
    forall u, now, previous | Holds(s[n := d], u, target, now, previous)
      ensures Holds(s, u, target, now, previous)
    {
    }
  }

  lemma Untouched(s: Disk, target: Name)
    ensures Holds(s, s, target, At(s, target), At(s, Previous(target)))
  {
  }

  // A state inside a commit: content first, manifest only once the content is in place.
  ghost predicate Committing(s: Disk, t: Disk, c: Content, d: Content) {
    || Rotating(s, t, Current, c)
    || exists u: Disk :: Rotated(s, u, Current, c) && Rotating(u, t, Manifest, d)
  }

  // current.bin matches manifest.json.
  predicate Matched(sha: Sha, key: Key, s: Disk, b: Bytes, m: SaveManifest) {
    && At(s, Current) == Some(Data(b)) && At(s, Manifest) == Some(Json(m))
    && Ours(key, m) && Describes(sha, m, b)
  }

  // From a matched state, no state inside a commit has lost the last committed
  // bytes or their manifest, and after the last step both pairs are complete.
  lemma CommitKeepsTheOldSave(sha: Sha, key: Key, s: Disk, t: Disk, old_: Bytes, m: SaveManifest, c: Content, d: Content)
    requires Matched(sha, key, s, old_, m) && Committing(s, t, c, d)
    ensures OnDisk(t, Current, CurrentPrevious, Data(old_))
    ensures OnDisk(t, Manifest, ManifestPrevious, Json(m))
    ensures At(t, Manifest) == Some(d) && d != Json(m)
        ==> At(t, Current) == Some(c) && At(t, CurrentPrevious) == Some(Data(old_)) && At(t, ManifestPrevious) == Some(Json(m))
  {
  }

  // What load finds after a crash inside a commit: the new save, the old save, or nothing.
  // It throws exactly when manifest.json is still the old one, current.bin is gone or
  // does not match it, and no previous manifest describes the old bytes.
  lemma LoadAfterCrash(sha: Sha, key: Key, s: Disk, t: Disk, old_: Bytes, m: SaveManifest, new_: Bytes, n: SaveManifest)
    requires Matched(sha, key, s, old_, m) && Committing(s, t, Data(new_), Json(n))
    requires Ours(key, n) && Describes(sha, n, new_)
    ensures var r := LoadOf(sha, key, t);
      && r != Ok(None)
      && (r.Err? <==>
            && At(t, Manifest) == Some(Json(m))
            && !CurrentMatches(sha, t, m)
            && !PreviousDescribes(sha, key, t, old_))
      && (r.Ok? ==> r.value.value.bytes == old_ || r.value.value.bytes == new_)
      && (At(t, Manifest) == Some(Json(n)) && n != m ==> r == Ok(Some(Stored(n, new_, false))))
  {
    if At(t, Manifest) == Some(Json(m)) && At(t, Current) != Some(Data(old_)) {
      assert At(t, CurrentPrevious) == Some(Data(old_));
    }
  }

  predicate PreviousDescribes(sha: Sha, key: Key, t: Disk, b: Bytes) {
    match At(t, ManifestPrevious)
    case Some(Json(p)) => Ours(key, p) && Describes(sha, p, b)
    case _ => false
  }

  // Whether a commit can be stranded is decided before it starts: some crash point makes load
  // throw unless the old manifest describes the new bytes too and the previous manifest the old
  // ones. So every commit that changes the bytes has such a point, even where
  // manifest.json.previous describes the old bytes: it is unlinked before the manifest moves.
  lemma CommitCanStrandIff(sha: Sha, key: Key, s: Disk, old_: Bytes, m: SaveManifest, new_: Bytes, n: SaveManifest)
    requires Matched(sha, key, s, old_, m) && Ours(key, n) && Describes(sha, n, new_)
    ensures (exists t :: Committing(s, t, Data(new_), Json(n)) && LoadOf(sha, key, t).Err?)
        <==> !(Describes(sha, m, new_) && PreviousDescribes(sha, key, s, old_))
  {
    var moved := (s - {Current})[CurrentPrevious := Data(old_)];
    var stored := moved[Current := Data(new_)];
    assert Committing(s, moved, Data(new_), Json(n)) by {
      assert Holds(s, moved, Current, None, At(s, Current));
    }
    assert Committing(s, stored - {ManifestPrevious}, Data(new_), Json(n)) by {
      assert Rotated(s, stored, Current, Data(new_));
      assert Holds(stored, stored - {ManifestPrevious}, Manifest, At(stored, Manifest), None);
    }
    if !(Describes(sha, m, new_) && PreviousDescribes(sha, key, s, old_)) {
      assert LoadOf(sha, key, moved).Err? || LoadOf(sha, key, stored - {ManifestPrevious}).Err?;
    }
  }

  // The states a commit always passes through when it succeeds: current.bin.previous
  // unlinked, current.bin moved aside, and manifest.json.previous unlinked.
  ghost predicate PassesThrough(states: seq<Disk>, s: Disk, c: Content) {
    && (exists t :: t in states && Holds(s, t, Current, At(s, Current), None))
    && (Current in s ==> exists t :: t in states && Holds(s, t, Current, None, At(s, Current)))
    && exists u, t :: t in states && Rotated(s, u, Current, c) && Holds(u, t, Manifest, At(u, Manifest), None)
  }

  lemma SuccessPassesStrandedStates(
    sha: Sha, key: Key, s: Disk, states: seq<Disk>, old_: Bytes, m: SaveManifest, new_: Bytes)
    requires Matched(sha, key, s, old_, m) && PassesThrough(states, s, Data(new_))
    requires !(Describes(sha, m, new_) && PreviousDescribes(sha, key, s, old_))
    ensures exists t :: t in states && LoadOf(sha, key, t).Err?
  {
    var moved :| moved in states && Holds(s, moved, Current, None, At(s, Current));
    var u, bare :| bare in states && Rotated(s, u, Current, Data(new_)) && Holds(u, bare, Manifest, At(u, Manifest), None);
    assert LoadOf(sha, key, moved).Err? || LoadOf(sha, key, bare).Err?;
  }

  // A commit that starts with a surviving save keeps its bytes at every crash point if
  // and only if they are in current.bin: one that starts after a crash, with the last
  // committed bytes only in current.bin.previous, unlinks them first. (Commit passes
  // through the witness whenever no call fails.)
  lemma CommitKeepsBytesIff(s: Disk, b: Bytes, c: Content, d: Content)
    requires OnDisk(s, Current, CurrentPrevious, Data(b))
    ensures (forall t | Committing(s, t, c, d) :: OnDisk(t, Current, CurrentPrevious, Data(b)))
        <==> At(s, Current) == Some(Data(b))
  {
    var t := s - {CurrentPrevious};
    if At(s, Current) != Some(Data(b)) {
      assert Holds(s, t, Current, At(s, Current), None);
      assert Committing(s, t, c, d) && !OnDisk(t, Current, CurrentPrevious, Data(b));
    }
  }

  // The same holds of a manifest: a commit or update that starts while it is only in
  // manifest.json.previous unlinks it first.
  lemma RotationKeepsManifestIff(s: Disk, m: SaveManifest, d: Content)
    requires OnDisk(s, Manifest, ManifestPrevious, Json(m))
    ensures (forall t | Rotating(s, t, Manifest, d) :: OnDisk(t, Manifest, ManifestPrevious, Json(m)))
        <==> At(s, Manifest) == Some(Json(m))
  {
    var t := s - {ManifestPrevious};
    if At(s, Manifest) != Some(Json(m)) {
      assert Holds(s, t, Manifest, At(s, Manifest), None);
      assert Rotating(s, t, Manifest, d) && !OnDisk(t, Manifest, ManifestPrevious, Json(m));
    }
  }

  // Then a crash can leave no manifest at all: some point inside a commit or an update makes load
  // report that there is no save, whatever the content files hold, if and only if
  // manifest.json is missing at the start.
  lemma LoadFindsNothingIff(sha: Sha, key: Key, s: Disk, c: Content, d: Content)
    ensures (exists t :: Committing(s, t, c, d) && LoadOf(sha, key, t) == Ok(None)) <==> Manifest !in s
    ensures (exists t :: Rotating(s, t, Manifest, d) && LoadOf(sha, key, t) == Ok(None)) <==> Manifest !in s
  {
    if Manifest !in s {
      var moved := (s - {Current})[Current := c];
      var u := if Current in s then moved[CurrentPrevious := s[Current]] else moved - {CurrentPrevious};
      assert Rotated(s, u, Current, c);
      assert Holds(u, u - {ManifestPrevious}, Manifest, None, None);
      assert Holds(s, s - {ManifestPrevious}, Manifest, None, None);
      assert LoadOf(sha, key, u - {ManifestPrevious}) == Ok(None) == LoadOf(sha, key, s - {ManifestPrevious});
    } else {
      forall t | Rotating(s, t, Manifest, d) || Committing(s, t, c, d)
        ensures Manifest in t || ManifestPrevious in t
      {
      }
    }
  }

  // ---------- Updating the cloud revision ----------

  // Only the manifest rotates, and q is the manifest the update read: manifest.json, or after
  // a failed read the previous one. Load keeps returning the save with its manifest
  // until the last step. Then it returns the bytes with the new manifest if and only if q describes
  // them, and it throws if and only if nor do the old manifest and current.bin.previous match.
  lemma LoadDuringRevisionUpdate(
    sha: Sha, key: Key, s: Disk, t: Disk, b: Bytes, m: SaveManifest, q: SaveManifest, revision: nat)
    requires Matched(sha, key, s, b, m) && Ours(key, q)
    requires Rotating(s, t, Manifest, Json(q.(cloudRevision := revision)))
    ensures var r, done := LoadOf(sha, key, t), At(t, Manifest) == Some(Json(q.(cloudRevision := revision)));
      && (!done ==> r == Ok(Some(Stored(m, b, false))))
      && (done ==> (r == Ok(Some(Stored(q.(cloudRevision := revision), b, false))) <==> Describes(sha, q, b)))
      && (r.Err? <==> done && !Describes(sha, q, b) && !PreviousBytesMatch(sha, s, m))
  {
  }

  // current.bin.previous holds bytes that m describes.
  predicate PreviousBytesMatch(sha: Sha, s: Disk, m: SaveManifest) {
    match At(s, CurrentPrevious)
    case Some(Data(c)) => Describes(sha, m, c)
    case _ => false
  }

  // The input for which a completed update makes load throw: manifest.json could not be read,
  // the previous one was, and it replaced the good one.
  lemma FailedReadSpoilsTheSave() returns (sha: Sha, key: Key, s: Disk, u: Disk, b: Bytes, m: SaveManifest, q: SaveManifest)
    ensures Matched(sha, key, s, b, m) && LoadOf(sha, key, s) == Ok(Some(Stored(m, b, false)))
    ensures Did(sha, key, s, u, Updated(q, 7)) && LoadOf(sha, key, u).Err?
  {
    sha, key, b := (_ => ""), Key("rom", "battery", "current"), [2, 2];
    q := SaveManifest(SCHEMA, key, "", 1, "core", 1, 0);
    m := q.(size := 2, localRevision := 2);
    s := map[Current := Data(b), Manifest := Json(m), CurrentPrevious := Data([1]), ManifestPrevious := Json(q)];
    u := s[Manifest := Json(q.(cloudRevision := 7))][ManifestPrevious := Json(m)];
    assert Rotated(s, u, Manifest, Json(q.(cloudRevision := 7)));
  }

  // But the previous files stop being a pair: should current.bin later go bad, load
  // still recovers right after a commit, and after a revision update if and only if the
  // newer manifest happens to describe the older bytes.
  lemma RevisionUpdateSpoilsTheBackup(
    sha: Sha, key: Key, t: Disk, old_: Bytes, m: SaveManifest, n: SaveManifest, revision: nat, u: Disk, bad: Content)
    requires Ours(key, m) && Describes(sha, m, old_) && Ours(key, n)
    requires At(t, CurrentPrevious) == Some(Data(old_)) && At(t, ManifestPrevious) == Some(Json(m))
    requires At(t, Manifest) == Some(Json(n))
    requires bad.Data? ==> !Describes(sha, n, bad.bytes)
    requires Rotated(t, u, Manifest, Json(n.(cloudRevision := revision)))
    ensures LoadOf(sha, key, t[Current := bad]) == Ok(Some(Stored(m, old_, true)))
    ensures LoadOf(sha, key, u[Current := bad]).Ok? <==> Describes(sha, n, old_)
  {
    assert At(u, CurrentPrevious) == At(t, CurrentPrevious);
    assert ManifestOf(key, t[Current := bad]) == Ok(Some(n));
    assert ManifestOf(key, u[Current := bad]) == Ok(Some(n.(cloudRevision := revision)));
  }

  // ---------- Runs ----------

  // `read` is the manifest an update started from.
  datatype Done = Committed(bytes: Bytes, manifest: SaveManifest) | Updated(read: SaveManifest, revision: nat)

  // What a completed operation did to the disk.
  ghost predicate Did(sha: Sha, key: Key, s: Disk, t: Disk, op: Done) {
    match op
    case Committed(b, n) =>
      && Ours(key, n) && Describes(sha, n, b)
      && exists u: Disk :: Rotated(s, u, Current, Data(b)) && Rotated(u, t, Manifest, Json(n))
    case Updated(q, revision) =>
      && Ours(key, q) && OnDisk(s, Manifest, ManifestPrevious, Json(q))
      && Rotated(s, t, Manifest, Json(q.(cloudRevision := revision)))
  }

  ghost predicate RunOf(sha: Sha, key: Key, disks: seq<Disk>, ops: seq<Done>) {
    |disks| == |ops| + 1 && forall i | 0 <= i < |ops| :: Did(sha, key, disks[i], disks[i + 1], ops[i])
  }

  // The last committed bytes and the last manifest written, given those before the run.
  function LastSave(b: Bytes, m: SaveManifest, ops: seq<Done>): (Bytes, SaveManifest)
    decreases |ops|
  {
    if ops == [] then (b, m)
    else match ops[0]
      case Committed(c, n) => LastSave(c, n, ops[1..])
      case Updated(q, revision) => LastSave(b, q.(cloudRevision := revision), ops[1..])
  }

  // After any run of completed operations, whichever reads failed, current.bin holds the last
  // committed bytes, and load returns them if and only if the last manifest written describes them.
  lemma {:induction false} LoadAfterRunIff(sha: Sha, key: Key, disks: seq<Disk>, ops: seq<Done>, b: Bytes, m: SaveManifest)
    requires RunOf(sha, key, disks, ops) && Ours(key, m)
    requires At(disks[0], Current) == Some(Data(b)) && At(disks[0], Manifest) == Some(Json(m))
    ensures var (c, n) := LastSave(b, m, ops); var last := disks[|ops|];
      && At(last, Current) == Some(Data(c)) && At(last, Manifest) == Some(Json(n)) && Ours(key, n)
      && (LoadOf(sha, key, last) == Ok(Some(Stored(n, c, false))) <==> Describes(sha, n, c))
    decreases |ops|
  {
    if ops != [] {
      assert Did(sha, key, disks[0], disks[1], ops[0]);
      var c := if ops[0].Committed? then ops[0].bytes else b;
      var n := if ops[0].Committed? then ops[0].manifest else ops[0].read.(cloudRevision := ops[0].revision);
      RestOfRun(sha, key, disks, ops);
      LoadAfterRunIff(sha, key, disks[1..], ops[1..], c, n);
    }
  }

  lemma RestOfRun(sha: Sha, key: Key, disks: seq<Disk>, ops: seq<Done>)
    requires RunOf(sha, key, disks, ops) && ops != []
    ensures RunOf(sha, key, disks[1..], ops[1..])
  {
    forall i | 0 <= i < |ops| - 1
      ensures Did(sha, key, disks[1..][i], disks[1..][i + 1], ops[1..][i])
    {
      assert Did(sha, key, disks[i + 1], disks[i + 2], ops[i + 1]);
    }
  }

  // Every update in the run read a manifest that describes the bytes then current.
  predicate ReadsDescribe(sha: Sha, b: Bytes, ops: seq<Done>)
    decreases |ops|
  {
    ops == [] || match ops[0]
      case Committed(c, _) => ReadsDescribe(sha, c, ops[1..])
      case Updated(q, _) => Describes(sha, q, b) && ReadsDescribe(sha, b, ops[1..])
  }

  // It did if reading manifest.json never failed.
  lemma {:induction false} SuccessfulReadsDescribe(
    sha: Sha, key: Key, disks: seq<Disk>, ops: seq<Done>, b: Bytes, m: SaveManifest)
    requires RunOf(sha, key, disks, ops) && Matched(sha, key, disks[0], b, m)
    requires forall i | 0 <= i < |ops| && ops[i].Updated? :: At(disks[i], Manifest) == Some(Json(ops[i].read))
    ensures ReadsDescribe(sha, b, ops)
    decreases |ops|
  {
    if ops != [] {
      assert Did(sha, key, disks[0], disks[1], ops[0]);
      RestOfRun(sha, key, disks, ops);
      if ops[0].Committed? {
        SuccessfulReadsDescribe(sha, key, disks[1..], ops[1..], ops[0].bytes, ops[0].manifest);
      } else {
        assert ops[0].read == m;
        SuccessfulReadsDescribe(sha, key, disks[1..], ops[1..], b, m.(cloudRevision := ops[0].revision));
      }
    }
  }

  // The run loads at every point exactly under that condition.
  lemma {:induction false} LoadAlongRunIff(sha: Sha, key: Key, disks: seq<Disk>, ops: seq<Done>, b: Bytes, m: SaveManifest)
    requires RunOf(sha, key, disks, ops) && Matched(sha, key, disks[0], b, m)
    ensures ReadsDescribe(sha, b, ops)
      <==> forall i | 0 <= i <= |ops| ::
             var (c, n) := LastSave(b, m, ops[..i]); LoadOf(sha, key, disks[i]) == Ok(Some(Stored(n, c, false)))
    decreases |ops|
  {
    hide LoadOf;
    if ops == [] {
      LoadAfterRunIff(sha, key, disks, ops, b, m);
    } else {
      assert Did(sha, key, disks[0], disks[1], ops[0]);
      var c := if ops[0].Committed? then ops[0].bytes else b;
      var n := if ops[0].Committed? then ops[0].manifest else ops[0].read.(cloudRevision := ops[0].revision);
      RestOfRun(sha, key, disks, ops);
      LoadAfterRunIff(sha, key, disks[..1], [], b, m);
      LoadAfterRunIff(sha, key, disks[..2], ops[..1], b, m);
      assert ops[..1][1..] == [] && ops[..0] == [];
      if Describes(sha, n, c) {
        LoadAlongRunIff(sha, key, disks[1..], ops[1..], c, n);
        ShiftedSaves(b, m, ops);
      }
    }
  }

  lemma ShiftedSaves(b: Bytes, m: SaveManifest, ops: seq<Done>)
    requires ops != []
    ensures var c := if ops[0].Committed? then ops[0].bytes else b;
      var n := if ops[0].Committed? then ops[0].manifest else ops[0].read.(cloudRevision := ops[0].revision);
      forall i | 0 < i <= |ops| :: LastSave(b, m, ops[..i]) == LastSave(c, n, ops[1..][..i - 1])
  {
    forall i | 0 < i <= |ops|
      ensures ops[..i][1..] == ops[1..][..i - 1]
    {
    }
  }

  // ---------- Runs with crashes and failures ----------

  // Where an operation may have stopped: it did not start, crashed, failed or completed.
  ghost predicate Tried(sha: Sha, key: Key, s: Disk, t: Disk, op: Done) {
    match op
    case Committed(b, n) => Ours(key, n) && Describes(sha, n, b) && Committing(s, t, Data(b), Json(n))
    case Updated(q, revision) =>
      && Ours(key, q) && OnDisk(s, Manifest, ManifestPrevious, Json(q))
      && Rotating(s, t, Manifest, Json(q.(cloudRevision := revision)))
  }

  ghost predicate CrashRun(sha: Sha, key: Key, disks: seq<Disk>, ops: seq<Done>) {
    |disks| == |ops| + 1 && forall i | 0 <= i < |ops| :: Tried(sha, key, disks[i], disks[i + 1], ops[i])
  }

  // Some commit of the run wrote these bytes, or this manifest up to its cloud revision.
  predicate WroteBytes(ops: seq<Done>, c: Content) {
    c.Data? && exists i :: 0 <= i < |ops| && ops[i].Committed? && ops[i].bytes == c.bytes
  }

  predicate WroteManifest(ops: seq<Done>, c: Content) {
    c.Json? && exists i :: 0 <= i < |ops| && ops[i].Committed? && SameButRevision(ops[i].manifest, c.manifest)
  }

  predicate SameButRevision(m: SaveManifest, n: SaveManifest) {
    n == m.(cloudRevision := n.cloudRevision)
  }

  predicate Written(ops: seq<Done>, s: Disk) {
    && (forall n | n in s && n in {Current, CurrentPrevious} :: WroteBytes(ops, s[n]))
    && (forall n | n in s && n in {Manifest, ManifestPrevious} :: WroteManifest(ops, s[n]))
  }

  lemma StaysWritten(ops: seq<Done>, op: Done)
    ensures forall c | WroteBytes(ops, c) :: WroteBytes(ops + [op], c)
    ensures forall c | WroteManifest(ops, c), r: nat ::
      WroteManifest(ops + [op], c) && WroteManifest(ops + [op], Json(c.manifest.(cloudRevision := r)))
  {
    var all := ops + [op];
    forall c | WroteBytes(ops, c)
      ensures WroteBytes(all, c)
    {
      var i :| 0 <= i < |ops| && ops[i].Committed? && ops[i].bytes == c.bytes;
      assert all[i] == ops[i];
    }
    forall c | WroteManifest(ops, c)
      ensures WroteManifest(all, c)
      ensures forall r: nat :: WroteManifest(all, Json(c.manifest.(cloudRevision := r)))
    {
      var i :| 0 <= i < |ops| && ops[i].Committed? && SameButRevision(ops[i].manifest, c.manifest);
      assert all[i] == ops[i];
    }
  }

  lemma TriedWrites(sha: Sha, key: Key, s: Disk, t: Disk, ops: seq<Done>, op: Done)
    requires Written(ops, s) && Tried(sha, key, s, t, op)
    ensures Written(ops + [op], t)
  {
    hide Tried;
    assert (ops + [op])[|ops|] == op;
    StaysWritten(ops, op);
    TriedHolds(sha, key, s, t, op);
  }

  // Every file after an operation is a file from before it, or what the operation wrote.
  lemma TriedHolds(sha: Sha, key: Key, s: Disk, t: Disk, op: Done)
    requires Tried(sha, key, s, t, op)
    ensures forall n | n in t && n in {Current, CurrentPrevious} ::
      At(s, Current) == Some(t[n]) || At(s, CurrentPrevious) == Some(t[n]) || (op.Committed? && t[n] == Data(op.bytes))
    ensures forall n | n in t && n in {Manifest, ManifestPrevious} ::
      At(s, Manifest) == Some(t[n]) || At(s, ManifestPrevious) == Some(t[n])
      || t[n] == Json(if op.Committed? then op.manifest else op.read.(cloudRevision := op.revision))
    ensures op.Updated? ==> OnDisk(s, Manifest, ManifestPrevious, Json(op.read))
  {
  }

  lemma {:induction false} RunWrites(sha: Sha, key: Key, disks: seq<Disk>, ops: seq<Done>)
    requires CrashRun(sha, key, disks, ops) && disks[0] == map[]
    ensures Written(ops, disks[|ops|])
    decreases |ops|
  {
    if ops != [] {
      var k := |ops| - 1;
      RunWrites(sha, key, disks[..|ops|], ops[..k]);
      TriedWrites(sha, key, disks[k], disks[k + 1], ops[..k], ops[k]);
      assert ops[..k] + [ops[k]] == ops;
    }
  }

  // From an empty directory, through any run of commits and updates of which any may crash or fail at
  // any call, load never returns anything but bytes that a commit wrote, with a manifest that a
  // commit wrote up to its cloud revision, and the two agree. And one completed commit repairs
  // whatever the crashes left.
  lemma LoadAfterCrashes(sha: Sha, key: Key, disks: seq<Disk>, ops: seq<Done>)
    requires CrashRun(sha, key, disks, ops) && disks[0] == map[]
    ensures var r := LoadOf(sha, key, disks[|ops|]);
      && (r.Ok? && r.value.Some? ==> var x := r.value.value;
            && WroteBytes(ops, Data(x.bytes)) && WroteManifest(ops, Json(x.manifest))
            && Ours(key, x.manifest) && Describes(sha, x.manifest, x.bytes))
      && (ops != [] && ops[|ops| - 1].Committed? && Did(sha, key, disks[|ops| - 1], disks[|ops|], ops[|ops| - 1]) ==>
            r == Ok(Some(Stored(ops[|ops| - 1].manifest, ops[|ops| - 1].bytes, false))))
  {
    RunWrites(sha, key, disks, ops);
    var s := disks[|ops|];
    var r := LoadOf(sha, key, s);
    if r.Ok? && r.value.Some? {
      LoadIsConsistent(sha, key, s);
    }
  }

  // ---------- Revisions over commits ----------

  // The manifest a commit writes over p: one local revision on, with the cloud revision
  // passed to it or else the one it found.
  predicate Follows(n: SaveManifest, p: Option<SaveManifest>, core: string, cloudRevision: Option<nat>) {
    && n.localRevision == (if p.Some? then p.value.localRevision + 1 else 1)
    && n.core == core
    && (cloudRevision.Some? ==> n.cloudRevision == cloudRevision.value)
    && (cloudRevision.None? && p.Some? ==> n.cloudRevision == p.value.cloudRevision)
    && (cloudRevision.None? && p.None? ==> n.cloudRevision == 0)
  }

  // Local saves: commits without a cloud revision, each over the manifest it found.
  ghost predicate LocalSaves(key: Key, disks: seq<Disk>, ops: seq<Done>)
    requires |disks| == |ops| + 1
  {
    forall i | 0 <= i < |ops| :: ops[i].Committed? && ManifestOf(key, disks[i]).Ok?
      && Follows(ops[i].manifest, ManifestOf(key, disks[i]).value, ops[i].manifest.core, None)
  }

  // Any number of local saves raise the local revision by one each and leave the cloud revision.
  lemma {:induction false} LocalSavesKeepBase(sha: Sha, key: Key, disks: seq<Disk>, ops: seq<Done>, m: SaveManifest)
    requires RunOf(sha, key, disks, ops) && LocalSaves(key, disks, ops)
    requires At(disks[0], Manifest) == Some(Json(m)) && Ours(key, m)
    ensures var r := ManifestOf(key, disks[|ops|]);
      && r.Ok? && r.value.Some?
      && r.value.value.cloudRevision == m.cloudRevision && r.value.value.localRevision == m.localRevision + |ops|
    decreases |ops|
  {
    if ops != [] {
      assert Did(sha, key, disks[0], disks[1], ops[0]);
      assert Follows(ops[0].manifest, Some(m), ops[0].manifest.core, None);
      RestOfRun(sha, key, disks, ops);
      assert LocalSaves(key, disks[1..], ops[1..]) by {
        forall i | 0 <= i < |ops| - 1
          ensures ops[1..][i] == ops[i + 1] && disks[1..][i] == disks[i + 1]
        {
        }
      }
      LocalSavesKeepBase(sha, key, disks[1..], ops[1..], ops[0].manifest);
    }
  }

  // So after an update to revision c, whatever number of local saves follows is based on c.
  lemma SavesAfterUpdateKeepRevision(sha: Sha, key: Key, disks: seq<Disk>, ops: seq<Done>)
    requires RunOf(sha, key, disks, ops) && ops != [] && ops[0].Updated? && LocalSaves(key, disks[1..], ops[1..])
    ensures var r := ManifestOf(key, disks[|ops|]);
      && r.Ok? && r.value.Some?
      && r.value.value.cloudRevision == ops[0].revision && r.value.value.localRevision == ops[0].read.localRevision + |ops| - 1
  {
    assert Did(sha, key, disks[0], disks[1], ops[0]);
    RestOfRun(sha, key, disks, ops);
    LocalSavesKeepBase(sha, key, disks[1..], ops[1..], ops[0].read.(cloudRevision := ops[0].revision));
  }

  // ---------- The program ----------

  function NewManifest(
    key: Key, sha: Sha, previous: Option<SaveManifest>, bytes: Bytes, core: string, cloudRevision: Option<nat>): SaveManifest
  {
    SaveManifest(SCHEMA, key, sha(bytes), |bytes|, core,
      (if previous.Some? then previous.value.localRevision else 0) + 1,
      if cloudRevision.Some? then cloudRevision.value
      else if previous.Some? then previous.value.cloudRevision else 0)
  }

  lemma NothingYet(s: Disk, c: Content, d: Content)
    ensures Committing(s, s, c, d)
  {
    Untouched(s, Current);
  }

  lemma HeldContent(s: Disk, t: Disk, target: Name, c: Content)
    requires Rotated(s, t, target, c)
    ensures At(t, target) == Some(c)
  {
  }

  lemma BothRotated(s: Disk, u: Disk, t: Disk, c: Content, d: Content)
    requires Rotated(s, u, Current, c) && Rotated(u, t, Manifest, d)
    ensures At(t, Current) == Some(c) && At(t, Manifest) == Some(d)
    ensures At(t, CurrentPrevious) == At(s, Current) && At(t, ManifestPrevious) == At(s, Manifest)
  {
  }

  class SaveDirectory {
    const key: Key
    const sha: Sha
    var files: Disk
    var clock: nat // names the next temporary file
    ghost var trace: seq<Disk>
    ghost var faults: nat // file calls that failed though they could have succeeded

    constructor (key: Key, sha: Sha)
      ensures files == map[] && trace == [files] && this.key == key && this.sha == sha
    {
      this.key, this.sha := key, sha;
      files, clock, trace, faults := map[], 0, [map[]], 0;
    }

    method Exists(n: Name) returns (found: bool)
      ensures found == (n in files)
    {
      found := n in files;
    }

    // Each call may fail, and then leaves the disk as it was.
    method UnlinkIfExists(n: Name) returns (ok: bool)
      modifies this`files, this`trace, this`faults
      ensures files == if ok then old(files) - {n} else old(files)
      ensures trace == old(trace) + [files]
      ensures faults == if ok then old(faults) else old(faults) + 1
    {
      ok := true;
      if * {
        ok, faults := false, faults + 1;
      } else {
        files := files - {n};
      }
      trace := trace + [files];
    }

    method Rename(source: Name, target: Name) returns (ok: bool)
      requires source in files && source != target
      modifies this`files, this`trace, this`faults
      ensures files == if ok then (old(files) - {source})[target := old(files)[source]] else old(files)
      ensures trace == old(trace) + [files]
      ensures faults == if ok then old(faults) else old(faults) + 1
    {
      ok := true;
      if * {
        ok, faults := false, faults + 1;
      } else {
        files := (files - {source})[target := files[source]];
      }
      trace := trace + [files];
    }

    // A crash or a failure can leave a part of the file.
    method WriteFile(n: Name, c: Content) returns (ok: bool)
      modifies this`files, this`trace, this`faults
      ensures files == if ok then old(files)[n := c] else old(files)[n := Torn]
      ensures trace == old(trace) + [old(files)[n := Torn], files]
      ensures faults == if ok then old(faults) else old(faults) + 1
    {
      files := files[n := Torn];
      trace := trace + [files];
      ok := true;
      if * {
        ok, faults := false, faults + 1;
      } else {
        files := files[n := c];
      }
      trace := trace + [files];
    }

    method ReadBytes(n: Name) returns (r: Option<Bytes>)
      modifies this`faults
      ensures r.Some? ==> At(files, n) == Some(Data(r.value)) && faults == old(faults)
      ensures r.None? && faults == old(faults) ==> n !in files || !files[n].Data?
      ensures faults >= old(faults)
    {
      if n !in files || !files[n].Data? {
        return None;
      }
      if * {
        faults := faults + 1;
        return None;
      }
      return Some(files[n].bytes);
    }

    method ReadManifest(n: Name) returns (r: Option<SaveManifest>)
      modifies this`faults
      ensures r.Some? ==> At(files, n) == Some(Json(r.value)) && faults == old(faults)
      ensures r.None? && faults == old(faults) ==> n !in files || !files[n].Json?
      ensures faults >= old(faults)
    {
      if n !in files || !files[n].Json? {
        return None;
      }
      if * {
        faults := faults + 1;
        return None;
      }
      return Some(files[n].manifest);
    }

    // All disk states since `from` are states of this rotation.
    ghost predicate Traced(from: nat, s: Disk, target: Name, c: Content)
      reads this
    {
      from <= |trace| && Rotating(s, files, target, c)
      && forall i | from <= i < |trace| :: Rotating(s, trace[i], target, c)
    }

    method Replace(source: Name, target: Name, ghost c: Content) returns (ok: bool)
      requires source.Temporary? && target in {Current, Manifest} && At(files, source) == Some(c)
      modifies this`files, this`trace, this`faults
      ensures |trace| >= |old(trace)| && trace[..|old(trace)|] == old(trace)
      ensures Traced(|old(trace)|, old(files), target, c)
      ensures ok ==> Rotated(old(files), files, target, c)
      ensures faults >= old(faults) && (faults == old(faults) ==> ok)
      ensures ok ==>
        && |trace| > |old(trace)| + 1
        && Holds(old(files), trace[|old(trace)|], target, At(old(files), target), None)
        && (target in old(files) ==> Holds(old(files), trace[|old(trace)| + 1], target, None, At(old(files), target)))
    {
      hide At, Holds;
      ghost var s, was, before := files, At(files, target), At(files, Previous(target));
      Untouched(s, target);
      Calls(s, files, target, was, before, source, c);
      var previous := Previous(target);
      ok := UnlinkIfExists(previous);
      if !ok {
        return;
      }
      Calls(s, files, target, was, None, source, c);
      var found := Exists(target);
      if found {
        ok := Rename(target, previous);
        if !ok {
          return;
        }
      }
      ok := Install(source, target, s, c);
    }

    // The second rename, and the way back when it fails.
    method Install(source: Name, target: Name, ghost s: Disk, ghost c: Content) returns (ok: bool)
      requires source.Temporary? && target in {Current, Manifest} && At(files, source) == Some(c)
      requires Holds(s, files, target, None, At(s, target))
      modifies this`files, this`trace, this`faults
      ensures |trace| > |old(trace)| && trace[..|old(trace)|] == old(trace)
      ensures Traced(|old(trace)|, s, target, c)
      ensures ok ==> Rotated(s, files, target, c)
      ensures faults >= old(faults) && (faults == old(faults) ==> ok)
    {
      hide At, Holds;
      Calls(s, files, target, None, At(s, target), source, c);
      ok := Rename(source, target);
      if !ok {
        var previous := Previous(target);
        var found := Exists(previous);
        if found {
          var _ := Rename(previous, target);
        }
      }
    }

    method WriteAtomic(target: Name, c: Content) returns (ok: bool)
      requires target in {Current, Manifest}
      modifies this
      ensures |trace| >= |old(trace)| && trace[..|old(trace)|] == old(trace)
      ensures Traced(|old(trace)|, old(files), target, c)
      ensures ok ==> Rotated(old(files), files, target, c)
      ensures faults >= old(faults) && (faults == old(faults) ==> ok)
      ensures ok ==>
        && |trace| > |old(trace)| + 3
        && Holds(old(files), trace[|old(trace)| + 2], target, At(old(files), target), None)
        && (target in old(files) ==> Holds(old(files), trace[|old(trace)| + 3], target, None, At(old(files), target)))
    {
      hide Rotating, Rotated;
      ghost var s := files;
      var temporary := Temporary(clock);
      TemporaryCalls(s, s, target, c, temporary, Torn);
      TemporaryCalls(s, s, target, c, temporary, c);
      clock := clock + 1;
      ok := WriteFile(temporary, c);
      if ok {
        ok := Replace(temporary, target, c);
      }
      if !ok {
        TemporaryCalls(s, files, target, c, temporary, c);
        var _ := UnlinkIfExists(temporary);
      }
    }

    method GetManifest() returns (r: Result<Option<SaveManifest>, Error>)
      modifies this`faults
      ensures faults >= old(faults) && (faults == old(faults) ==> r == ManifestOf(key, files))
      ensures r.Ok? && r.value.Some? ==>
        Ours(key, r.value.value) && OnDisk(files, Manifest, ManifestPrevious, Json(r.value.value))
    {
      var source := Manifest;
      var found := Exists(source);
      if !found {
        source := ManifestPrevious;
        found := Exists(source);
        if !found {
          return Ok(None);
        }
      }
      var value := ReadManifest(source);
      if value.None? {
        found := Exists(ManifestPrevious);
        if source == ManifestPrevious || !found {
          return Err(InvalidManifest);
        }
        value := ReadManifest(ManifestPrevious);
        if value.None? {
          return Err(InvalidManifest);
        }
      }
      if !Ours(key, value.value) {
        return Err(InvalidManifest);
      }
      return Ok(value);
    }

    // Beside the result, the manifest it writes.
    method Commit(bytes: Bytes, core: string, cloudRevision: Option<nat>)
      returns (r: Result<SaveManifest, Error>, ghost n: SaveManifest)
      modifies this
      ensures |trace| >= |old(trace)| && trace[..|old(trace)|] == old(trace) && faults >= old(faults)
      ensures Ours(key, n) && Describes(sha, n, bytes)
      ensures faults == old(faults) && r.Ok? ==>
        ManifestOf(key, old(files)).Ok?
        && var p := ManifestOf(key, old(files)).value;
           && r.value.localRevision == (if p.Some? then p.value.localRevision + 1 else 1) && r.value.core == core
           && r.value.cloudRevision == (if cloudRevision.Some? then cloudRevision.value
                                        else if p.Some? then p.value.cloudRevision else 0)
      ensures faults == old(faults) && bytes != [] && ManifestOf(key, old(files)).Ok? ==>
        Follows(n, ManifestOf(key, old(files)).value, core, cloudRevision)
      ensures exists p: Option<SaveManifest> ::
        && Follows(n, p, core, cloudRevision)
        && (p.Some? ==> OnDisk(old(files), Manifest, ManifestPrevious, Json(p.value)))
      ensures Committing(old(files), files, Data(bytes), Json(n))
      ensures forall i | |old(trace)| <= i < |trace| :: Committing(old(files), trace[i], Data(bytes), Json(n))
      ensures r.Ok? ==>
        && bytes != [] && r.value == n && Matched(sha, key, files, bytes, n)
        && At(files, CurrentPrevious) == At(old(files), Current)
        && At(files, ManifestPrevious) == At(old(files), Manifest)
        && Did(sha, key, old(files), files, Committed(bytes, n))
        && PassesThrough(trace[|old(trace)|..], old(files), Data(bytes))
      ensures faults == old(faults) ==> (r.Ok? <==> bytes != [] && ManifestOf(key, old(files)).Ok?)
      ensures bytes == [] || (faults == old(faults) && r.Err?) ==> files == old(files)
    {
      hide Rotating, ManifestOf, Holds;
      ghost var s, from := files, |trace|;
      Untouched(s, Current);
      n := NewManifest(key, sha, None, bytes, core, cloudRevision);
      NothingYet(s, Data(bytes), Json(n));
      if bytes == [] {
        return Err(EmptySave), n;
      }
      var previous := GetManifest();
      if previous.Err? {
        return Err(previous.error), n;
      }
      var manifest := NewManifest(key, sha, previous.value, bytes, core, cloudRevision);
      n := manifest;
      NothingYet(s, Data(bytes), Json(n));
      var ok := WriteAtomic(Current, Data(bytes));
      if !ok {
        return Err(WriteFailed), n;
      }
      var committed := ReadBytes(Current);
      HeldContent(s, files, Current, Data(bytes));
      if committed.None? || |committed.value| != |bytes| || sha(committed.value) != manifest.checksum {
        return Err(WriteFailed), n;
      }
      ghost var u, middle := files, |trace|;
      ok := WriteAtomic(Manifest, Json(manifest));
      forall i | from <= i < |trace|
        ensures Committing(s, trace[i], Data(bytes), Json(n))
      {
        if i < middle {
          assert Rotating(s, trace[i], Current, Data(bytes));
        } else {
          assert Rotating(u, trace[i], Manifest, Json(n));
        }
      }
      if !ok {
        return Err(WriteFailed), n;
      }
      BothRotated(s, u, files, Data(bytes), Json(n));
      assert PassesThrough(trace[from..], s, Data(bytes)) by {
        assert trace[from + 2] in trace[from..] && trace[from + 3] in trace[from..] && trace[middle + 2] in trace[from..];
      }
      return Ok(manifest), n;
    }

    method Load() returns (r: Result<Option<Stored>, Error>)
      modifies this`faults
      ensures faults >= old(faults) && (faults == old(faults) ==> r == LoadOf(sha, key, files))
      ensures r.Ok? && r.value.Some? ==> var x := r.value.value;
        && Ours(key, x.manifest) && Describes(sha, x.manifest, x.bytes)
        && OnDisk(files, Current, CurrentPrevious, Data(x.bytes))
        && OnDisk(files, Manifest, ManifestPrevious, Json(x.manifest))
    {
      var manifest := GetManifest();
      if manifest.Err? {
        return Err(manifest.error);
      }
      if manifest.value.None? {
        return Ok(None);
      }
      var m := manifest.value.value;
      var bytes := ReadBytes(Current);
      if bytes.Some? && Describes(sha, m, bytes.value) {
        return Ok(Some(Stored(m, bytes.value, false)));
      }
      var found := Exists(CurrentPrevious);
      var found' := Exists(ManifestPrevious);
      if !found || !found' {
        return Err(NoCopy);
      }
      var previous := ReadBytes(CurrentPrevious);
      var previousManifest := ReadManifest(ManifestPrevious);
      if previous.None? || previousManifest.None?
         || !Ours(key, previousManifest.value) || !Describes(sha, previousManifest.value, previous.value) {
        return Err(BadCopy);
      }
      return Ok(Some(Stored(previousManifest.value, previous.value, true)));
    }

    method UpdateCloudRevision(cloudRevision: nat) returns (r: Result<SaveManifest, Error>, ghost m: Option<SaveManifest>)
      modifies this
      ensures |trace| >= |old(trace)| && trace[..|old(trace)|] == old(trace) && faults >= old(faults)
      ensures m.None? ==> r.Err? && files == old(files) && trace == old(trace)
      ensures m.Some? ==>
        && Ours(key, m.value) && OnDisk(old(files), Manifest, ManifestPrevious, Json(m.value))
        && Traced(|old(trace)|, old(files), Manifest, Json(m.value.(cloudRevision := cloudRevision)))
      ensures faults == old(faults) ==>
        && m == (if ManifestOf(key, old(files)).Ok? then ManifestOf(key, old(files)).value else None)
        && (r.Ok? <==> m.Some?)
      ensures r.Ok? ==>
        && m.Some? && r.value == m.value.(cloudRevision := cloudRevision)
        && Did(sha, key, old(files), files, Updated(m.value, cloudRevision))
    {
      hide Rotating, Rotated;
      var manifest := GetManifest();
      if manifest.Err? {
        return Err(manifest.error), None;
      }
      if manifest.value.None? {
        return Err(NoSuchSave), None;
      }
      m := manifest.value;
      var updated := manifest.value.value.(cloudRevision := cloudRevision);
      var ok := WriteAtomic(Manifest, Json(updated));
      if !ok {
        return Err(WriteFailed), m;
      }
      return Ok(updated), m;
    }
  }
}
