/**
 The ROM library's repair: a scan over every file below the ROM directory that
 moves each valid ROM to the path its hash names, removes duplicates, puts invalid
 files in quarantine and rebuilds the index. File calls succeed here, and a path is
 either below the ROM directory or a quarantine name.
 */
module Library {
  import opened Fips180
  import Sha256

  type Bytes = seq<Byte>

  datatype Path = RomFile(name: string) | Quarantine(stamp: int, index: nat)

  type Files = map<Path, Bytes>

  datatype GameEntry = GameEntry(romId: string, localPath: Path, sizeBytes: nat, playTimeSeconds: nat, recovered: bool)

  const MAX_ROM_BYTES: nat := 32 * 1024 * 1024

  predicate ValidGba(b: Bytes) {
    0xc0 <= |b| <= MAX_ROM_BYTES && b[3] == 0xea && b[0xb2] == 0x96
  }

  function RomId(b: Bytes): (h: string)
    ensures |h| == 64
  {
    Sha256.HexString(Fips180.Sha256(b))
  }

  // <2 digits>/<2 digits>/<hash>.gba
  function RomPath(id: string): Path
    requires |id| == 64
  {
    RomFile(id[..2] + "/" + id[2..4] + "/" + id + ".gba")
  }

  function Canonical(b: Bytes): Path {
    RomPath(RomId(b))
  }

  function Lower(c: char): char {
    if 'A' <= c <= 'Z' then c + ('a' - 'A') else c
  }

  // A file below the ROM directory whose name ends in .gba, in any case.
  predicate Named(p: Path) {
    && p.RomFile? && |p.name| >= 4
    && var n := |p.name|;
       p.name[n - 4] == '.' && Lower(p.name[n - 3]) == 'g' && Lower(p.name[n - 2]) == 'b' && Lower(p.name[n - 1]) == 'a'
  }

  lemma RomPathIsInjective(g: string, h: string)
    requires |g| == 64 && |h| == 64
    ensures Named(RomPath(g))
    ensures var n := RomPath(g).name;
      && |n| == 74 && n[..2] == g[..2] && n[2] == '/' && n[3..5] == g[2..4] && n[5] == '/' && n[6..70] == g && n[70..] == ".gba"
    ensures RomPath(g) == RomPath(h) ==> g == h
  {
    var s, t := RomPath(g).name, RomPath(h).name;
    assert s[6..70] == g && t[6..70] == h;
  }

  // ---------- One file ----------

  datatype Scan = Scan(files: Files, games: seq<GameEntry>, seen: set<string>, quarantined: nat)

  type Stamp = nat -> int // Date.now() when the n-th file is quarantined

  // moveFile removes what is at the target
  function Move(files: Files, source: Path, target: Path): Files
    requires source in files
  {
    (files - {target} - {source})[target := files[source]]
  }

  function EntryFor(metadata: map<string, GameEntry>, b: Bytes): GameEntry {
    if RomId(b) in metadata then metadata[RomId(b)].(localPath := Canonical(b), sizeBytes := |b|)
    else GameEntry(RomId(b), Canonical(b), |b|, 0, true)
  }

  function ScanFile(metadata: map<string, GameEntry>, stamp: Stamp, s: Scan, p: Path): Scan
    requires p in s.files
  {
    var b := s.files[p];
    if !Named(p) then s
    else if !ValidGba(b) then
      s.(files := Move(s.files, p, Quarantine(stamp(s.quarantined), s.quarantined)), quarantined := s.quarantined + 1)
    else if RomId(b) in s.seen then
      if p != Canonical(b) then s.(files := s.files - {p}) else s
    else
      s.(files :=
           if p == Canonical(b) then s.files
           else if Canonical(b) in s.files then s.files - {p}
           else Move(s.files, p, Canonical(b)),
         games := s.games + [EntryFor(metadata, b)],
         seen := s.seen + {RomId(b)})
  }

  // Scanning one valid file not seen before leaves its content at the canonical path if and
  // only if that path was free or already held the same content: the existence
  // check does not compare, and the file is unlinked on its word.
  lemma ScanKeepsContentIff(metadata: map<string, GameEntry>, stamp: Stamp, s: Scan, p: Path)
    requires p in s.files && Named(p) && ValidGba(s.files[p]) && RomId(s.files[p]) !in s.seen
    ensures var b, t := s.files[p], ScanFile(metadata, stamp, s, p);
      (Canonical(b) in t.files && t.files[Canonical(b)] == b)
      <==> (Canonical(b) !in s.files || s.files[Canonical(b)] == b)
  {
    hide RomId, RomPath;
  }

  // ---------- The whole scan ----------

  // Paths a scan settles: named ROM files with valid content.
  predicate Rom(files: Files, p: Path) {
    p in files && Named(p) && ValidGba(files[p])
  }

  predicate Bad(files: Files, p: Path) {
    p in files && Named(p) && !ValidGba(files[p])
  }

  // What the scan needs of the directory: no two valid ROMs collide, a valid ROM's canonical
  // path is free or holds that ROM, and quarantine names are fresh.
  ghost predicate Scannable(f: Files, stamp: Stamp) {
    && (forall p, q | Rom(f, p) && Rom(f, q) :: RomId(f[p]) == RomId(f[q]) ==> f[p] == f[q])
    && (forall p | Rom(f, p) :: Canonical(f[p]) in f ==> f[Canonical(f[p])] == f[p])
    && forall n: nat :: Quarantine(stamp(n), n) !in f
  }

  ghost predicate At(files: Files, p: Path, b: Bytes) {
    p in files && files[p] == b
  }

  // Files still to be scanned are untouched.
  ghost predicate Untouched(f: Files, left: set<Path>, files: Files) {
    forall p | p in left :: p in f && p.RomFile? && At(files, p, f[p])
  }

  // Every ROM scanned is at its canonical path.
  ghost predicate Kept(f: Files, left: set<Path>, files: Files, seen: set<string>) {
    forall p | Rom(f, p) && p !in left :: At(files, Canonical(f[p]), f[p]) && RomId(f[p]) in seen
  }

  // Every named file that is not still to be scanned is a ROM at its canonical path.
  ghost predicate Tidy(f: Files, left: set<Path>, files: Files, seen: set<string>) {
    forall p | p in files && Named(p) && p !in left ::
      ValidGba(files[p]) && p == Canonical(files[p]) && RomId(files[p]) in seen
  }

  ghost predicate Indexed(f: Files, left: set<Path>, games: seq<GameEntry>, seen: set<string>) {
    && (forall h | h in seen :: Scanned(f, left, h))
    && (forall k | 0 <= k < |games| :: games[k].romId in seen)
    && (forall h | h in seen :: exists k :: 0 <= k < |games| && games[k].romId == h)
    && (forall j, k | 0 <= j < k < |games| :: games[j].romId != games[k].romId)
    && forall k | 0 <= k < |games| :: Listed(f, left, games[k])
  }

  ghost predicate Scanned(f: Files, left: set<Path>, h: string) {
    exists p :: Rom(f, p) && p !in left && RomId(f[p]) == h
  }

  ghost predicate Listed(f: Files, left: set<Path>, g: GameEntry) {
    exists p :: Rom(f, p) && p !in left && Lists(g, f[p])
  }

  // The entry lists this content at its canonical path.
  predicate Lists(g: GameEntry, b: Bytes) {
    g.romId == RomId(b) && g.localPath == Canonical(b) && g.sizeBytes == |b|
  }

  // bad[n] is the file quarantined as number n.
  ghost predicate Quarantined(f: Files, stamp: Stamp, left: set<Path>, files: Files, bad: seq<Path>) {
    && (forall n | 0 <= n < |bad| :: Bad(f, bad[n]) && bad[n] !in left && At(files, Quarantine(stamp(n), n), f[bad[n]]))
    && (forall m, n | 0 <= m < n < |bad| :: bad[m] != bad[n])
    && forall p | Bad(f, p) && p !in left :: p in bad
  }

  // Nothing else changes.
  ghost predicate OthersSame(f: Files, stamp: Stamp, files: Files, count: nat) {
    && (forall p | p in f && !Named(p) :: At(files, p, f[p]))
    && forall p | p in files && !Named(p) :: p in f || exists n: nat :: n < count && p == Quarantine(stamp(n), n)
  }

  ghost predicate Inv(f: Files, stamp: Stamp, left: set<Path>, s: Scan, bad: seq<Path>) {
    && |bad| == s.quarantined
    && Untouched(f, left, s.files)
    && Kept(f, left, s.files, s.seen)
    && Tidy(f, left, s.files, s.seen)
    && Indexed(f, left, s.games, s.seen)
    && Quarantined(f, stamp, left, s.files, bad)
    && OthersSame(f, stamp, s.files, s.quarantined)
  }

  // ---------- Every step keeps it ----------

  lemma SkipKeepsInv(f: Files, stamp: Stamp, left: set<Path>, s: Scan, bad: seq<Path>, p: Path)
    requires Inv(f, stamp, left, s, bad) && p in left && !Named(p)
    ensures Inv(f, stamp, left - {p}, s, bad)
  {
    hide Named, ValidGba, RomId, RomPath, Canonical, Indexed, OthersSame;
    var rest := left - {p};
    assert Kept(f, rest, s.files, s.seen);
    assert Tidy(f, rest, s.files, s.seen);
    LaterIndex(f, left, rest, s.games, s.seen);
    assert Quarantined(f, stamp, rest, s.files, bad);
  }

  lemma LaterIndex(f: Files, left: set<Path>, rest: set<Path>, games: seq<GameEntry>, seen: set<string>)
    requires Indexed(f, left, games, seen) && rest <= left
    ensures Indexed(f, rest, games, seen)
  {
    hide Named, ValidGba, RomId, RomPath, Canonical, Lists;
    forall h | h in seen
      ensures Scanned(f, rest, h)
    {
      assert Scanned(f, left, h);
    }
    forall k | 0 <= k < |games|
      ensures Listed(f, rest, games[k])
    {
      assert Listed(f, left, games[k]);
    }
  }

  lemma CanonicalIsNamed(b: Bytes)
    ensures Named(Canonical(b))
  {
    RomPathIsInjective(RomId(b), RomId(b));
  }

  // Two ROMs with one canonical path are the same.
  lemma SameCanonical(f: Files, stamp: Stamp, p: Path, q: Path)
    requires Scannable(f, stamp) && Rom(f, p) && Rom(f, q) && Canonical(f[p]) == Canonical(f[q])
    ensures f[p] == f[q]
  {
    RomPathIsInjective(RomId(f[p]), RomId(f[q]));
  }

  // Files after a ROM with content b at p is settled at c.
  function Settled(files: Files, p: Path, c: Path, b: Bytes): Files {
    (files - {p})[c := b]
  }

  // Unlink, move or leave: each valid file ends up settled at its canonical path.
  lemma RomIsSettled(
    f: Files, stamp: Stamp, left: set<Path>, s: Scan, bad: seq<Path>, metadata: map<string, GameEntry>, p: Path)
    requires Scannable(f, stamp) && Inv(f, stamp, left, s, bad) && p in left && Rom(f, p)
    ensures p in s.files
    ensures ScanFile(metadata, stamp, s, p).files == Settled(s.files, p, Canonical(f[p]), f[p])
  {
    hide Named, ValidGba, RomId, RomPath, Canonical, Quarantined, OthersSame;
    var c := Canonical(f[p]);
    CanonicalIsNamed(f[p]);
    if RomId(f[p]) in s.seen {
      SeenIsThere(f, stamp, left, s.files, s.games, s.seen, p);
    } else if c in s.files && p != c {
      if c !in left {
        assert ValidGba(s.files[c]) && c == Canonical(s.files[c]);
        OnePath(s.files[c], f[p]);
        assert false;
      }
    }
  }

  lemma OnePath(a: Bytes, b: Bytes)
    requires Canonical(a) == Canonical(b)
    ensures RomId(a) == RomId(b)
  {
    RomPathIsInjective(RomId(a), RomId(b));
  }

  lemma SeenIsThere(
    f: Files, stamp: Stamp, left: set<Path>, files: Files, games: seq<GameEntry>, seen: set<string>, p: Path)
    requires Scannable(f, stamp) && Kept(f, left, files, seen) && Indexed(f, left, games, seen)
    requires Rom(f, p) && RomId(f[p]) in seen
    ensures At(files, Canonical(f[p]), f[p])
  {
    hide Named, ValidGba, RomId, RomPath;
    assert Scanned(f, left, RomId(f[p]));
    var q :| Rom(f, q) && q !in left && RomId(f[q]) == RomId(f[p]);
  }

  lemma RomKeepsKept(f: Files, stamp: Stamp, left: set<Path>, files: Files, seen: set<string>, p: Path)
    requires Scannable(f, stamp) && Kept(f, left, files, seen) && Rom(f, p)
    ensures Kept(f, left - {p}, Settled(files, p, Canonical(f[p]), f[p]), seen + {RomId(f[p])})
  {
    hide Named, ValidGba, RomId, RomPath, Canonical;
    var c, t := Canonical(f[p]), Settled(files, p, Canonical(f[p]), f[p]);
    forall q | Rom(f, q) && q !in left - {p}
      ensures At(t, Canonical(f[q]), f[q]) && RomId(f[q]) in seen + {RomId(f[p])}
    {
      var d := Canonical(f[q]);
      if q != p {
        assert At(files, d, f[q]);
        if d == c {
          SameCanonical(f, stamp, p, q);
        }
      }
    }
  }

  lemma RomKeepsTidy(f: Files, stamp: Stamp, left: set<Path>, files: Files, seen: set<string>, p: Path)
    requires Scannable(f, stamp) && Untouched(f, left, files) && Tidy(f, left, files, seen) && Rom(f, p) && p in left
    ensures var t := Settled(files, p, Canonical(f[p]), f[p]);
      Tidy(f, left - {p}, t, seen + {RomId(f[p])}) && Untouched(f, left - {p}, t)
  {
    hide Named, ValidGba, RomId, RomPath, Canonical;
  }

  lemma RomKeepsIndex(
    f: Files, left: set<Path>, games: seq<GameEntry>, seen: set<string>, p: Path, entry: GameEntry)
    requires Indexed(f, left, games, seen) && Rom(f, p) && Lists(entry, f[p])
    ensures RomId(f[p]) in seen ==> Indexed(f, left - {p}, games, seen)
    ensures RomId(f[p]) !in seen ==> Indexed(f, left - {p}, games + [entry], seen + {RomId(f[p])})
  {
    hide Named, ValidGba, RomId, RomPath, Canonical;
    var rest, more := left - {p}, games + [entry];
    LaterIndex(f, left, rest, games, seen);
    if RomId(f[p]) !in seen {
      assert more[|games|] == entry;
      forall h | h in seen + {RomId(f[p])}
        ensures exists k :: 0 <= k < |more| && more[k].romId == h
      {
        if h in seen {
          var k :| 0 <= k < |games| && games[k].romId == h;
          assert more[k].romId == h;
        } else {
          assert more[|games|].romId == h;
        }
      }
      forall k | 0 <= k < |more|
        ensures Listed(f, rest, more[k])
      {
        if k < |games| {
          assert more[k] == games[k];
        }
      }
    }
  }

  lemma RomKeepsQuarantine(f: Files, stamp: Stamp, left: set<Path>, files: Files, bad: seq<Path>, p: Path)
    requires Quarantined(f, stamp, left, files, bad) && OthersSame(f, stamp, files, |bad|) && Rom(f, p)
    ensures var t := Settled(files, p, Canonical(f[p]), f[p]);
      Quarantined(f, stamp, left - {p}, t, bad) && OthersSame(f, stamp, t, |bad|)
  {
    hide Named, ValidGba, RomId, RomPath, Canonical, Quarantined, OthersSame;
    CanonicalIsNamed(f[p]);
    var c := Canonical(f[p]);
    SettledQuarantine(f, stamp, left, files, bad, p, c);
    SettledOthers(f, stamp, files, |bad|, p, c);
  }

  lemma SettledQuarantine(f: Files, stamp: Stamp, left: set<Path>, files: Files, bad: seq<Path>, p: Path, c: Path)
    requires Quarantined(f, stamp, left, files, bad) && Rom(f, p) && Named(c)
    ensures Quarantined(f, stamp, left - {p}, Settled(files, p, c, f[p]), bad)
  {
    NamedIsRomFile();
    hide Named, ValidGba;
  }

  lemma SettledOthers(f: Files, stamp: Stamp, files: Files, count: nat, p: Path, c: Path)
    requires OthersSame(f, stamp, files, count) && Rom(f, p) && Named(c)
    ensures OthersSame(f, stamp, Settled(files, p, c, f[p]), count)
  {
    hide Named, ValidGba;
  }

  lemma NamedIsRomFile()
    ensures forall p | Named(p) :: p.RomFile?
  {
  }

  lemma EntryLists(metadata: map<string, GameEntry>, b: Bytes)
    requires forall h | h in metadata :: metadata[h].romId == h
    ensures Lists(EntryFor(metadata, b), b)
  {
    hide RomId, RomPath;
  }

  lemma RomKeepsInv(
    f: Files, stamp: Stamp, left: set<Path>, s: Scan, bad: seq<Path>, metadata: map<string, GameEntry>, p: Path)
    requires Scannable(f, stamp) && Inv(f, stamp, left, s, bad) && p in left && Rom(f, p)
    requires forall h | h in metadata :: metadata[h].romId == h
    ensures p in s.files && Inv(f, stamp, left - {p}, ScanFile(metadata, stamp, s, p), bad)
  {
    hide Named, ValidGba, RomId, RomPath, Canonical, Scannable, Kept, Tidy, Indexed, Quarantined, OthersSame, Lists,
      EntryFor, Move, Settled;
    RomIsSettled(f, stamp, left, s, bad, metadata, p);
    RomKeepsKept(f, stamp, left, s.files, s.seen, p);
    RomKeepsTidy(f, stamp, left, s.files, s.seen, p);
    EntryLists(metadata, f[p]);
    RomKeepsIndex(f, left, s.games, s.seen, p, EntryFor(metadata, f[p]));
    RomKeepsQuarantine(f, stamp, left, s.files, bad, p);
    if RomId(f[p]) in s.seen {
      assert s.seen + {RomId(f[p])} == s.seen;
    }
  }

  lemma BadKeepsRoms(f: Files, stamp: Stamp, left: set<Path>, s: Scan, p: Path, target: Path)
    requires Scannable(f, stamp) && Untouched(f, left, s.files) && Kept(f, left, s.files, s.seen)
    requires Tidy(f, left, s.files, s.seen) && Bad(f, p) && p in left && target.Quarantine?
    ensures var t, rest := Move(s.files, p, target), left - {p};
      Untouched(f, rest, t) && Kept(f, rest, t, s.seen) && Tidy(f, rest, t, s.seen)
  {
    NamedIsRomFile();
    hide Named, ValidGba, RomId, RomPath, Canonical;
    var t := Move(s.files, p, target);
    forall q | Rom(f, q) && q !in left - {p}
      ensures At(t, Canonical(f[q]), f[q]) && RomId(f[q]) in s.seen
    {
      CanonicalIsNamed(f[q]);
      assert At(s.files, Canonical(f[q]), f[q]);
    }
  }

  lemma FreshTarget(f: Files, stamp: Stamp, n: nat)
    requires Scannable(f, stamp)
    ensures Quarantine(stamp(n), n) !in f
  {
    hide RomId, RomPath, Canonical;
  }

  lemma MovedOthers(f: Files, stamp: Stamp, files: Files, count: nat, p: Path)
    requires OthersSame(f, stamp, files, count) && p in files && Named(p) && Quarantine(stamp(count), count) !in f
    ensures OthersSame(f, stamp, Move(files, p, Quarantine(stamp(count), count)), count + 1)
  {
    hide Named;
  }

  lemma BadKeepsQuarantine(f: Files, stamp: Stamp, left: set<Path>, files: Files, bad: seq<Path>, p: Path)
    requires Scannable(f, stamp) && Untouched(f, left, files) && Bad(f, p) && p in left
    requires Quarantined(f, stamp, left, files, bad) && OthersSame(f, stamp, files, |bad|)
    ensures var t := Move(files, p, Quarantine(stamp(|bad|), |bad|));
      Quarantined(f, stamp, left - {p}, t, bad + [p]) && OthersSame(f, stamp, t, |bad| + 1)
  {
    NamedIsRomFile();
    hide Named, ValidGba, OthersSame, Scannable;
    FreshTarget(f, stamp, |bad|);
    MovedOthers(f, stamp, files, |bad|, p);
    var target, more := Quarantine(stamp(|bad|), |bad|), bad + [p];
    var t := Move(files, p, target);
    forall n | 0 <= n < |more|
      ensures Bad(f, more[n]) && more[n] !in left - {p} && At(t, Quarantine(stamp(n), n), f[more[n]])
    {
      if n < |bad| {
        assert more[n] == bad[n] && At(files, Quarantine(stamp(n), n), f[bad[n]]);
      }
    }
  }

  lemma BadKeepsInv(
    f: Files, stamp: Stamp, left: set<Path>, s: Scan, bad: seq<Path>, metadata: map<string, GameEntry>, p: Path)
    requires Scannable(f, stamp) && Inv(f, stamp, left, s, bad) && p in left && Bad(f, p)
    ensures p in s.files && Inv(f, stamp, left - {p}, ScanFile(metadata, stamp, s, p), bad + [p])
  {
    hide Named, ValidGba, RomId, RomPath, Canonical, Scannable, Kept, Tidy, Indexed, Quarantined, OthersSame, Move;
    BadKeepsRoms(f, stamp, left, s, p, Quarantine(stamp(|bad|), |bad|));
    BadKeepsQuarantine(f, stamp, left, s.files, bad, p);
    LaterIndex(f, left, left - {p}, s.games, s.seen);
  }

  // ---------- What a finished scan has done ----------

  ghost predicate TidyFiles(files: Files) {
    forall p | p in files && Named(p) :: ValidGba(files[p]) && p == Canonical(files[p])
  }

  ghost predicate Repaired(f: Files, stamp: Stamp, files: Files, games: seq<GameEntry>, bad: seq<Path>) {
    && (forall p | Rom(f, p) :: At(files, Canonical(f[p]), f[p]))
    && TidyFiles(files)
    && (forall p | p in files && Named(p) :: exists q :: Rom(f, q) && f[q] == files[p])
    && Quarantined(f, stamp, {}, files, bad)
    && OthersSame(f, stamp, files, |bad|)
    && ListsEach(f, games)
  }

  // The index lists every valid ROM once.
  ghost predicate ListsEach(f: Files, games: seq<GameEntry>) {
    && (forall j, k | 0 <= j < k < |games| :: games[j].romId != games[k].romId)
    && (forall p | Rom(f, p) :: exists k :: 0 <= k < |games| && games[k].romId == RomId(f[p]))
    && forall k | 0 <= k < |games| :: Listed(f, {}, games[k])
  }

  // Once every file is scanned, each file below the ROM directory holds a valid ROM's content.
  lemma SettledIsRom(f: Files, s: Scan, p: Path)
    requires Kept(f, {}, s.files, s.seen) && Tidy(f, {}, s.files, s.seen) && Indexed(f, {}, s.games, s.seen)
    requires p in s.files && Named(p)
    ensures exists q :: Rom(f, q) && f[q] == s.files[p]
  {
    hide Named, ValidGba, RomId, RomPath, Canonical;
    assert Scanned(f, {}, RomId(s.files[p]));
    var q :| Rom(f, q) && q !in {} && RomId(f[q]) == RomId(s.files[p]);
    assert At(s.files, Canonical(f[q]), f[q]);
    SameId(f[q], s.files[p]);
  }

  lemma ScannedIsListed(f: Files, s: Scan)
    requires Kept(f, {}, s.files, s.seen) && Indexed(f, {}, s.games, s.seen)
    ensures ListsEach(f, s.games)
  {
    hide Named, ValidGba, RomId, RomPath, Canonical, Lists, At;
  }

  lemma ScanIsRepair(f: Files, stamp: Stamp, s: Scan, bad: seq<Path>)
    requires Scannable(f, stamp) && Inv(f, stamp, {}, s, bad)
    ensures Repaired(f, stamp, s.files, s.games, bad)
  {
    hide Named, ValidGba, RomId, RomPath, Canonical, Quarantined, OthersSame, Indexed, ListsEach, Scannable;
    ScannedIsListed(f, s);
    forall p | p in s.files && Named(p)
      ensures exists q :: Rom(f, q) && f[q] == s.files[p]
    {
      SettledIsRom(f, s, p);
    }
  }

  lemma SameId(a: Bytes, b: Bytes)
    ensures RomId(a) == RomId(b) ==> Canonical(a) == Canonical(b)
  {
    hide RomId, RomPath;
  }

  // Each valid ROM lies at one path below the ROM directory, its canonical one.
  lemma EachRomExactlyOnce(f: Files, stamp: Stamp, files: Files, games: seq<GameEntry>, bad: seq<Path>, p: Path, q: Path)
    requires Repaired(f, stamp, files, games, bad) && Rom(f, p) && q in files && Named(q)
    ensures files[q] == f[p] <==> q == Canonical(f[p])
  {
    hide Named, ValidGba, RomId, RomPath, Canonical;
    assert At(files, Canonical(f[p]), f[p]);
  }

  // Repairing twice changes no file: a repaired directory meets the scan's needs,
  // given fresh quarantine names, and a scan of one leaves it as it is.
  lemma RepairedIsScannable(f: Files, stamp: Stamp)
    requires TidyFiles(f) && forall n: nat :: Quarantine(stamp(n), n) !in f
    ensures Scannable(f, stamp)
  {
    hide Named, ValidGba, RomId, RomPath, Canonical;
    forall p, q | Rom(f, p) && Rom(f, q) && RomId(f[p]) == RomId(f[q])
      ensures f[p] == f[q]
    {
      SameId(f[p], f[q]);
    }
  }

  lemma SomeBad(f: Files, stamp: Stamp, files: Files, bad: seq<Path>)
    requires Quarantined(f, stamp, {}, files, bad) && bad != []
    ensures exists p :: Bad(f, p)
  {
    assert Bad(f, bad[0]);
  }

  lemma RepairTwiceChangesNothing(f: Files, stamp: Stamp, files: Files, games: seq<GameEntry>, bad: seq<Path>)
    requires TidyFiles(f) && Repaired(f, stamp, files, games, bad)
    ensures files == f && bad == []
  {
    hide Named, ValidGba, RomId, RomPath, Canonical;
    if bad != [] {
      SomeBad(f, stamp, files, bad);
      assert false;
    }
    forall p | p in files
      ensures At(f, p, files[p])
    {
      if Named(p) {
        var q :| Rom(f, q) && f[q] == files[p];
        assert q == Canonical(f[q]) == p;
      } else {
        assert p in f;
      }
    }
    forall p | p in f
      ensures At(files, p, f[p])
    {
      if Named(p) {
        assert Rom(f, p);
      }
    }
    assert files.Keys == f.Keys;
  }

  // ---------- The program ----------

  // new Map(previous.map(...)): the last entry of an ID wins.
  function MetadataOf(previous: seq<GameEntry>): (m: map<string, GameEntry>)
    ensures forall h | h in m :: m[h].romId == h
  {
    if previous == [] then map[]
    else var last := previous[|previous| - 1]; MetadataOf(previous[..|previous| - 1])[last.romId := last]
  }

  // A game the index knew keeps the play time and origin of its last entry; a new one starts at zero.
  ghost predicate Remembered(previous: seq<GameEntry>, g: GameEntry) {
    if exists k :: LastEntry(previous, k, g.romId)
    then exists k :: LastEntry(previous, k, g.romId)
           && g.playTimeSeconds == previous[k].playTimeSeconds && g.recovered == previous[k].recovered
    else g.playTimeSeconds == 0 && g.recovered
  }

  predicate LastEntry(previous: seq<GameEntry>, k: int, romId: string) {
    0 <= k < |previous| && previous[k].romId == romId && forall j | k < j < |previous| :: previous[j].romId != romId
  }

  lemma {:induction false} MetadataIsLast(previous: seq<GameEntry>, h: string)
    ensures h in MetadataOf(previous) <==> exists k :: LastEntry(previous, k, h)
    ensures forall k | LastEntry(previous, k, h) :: h in MetadataOf(previous) && MetadataOf(previous)[h] == previous[k]
  {
    if previous != [] {
      var n := |previous| - 1;
      var rest := previous[..n];
      MetadataIsLast(rest, h);
      if previous[n].romId == h {
        assert LastEntry(previous, n, h);
      } else {
        forall k
          ensures LastEntry(previous, k, h) <==> LastEntry(rest, k, h)
        {
          if LastEntry(rest, k, h) {
            assert previous[k].romId == h;
          }
          if LastEntry(previous, k, h) {
            assert forall j | k < j < |rest| :: rest[j] == previous[j];
          }
        }
      }
    }
  }

  lemma EntryRemembers(previous: seq<GameEntry>, b: Bytes)
    ensures Remembered(previous, EntryFor(MetadataOf(previous), b))
  {
    hide RomId, RomPath, Canonical, LastEntry;
    MetadataIsLast(previous, RomId(b));
  }

  lemma ScanAddsEntry(metadata: map<string, GameEntry>, stamp: Stamp, s: Scan, p: Path)
    requires p in s.files
    ensures var games := ScanFile(metadata, stamp, s, p).games;
      games == s.games || games == s.games + [EntryFor(metadata, s.files[p])]
  {
    hide Named, ValidGba, RomId, RomPath, Canonical, EntryFor, Move;
  }

  function Ids(games: seq<GameEntry>): set<string> {
    set g | g in games :: g.romId
  }

  class LibraryRepository {
    var files: Files
    var index: seq<GameEntry> // library.json

    constructor (files: Files, index: seq<GameEntry>)
      ensures this.files == files && this.index == index
    {
      this.files, this.index := files, index;
    }

    method MoveFile(source: Path, target: Path)
      requires source in files
      modifies this`files
      ensures files == Move(old(files), source, target)
    {
      var content := files[source];
      files := files - {target} - {source};
      files := files[target := content];
    }

    // The body of the loop.
    method ScanOne(metadata: map<string, GameEntry>, stamp: Stamp, p: Path,
                   games: seq<GameEntry>, seen: set<string>, quarantined: nat)
      returns (games': seq<GameEntry>, seen': set<string>, quarantined': nat)
      requires p in files
      modifies this`files
      ensures Scan(files, games', seen', quarantined') == ScanFile(metadata, stamp, Scan(old(files), games, seen, quarantined), p)
    {
      hide Named, RomId, RomPath, Canonical, EntryFor, Move;
      games', seen', quarantined' := games, seen, quarantined;
      if !Named(p) {
        return;
      }
      var bytes := files[p];
      if ValidGba(bytes) {
        var romId, canonical := RomId(bytes), Canonical(bytes);
        if romId in seen {
          if p != canonical {
            files := files - {p};
          }
          return;
        }
        if p != canonical {
          if canonical in files {
            files := files - {p};
          } else {
            MoveFile(p, canonical);
          }
        }
        games' := games + [EntryFor(metadata, bytes)];
        seen' := seen + {romId};
      } else {
        MoveFile(p, Quarantine(stamp(quarantined), quarantined));
        quarantined' := quarantined + 1;
      }
    }

    // `listing` is the directory listing, in any order. bad[n] is the file
    // quarantined as number n.
    method ScanRomFiles(previous: seq<GameEntry>, listing: seq<Path>, stamp: Stamp)
      returns (games: seq<GameEntry>, quarantined: nat, ghost bad: seq<Path>)
      requires forall i, j | 0 <= i < j < |listing| :: listing[i] != listing[j]
      requires forall p :: p in listing <==> p in files && p.RomFile?
      requires Scannable(files, stamp)
      modifies this`files
      ensures Repaired(old(files), stamp, files, games, bad) && quarantined == |bad|
      ensures forall g | g in games :: Remembered(previous, g)
    {
      hide Named, ValidGba, RomId, RomPath, Canonical, EntryFor, ScanFile, Scannable, Inv, Remembered;
      ghost var f := files;
      var metadata, seen := MetadataOf(previous), {};
      games, quarantined, bad := [], 0, [];
      Start(f, stamp, listing);
      for i := 0 to |listing|
        invariant Inv(f, stamp, Rest(listing, i), Scan(files, games, seen, quarantined), bad)
        invariant forall g | g in games :: Remembered(previous, g)
      {
        ghost var s := Scan(files, games, seen, quarantined);
        RestNext(listing, i);
        StillThere(f, stamp, Rest(listing, i), s, bad, listing[i]);
        ScanKeepsInv(f, stamp, Rest(listing, i), s, bad, metadata, listing[i]);
        ScanAddsEntry(metadata, stamp, s, listing[i]);
        EntryRemembers(previous, files[listing[i]]);
        games, seen, quarantined := ScanOne(metadata, stamp, listing[i], games, seen, quarantined);
        bad := if Bad(f, listing[i]) then bad + [listing[i]] else bad;
      }
      assert Rest(listing, |listing|) == {};
      ScanIsRepair(f, stamp, Scan(files, games, seen, quarantined), bad);
      Counted(f, stamp, Scan(files, games, seen, quarantined), bad);
    }

    method RepairLibrary(listing: seq<Path>, stamp: Stamp)
      returns (added: nat, removed: nat, quarantined: nat, ghost bad: seq<Path>)
      requires forall i, j | 0 <= i < j < |listing| :: listing[i] != listing[j]
      requires forall p :: p in listing <==> p in files && p.RomFile?
      requires Scannable(files, stamp)
      modifies this
      ensures Repaired(old(files), stamp, files, index, bad) && quarantined == |bad|
      ensures forall g | g in index :: Remembered(old(index), g)
      ensures added == |Ids(index) - Ids(old(index))| && removed == |Ids(old(index)) - Ids(index)|
    {
      hide Repaired, Scannable, Remembered;
      var before := index;
      var games, count, moved := ScanRomFiles(before, listing, stamp);
      index := games;
      var oldIds, newIds := Ids(before), Ids(games);
      return |newIds - oldIds|, |oldIds - newIds|, count, moved;
    }
  }

  ghost function Rest(listing: seq<Path>, i: nat): set<Path>
    requires i <= |listing|
  {
    set p | p in listing[i..]
  }

  lemma RestNext(listing: seq<Path>, i: nat)
    requires i < |listing| && forall i, j | 0 <= i < j < |listing| :: listing[i] != listing[j]
    ensures listing[i] in Rest(listing, i) && Rest(listing, i + 1) == Rest(listing, i) - {listing[i]}
  {
    assert listing[i..] == [listing[i]] + listing[i + 1..];
    assert listing[i] !in listing[i + 1..];
  }

  lemma Start(f: Files, stamp: Stamp, listing: seq<Path>)
    requires forall p :: p in listing <==> p in f && p.RomFile?
    ensures Inv(f, stamp, Rest(listing, 0), Scan(f, [], {}, 0), [])
  {
    NamedIsRomFile();
    hide Named, ValidGba, RomId, RomPath, Canonical;
    assert listing[0..] == listing;
  }

  lemma StillThere(f: Files, stamp: Stamp, left: set<Path>, s: Scan, bad: seq<Path>, p: Path)
    requires Inv(f, stamp, left, s, bad) && p in left
    ensures p in f && p in s.files
  {
  }

  lemma Counted(f: Files, stamp: Stamp, s: Scan, bad: seq<Path>)
    requires Inv(f, stamp, {}, s, bad)
    ensures s.quarantined == |bad|
  {
  }

  lemma ScanKeepsInv(
    f: Files, stamp: Stamp, left: set<Path>, s: Scan, bad: seq<Path>, metadata: map<string, GameEntry>, p: Path)
    requires Scannable(f, stamp) && Inv(f, stamp, left, s, bad) && p in left && p in f && p in s.files
    requires forall h | h in metadata :: metadata[h].romId == h
    ensures Inv(f, stamp, left - {p}, ScanFile(metadata, stamp, s, p), if Bad(f, p) then bad + [p] else bad)
  {
    hide Named, ValidGba, RomId, RomPath, Canonical, Inv, Scannable;
    if Bad(f, p) {
      BadKeepsInv(f, stamp, left, s, bad, metadata, p);
    } else if Rom(f, p) {
      RomKeepsInv(f, stamp, left, s, bad, metadata, p);
    } else {
      SkipKeepsInv(f, stamp, left, s, bad, p);
    }
  }
}
