/**
 The string the service hashes to recognise a retried request: every part is
 written with its length in front. Equal strings come from equal requests, and an
 upload's never equals a restore's.
 */
module RequestEncoding {
  import opened SaveKeys

  datatype Request =
    | Upload(user: string, key: Key, base: int, digest: string, core: string, device: string)
    | Restore(user: string, key: Key, base: int, source: int, device: string)

  // ---------- Validation ----------

  // What the service has established before it hashes a request. The digest of an
  // upload is the one the blob store computed.
  predicate Validated(r: Request) {
    ValidKey(r.key) && 0 <= r.base <= MAX_INT64
    && match r
       case Upload(_, _, _, digest, _, _) => Hex64(digest)
       case Restore(_, _, _, source, _) => 0 < source <= MAX_INT64
  }

  // ---------- Printing ----------

  function Digit(d: nat): (c: char)
    requires d < 10
    ensures '0' <= c <= '9'
  {
    '0' + d as char
  }

  function Decimal(n: nat): (s: string)
    ensures |s| > 0 && forall c | c in s :: '0' <= c <= '9'
  {
    if n < 10 then [Digit(n)] else Decimal(n / 10) + [Digit(n % 10)]
  }

  lemma {:induction false} DecimalIsInjective(m: nat, n: nat)
    requires Decimal(m) == Decimal(n)
    ensures m == n
  {
    var s, t := Decimal(m), Decimal(n);
    assert s[|s| - 1] == t[|t| - 1];
    assert Digit(m % 10) == Digit(n % 10);
    assert s[..|s| - 1] == t[..|t| - 1];
    if m >= 10 && n >= 10 {
      assert s[..|s| - 1] == Decimal(m / 10) && t[..|t| - 1] == Decimal(n / 10);
      DecimalIsInjective(m / 10, n / 10);
    }
  }

  function TenTo(k: nat): nat {
    if k == 0 then 1 else 10 * TenTo(k - 1)
  }

  lemma {:induction false} DecimalLength(n: nat, k: nat)
    requires k > 0 && n < TenTo(k)
    ensures |Decimal(n)| <= k
  {
    if n >= 10 {
      assert k > 1 && n / 10 < TenTo(k - 1);
      DecimalLength(n / 10, k - 1);
    }
  }

  // A 64-bit integer prints in at most 19 digits.
  lemma RevisionIsShort(n: nat)
    requires n <= MAX_INT64
    ensures |Decimal(n)| <= 19
  {
    assert TenTo(5) == 100_000;
    assert TenTo(10) == 10_000_000_000;
    assert TenTo(15) == 1_000_000_000_000_000;
    assert TenTo(19) == 10_000_000_000_000_000_000;
    DecimalLength(n, 19);
  }

  // A key prints as a struct.
  function Render(key: Key): string {
    "{" + key.rom + " " + key.kind + " " + key.slot + "}"
  }

  // Splitting at the first separator is unambiguous.
  lemma SplitIsUnique(a: string, b: string, c: string, d: string, separator: char)
    requires a + [separator] + b == c + [separator] + d
    requires separator !in a && separator !in c
    ensures a == c && b == d
  {
    var s := a + [separator] + b;
    assert s[|a|] == separator && s[|c|] == separator;
    assert forall k | 0 <= k < |a| :: s[k] == a[k] && s[k] in a;
    assert forall k | 0 <= k < |c| :: s[k] == c[k] && s[k] in c;
    assert s[..|a|] == a && s[..|c|] == c;
    assert s[|a| + 1..] == b && s[|c| + 1..] == d;
  }

  lemma NoSpaces(k: Key)
    requires ValidKey(k)
    ensures ' ' !in k.rom && ' ' !in k.kind
  {
  }

  lemma RenderIsInjective(k: Key, l: Key)
    requires ValidKey(k) && ValidKey(l) && Render(k) == Render(l)
    ensures k == l
  {
    hide ValidKey;
    NoSpaces(k);
    NoSpaces(l);
    var s, t := k.kind + [' '] + (k.slot + "}"), l.kind + [' '] + (l.slot + "}");
    assert Render(k) == "{" + (k.rom + [' '] + s) && Render(l) == "{" + (l.rom + [' '] + t);
    assert k.rom + [' '] + s == Render(k)[1..] == l.rom + [' '] + t;
    SplitIsUnique(k.rom, s, l.rom, t, ' ');
    SplitIsUnique(k.kind, k.slot + "}", l.kind, l.slot + "}", ' ');
    assert k.slot == (k.slot + "}")[..|k.slot|] == l.slot;
  }

  // ---------- The encoding ----------

  function EncodePart(part: string): string {
    Decimal(|part|) + ":" + part + "\n"
  }

  function Encode(parts: seq<string>): string {
    if parts == [] then "" else EncodePart(parts[0]) + Encode(parts[1..])
  }

  // For any lists of byte strings.
  lemma {:induction false} EncodeIsInjective(a: seq<string>, b: seq<string>)
    requires Encode(a) == Encode(b)
    ensures a == b
  {
    if a != [] && b != [] {
      var x, y := a[0] + "\n" + Encode(a[1..]), b[0] + "\n" + Encode(b[1..]);
      assert Encode(a) == Decimal(|a[0]|) + ":" + x;
      assert Encode(b) == Decimal(|b[0]|) + ":" + y;
      SplitIsUnique(Decimal(|a[0]|), x, Decimal(|b[0]|), y, ':');
      DecimalIsInjective(|a[0]|, |b[0]|);
      assert x[..|a[0]|] == a[0] && y[..|b[0]|] == b[0];
      assert x[|a[0]| + 1..] == Encode(a[1..]) && y[|b[0]| + 1..] == Encode(b[1..]);
      EncodeIsInjective(a[1..], b[1..]);
      assert a == [a[0]] + a[1..] && b == [b[0]] + b[1..];
    }
  }

  // The arguments of requestDigest.
  function Parts(r: Request): seq<string>
    requires Validated(r)
  {
    match r
    case Upload(user, key, base, digest, core, device) => [user, Render(key), Decimal(base), digest, core, device]
    case Restore(user, key, base, source, device) => [user, Render(key), Decimal(base), Decimal(source), "restore", device]
  }

  // Equal encodings mean equal requests, across both operations.
  lemma RequestsAreDecodable(r: Request, q: Request)
    requires Validated(r) && Validated(q) && Encode(Parts(r)) == Encode(Parts(q))
    ensures r == q
  {
    EncodeIsInjective(Parts(r), Parts(q));
    var a, b := Parts(r), Parts(q);
    assert a[0] == b[0] && a[1] == b[1] && a[2] == b[2] && a[3] == b[3] && a[4] == b[4] && a[5] == b[5];
    RenderIsInjective(r.key, q.key);
    DecimalIsInjective(r.base, q.base);
    FourthPart(r);
    FourthPart(q);
    if r.Restore? {
      DecimalIsInjective(r.source, q.source);
    }
  }

  // The fourth part tells uploads, even ones whose build is called "restore", from restores.
  lemma FourthPart(r: Request)
    requires Validated(r)
    ensures if r.Upload? then |Parts(r)[3]| == 64 else |Parts(r)[3]| <= 19
  {
    if r.Restore? {
      RevisionIsShort(r.source);
    }
  }

  // So two requests have the same hash exactly when they are the same request,
  // as long as the hash does not collide on their encodings.
  lemma EqualHashesIff(hash: string -> string, r: Request, q: Request)
    requires Validated(r) && Validated(q)
    requires hash(Encode(Parts(r))) == hash(Encode(Parts(q))) ==> Encode(Parts(r)) == Encode(Parts(q))
    ensures hash(Encode(Parts(r))) == hash(Encode(Parts(q))) <==> r == q
  {
    if hash(Encode(Parts(r))) == hash(Encode(Parts(q))) {
      RequestsAreDecodable(r, q);
    }
  }

  lemma EncodeMore(written: string, part: string, rest: seq<string>)
    ensures written + EncodePart(part) + Encode(rest) == written + Encode([part] + rest)
  {
    hide EncodePart;
    assert ([part] + rest)[1..] == rest;
  }

  // The loop that feeds a running hash; `hash` is the digest of everything written.
  method RequestDigest(hash: string -> string, parts: seq<string>) returns (digest: string)
    ensures digest == hash(Encode(parts))
  {
    var written := "";
    assert parts[0..] == parts;
    for i := 0 to |parts|
      invariant written + Encode(parts[i..]) == Encode(parts)
    {
      var part := parts[i];
      assert parts[i..] == [part] + parts[i + 1..];
      EncodeMore(written, part, parts[i + 1..]);
      written := written + EncodePart(part);
    }
    assert Encode(parts[|parts|..]) == "";
    assert written == Encode(parts);
    digest := hash(written);
  }
}
