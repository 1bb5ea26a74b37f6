/**
 The ring of stereo frames between the emulator and the audio callback: an array
 of samples, a read position and a count, in 32-bit `size_t` arithmetic that never
 wraps. It refines a bounded queue that drops its oldest frames.
 */
module AudioRing {
  import opened Bits

  newtype Size = x: int | 0 <= x < 0x1_0000_0000
  newtype Sample = x: int | -0x8000 <= x < 0x8000

  datatype Frame = Frame(left: Sample, right: Sample)

  // ---------- The queue it implements ----------

  // The last `capacity` frames of s.
  function Newest(capacity: nat, s: seq<Frame>): (r: seq<Frame>)
    ensures |r| == if |s| <= capacity then |s| else capacity
  {
    if |s| <= capacity then s else s[|s| - capacity..]
  }

  datatype Op = Write(input: seq<Frame>) | Read(max: nat) | Clear

  // The queue, everything written, read and lost so far.
  datatype Queue = Queue(contents: seq<Frame>, written: seq<Frame>, read: seq<Frame>, lost: nat)

  const EMPTY: Queue := Queue([], [], [], 0)

  function Apply(capacity: nat, q: Queue, op: Op): Queue {
    match op
    case Write(input) =>
      var next := Newest(capacity, q.contents + input);
      Queue(next, q.written + input, q.read, q.lost + (|q.contents| + |input| - |next|))
    case Read(max) =>
      var k := if |q.contents| < max then |q.contents| else max;
      Queue(q.contents[k..], q.written, q.read + q.contents[..k], q.lost)
    case Clear => Queue([], q.written, q.read, q.lost + |q.contents|)
  }

  function Run(capacity: nat, ops: seq<Op>): Queue {
    if ops == [] then EMPTY else Apply(capacity, Run(capacity, ops[..|ops| - 1]), ops[|ops| - 1])
  }

  // Every frame read is a frame written, in the order written and at most once.
  predicate Subsequence(a: seq<Frame>, b: seq<Frame>) {
    if a == [] then true
    else if b == [] then false
    else if Subsequence(a, b[..|b| - 1]) then true
    else a[|a| - 1] == b[|b| - 1] && Subsequence(a[..|a| - 1], b[..|b| - 1])
  }

  lemma {:induction false} SubsequenceMore(a: seq<Frame>, b: seq<Frame>, skipped: seq<Frame>)
    requires Subsequence(a, b)
    ensures Subsequence(a, b + skipped)
  {
    if skipped == [] {
      assert b + skipped == b;
    } else {
      SubsequenceMore(a, b, skipped[..|skipped| - 1]);
      assert (b + skipped)[..|b + skipped| - 1] == b + skipped[..|skipped| - 1];
    }
  }

  lemma SubsequenceLast(a: seq<Frame>, b: seq<Frame>, last: Frame)
    requires Subsequence(a, b)
    ensures Subsequence(a + [last], b + [last])
  {
    assert (a + [last])[..|a + [last]| - 1] == a && (b + [last])[..|b + [last]| - 1] == b;
  }

  lemma {:induction false} SubsequenceBoth(a: seq<Frame>, b: seq<Frame>, taken: seq<Frame>)
    requires Subsequence(a, b)
    ensures Subsequence(a + taken, b + taken)
  {
    hide Subsequence;
    if taken == [] {
      assert a + taken == a && b + taken == b;
    } else {
      var init, last := taken[..|taken| - 1], taken[|taken| - 1];
      SubsequenceBoth(a, b, init);
      SubsequenceLast(a + init, b + init, last);
      assert a + taken == a + init + [last] && b + taken == b + init + [last];
    }
  }

  lemma RunMore(capacity: nat, ops: seq<Op>, op: Op)
    ensures Run(capacity, ops + [op]) == Apply(capacity, Run(capacity, ops), op)
  {
    assert (ops + [op])[..|ops|] == ops;
  }

  lemma RunWrite(capacity: nat, ops: seq<Op>, input: seq<Frame>)
    ensures Run(capacity, ops + [Op.Write(input)]).contents == Newest(capacity, Run(capacity, ops).contents + input)
  {
    RunMore(capacity, ops, Op.Write(input));
  }

  // Over any run: written = read + lost + queued, the queue is the newest written
  // frames, and what was read came out in order, without repeats, from the frames before them.
  lemma {:induction false} RunConservesFrames(capacity: nat, ops: seq<Op>)
    ensures var q := Run(capacity, ops);
      && |q.written| == |q.read| + q.lost + |q.contents|
      && |q.contents| <= capacity
      && |q.contents| <= |q.written|
      && q.contents == q.written[|q.written| - |q.contents|..]
      && Subsequence(q.read, q.written[..|q.written| - |q.contents|])
  {
    if ops != [] {
      RunConservesFrames(capacity, ops[..|ops| - 1]);
      StepConservesFrames(capacity, Run(capacity, ops[..|ops| - 1]), ops[|ops| - 1]);
    }
  }

  ghost predicate Conserved(capacity: nat, q: Queue) {
    && |q.written| == |q.read| + q.lost + |q.contents|
    && |q.contents| <= capacity
    && q.contents == q.written[|q.written| - |q.contents|..]
    && Subsequence(q.read, q.written[..|q.written| - |q.contents|])
  }

  // `gone` are the written frames no longer queued.
  lemma ConservedBy(capacity: nat, q: Queue, gone: seq<Frame>)
    requires q.written == gone + q.contents && |q.contents| <= capacity
    requires |gone| == |q.read| + q.lost && Subsequence(q.read, gone)
    ensures Conserved(capacity, q)
  {
    hide Subsequence;
    assert q.written[..|gone|] == gone && q.written[|gone|..] == q.contents;
  }

  lemma StepConservesFrames(capacity: nat, q: Queue, op: Op)
    requires Conserved(capacity, q)
    ensures Conserved(capacity, Apply(capacity, q, op))
  {
    hide Conserved, Apply;
    match op
    case Write(input) => WriteConserves(capacity, q, input);
    case Read(max) => ReadConserves(capacity, q, max);
    case Clear => ClearConserves(capacity, q);
  }

  lemma Regroup(a: seq<Frame>, b: seq<Frame>, c: seq<Frame>)
    ensures a + b + c == a + (b + c)
  {
  }

  // The queued frames move from `queued` to `dropped + rest`.
  lemma SplitConserves(capacity: nat, q: Queue, r: Queue, dropped: seq<Frame>)
    requires Conserved(capacity, q)
    requires exists input :: r.written == q.written + input && dropped + r.contents == q.contents + input
    requires |r.contents| <= capacity && r.read == q.read && r.lost == q.lost + |dropped|
    ensures Conserved(capacity, r)
  {
    hide Subsequence, Conserved;
    var gone := Gone(capacity, q);
    var input :| r.written == q.written + input && dropped + r.contents == q.contents + input;
    SubsequenceMore(q.read, gone, dropped);
    Regroup(gone, q.contents, input);
    Regroup(gone, dropped, r.contents);
    ConservedBy(capacity, r, gone + dropped);
  }

  lemma WriteConserves(capacity: nat, q: Queue, input: seq<Frame>)
    requires Conserved(capacity, q)
    ensures Conserved(capacity, Apply(capacity, q, Write(input)))
  {
    hide Conserved;
    var r, all := Apply(capacity, q, Write(input)), q.contents + input;
    var dropped := all[..|all| - |r.contents|];
    assert dropped + r.contents == q.contents + input;
    SplitConserves(capacity, q, r, dropped);
  }

  lemma ReadConserves(capacity: nat, q: Queue, max: nat)
    requires Conserved(capacity, q)
    ensures Conserved(capacity, Apply(capacity, q, Read(max)))
  {
    hide Subsequence, Conserved;
    var gone, r := Gone(capacity, q), Apply(capacity, q, Read(max));
    var taken := q.contents[..|q.contents| - |r.contents|];
    SubsequenceBoth(q.read, gone, taken);
    assert q.contents == taken + r.contents;
    Regroup(gone, taken, r.contents);
    ConservedBy(capacity, r, gone + taken);
  }

  lemma ClearConserves(capacity: nat, q: Queue)
    requires Conserved(capacity, q)
    ensures Conserved(capacity, Apply(capacity, q, Clear))
  {
    hide Conserved;
    var r := Apply(capacity, q, Clear);
    assert r.written == q.written + [] && q.contents + r.contents == q.contents + [];
    SplitConserves(capacity, q, r, q.contents);
  }

  ghost function Gone(capacity: nat, q: Queue): (r: seq<Frame>)
    requires Conserved(capacity, q)
    ensures q.written == r + q.contents && |r| == |q.read| + q.lost && |q.contents| <= capacity
    ensures Subsequence(q.read, r)
  {
    q.written[..|q.written| - |q.contents|]
  }

  lemma NewestTwice(capacity: nat, s: seq<Frame>, b: seq<Frame>)
    ensures Newest(capacity, Newest(capacity, s) + b) == Newest(capacity, s + b)
    ensures |Newest(capacity, s + b)| == if |s + b| < capacity then |s + b| else capacity
  {
    var n := |s| - |Newest(capacity, s)|;
    assert Newest(capacity, s) + b == (s + b)[n..];
    if |s + b| > capacity {
      assert (s + b)[n..][|s + b| - n - capacity..] == (s + b)[|s + b| - capacity..];
    }
  }

  // Writing in pieces leaves what one write of the whole would.
  lemma WritesCompose(capacity: nat, q: Queue, a: seq<Frame>, b: seq<Frame>)
    ensures Apply(capacity, Apply(capacity, q, Write(a)), Write(b)) == Apply(capacity, q, Write(a + b))
  {
    hide Newest;
    NewestTwice(capacity, q.contents + a, b);
    Regroup(q.contents, a, b);
    Regroup(q.written, a, b);
  }

  // Nothing is lost exactly when what is queued and written fits.
  lemma NothingIsLostIff(capacity: nat, q: Queue, input: seq<Frame>)
    ensures Apply(capacity, q, Write(input)).lost == q.lost <==> |q.contents| + |input| <= capacity
  {
  }

  // ---------- The program ----------

  const SIZE_MAX: Size := 0xffff_ffff

  // The interleaved samples of an array, frame by frame.
  ghost function FramesOf(s: seq<Sample>): (r: seq<Frame>)
    ensures |r| == |s| / 2
  {
    seq(|s| / 2, i requires 0 <= i < |s| / 2 => Frame(s[2 * i], s[2 * i + 1]))
  }

  // x % capacity within two turns of the ring.
  function Wrapped(x: nat, capacity: nat): (r: nat)
    requires x < 2 * capacity
    ensures r < capacity
  {
    if x < capacity then x else x - capacity
  }

  lemma WrappedIsModulo(x: nat, capacity: nat)
    requires x < 2 * capacity
    ensures Wrapped(x, capacity) == x % capacity
  {
    ModUnique(x, capacity, if x < capacity then 0 else 1, Wrapped(x, capacity));
  }

  // (at + steps) % capacity, without overflow
  function Advance(at: Size, steps: Size, capacity: Size): (r: Size)
    requires at < capacity <= SIZE_MAX / 4 && steps <= capacity
    ensures r as int == Wrapped(at as int + steps as int, capacity as int)
  {
    WrappedIsModulo(at as int + steps as int, capacity as int);
    (at + steps) % capacity
  }

  // n frames of the ring from slot `read` on.
  ghost function Ahead(s: seq<Sample>, read: nat, n: nat): (r: seq<Frame>)
    requires read <= |s| / 2 && n <= |s| / 2
    ensures |r| == n
  {
    (FramesOf(s) + FramesOf(s))[read..read + n]
  }

  class Ring {
    var samples: array<Sample>
    var capacity: Size
    var readFrame: Size
    var queued: Size

    ghost var ops: seq<Op> // every call since initialisation

    // Zero capacity means the ring holds no samples: never initialised, or released.
    ghost predicate Sound()
      reads this`samples, this`capacity, this`readFrame, this`queued, samples
    {
      && samples.Length == 2 * capacity as int
      && capacity <= SIZE_MAX / 4
      && queued <= capacity
      && (if capacity > 0 then readFrame < capacity else readFrame == 0)
    }

    // The ring holds what the queue would after the same calls.
    ghost predicate Valid()
      reads this, samples
    {
      Sound() && Contents() == Queued().contents && (capacity == 0 ==> ops == [])
    }

    // The queue that the calls so far amount to.
    ghost function Queued(): Queue
      reads this`capacity, this`ops
    {
      Run(capacity as int, ops)
    }

    // So no call sequence loses count of a frame, repeats one or reorders them.
    lemma Conserves()
      requires Valid()
      ensures Conserved(capacity as int, Queued())
    {
      RunConservesFrames(capacity as int, ops);
    }

    ghost function Contents(): (r: seq<Frame>)
      reads this`samples, this`capacity, this`readFrame, this`queued, samples
      requires Sound()
      ensures |r| == queued as int
    {
      Ahead(samples[..], readFrame as int, queued as int)
    }

    constructor ()
      ensures Valid() && capacity == 0 && Contents() == [] && fresh(samples)
    {
      samples, capacity, readFrame, queued, ops := new Sample[0], 0, 0, 0, [];
    }

    // `available` says whether the allocation succeeds.
    method Init(frames: Size, available: bool) returns (ok: bool)
      modifies this
      ensures ok == (0 < frames <= SIZE_MAX / 4 && available)
      ensures ok ==> Valid() && capacity == frames && Contents() == [] && ops == [] && fresh(samples)
      ensures frames == 0 || frames > SIZE_MAX / 4 ==> unchanged(this)
      ensures !ok && !unchanged(this) ==> Valid() && capacity == 0 && Contents() == []
    {
      if frames == 0 || frames > SIZE_MAX / 4 {
        return false;
      }
      samples, capacity, readFrame, queued, ops := new Sample[0], 0, 0, 0, [];
      if !available {
        return false;
      }
      samples := new Sample[2 * frames as int](_ => 0);
      capacity := frames;
      return true;
    }

    method Clear()
      requires Valid()
      modifies this`readFrame, this`queued, this`ops
      ensures Valid() && Contents() == []
      ensures capacity > 0 ==> ops == old(ops) + [Op.Clear]
    {
      hide Ahead, FramesOf, Wrapped, Run, Advance;
      readFrame, queued := 0, 0;
      NoFrames(samples[..], 0, 0, []);
      if capacity > 0 {
        RunMore(capacity as int, ops, Op.Clear);
        ops := ops + [Op.Clear];
      }
    }

    method Write(input: array?<Sample>, frames: Size)
      requires Valid() && input != samples
      requires input != null ==> 2 * frames as int <= input.Length
      modifies this`readFrame, this`queued, this`ops, samples
      ensures Valid()
      ensures capacity > 0 && input != null ==>
        && Contents() == Newest(capacity as int, old(Contents()) + FramesOf(input[..2 * frames as int]))
        && ops == old(ops) + [Op.Write(FramesOf(input[..2 * frames as int]))]
      ensures capacity == 0 || input == null ==> Contents() == old(Contents()) && ops == old(ops)
    {
      hide Ahead, FramesOf, Newest, Run, Sound, Contents;
      if capacity == 0 || input == null {
        return;
      }
      ghost var added := FramesOf(input[..2 * frames as int]);
      WriteFrames(input, frames);
      RunWrite(capacity as int, ops, added);
      ops := ops + [Op.Write(added)];
    }

    method WriteFrames(input: array<Sample>, frames: Size)
      requires Sound() && input != samples && capacity > 0
      requires 2 * frames as int <= input.Length
      modifies this`readFrame, this`queued, samples
      ensures Sound()
      ensures Contents() == Newest(capacity as int, old(Contents()) + FramesOf(input[..2 * frames as int]))
    {
      hide Ahead, FramesOf, Newest;
      if frames == 0 {
        NothingWritten(samples[..], readFrame as int, queued as int, input[..]);
        return;
      }
      ghost var was := Contents();
      var from, count := MakeRoom(frames);
      StoredIsNewest(capacity as int, was, input[..], frames as int, Contents(), from, count as int);
      Store(input, from, count);
    }

    // Skips input and drops queued frames that will not fit.
    method MakeRoom(frames: Size) returns (from: nat, count: Size)
      requires Sound() && capacity > 0
      modifies this`readFrame, this`queued
      ensures Sound() && count <= frames && queued as int + count as int <= capacity as int
      ensures from == 2 * (frames - count) as int
      ensures frames >= capacity ==> count == capacity && Contents() == []
      ensures frames < capacity ==>
        && count == frames
        && Contents() == old(Contents())[if old(queued) + frames > capacity then old(queued) + frames - capacity else 0..]
    {
      hide Ahead, FramesOf, Wrapped, Advance;
      from, count := 0, frames;
      if frames >= capacity {
        from, count := (frames - capacity) as int * 2, capacity;
        readFrame, queued := 0, 0;
      }
      var free := capacity - queued;
      if count > free {
        var dropped := count - free;
        DropAhead(samples[..], readFrame as int, queued as int, dropped as int);
        readFrame := Advance(readFrame, dropped, capacity);
        queued := queued - dropped;
      }
    }

    // The copy loop of `write`.
    method Store(input: array<Sample>, from: nat, count: Size)
      requires Sound() && capacity > 0 && input != samples && queued as int + count as int <= capacity as int
      requires from + 2 * count as int <= input.Length
      modifies this`queued, samples
      ensures Sound() && Contents() == old(Contents()) + FramesOf(input[from..from + 2 * count as int])
    {
      hide Ahead, FramesOf, Wrapped, Advance;
      ghost var s, r, q := samples[..], readFrame as int, queued as int;
      ghost var piece := input[from..from + 2 * count as int];
      var writeFrame := Advance(readFrame, queued, capacity);
      var i: Size := 0;
      NoFrames(s, r, q, piece);
      while i < count
        invariant 0 <= i <= count && queued as int == q && readFrame as int == r
        invariant input[from..from + 2 * count as int] == piece
        invariant Ahead(samples[..], r, q + i as int) == Ahead(s, r, q) + FramesOf(piece[..2 * i as int])
      {
        WrapTwice(r, q, i as int, capacity as int);
        StoreFrame(Advance(writeFrame, i, capacity), input[from + 2 * i as int], input[from + 2 * i as int + 1], r, q + i as int);
        FramesNext(piece, i as int);
        i := i + 1;
      }
      assert piece[..2 * count as int] == piece;
      queued := queued + count;
    }

    method StoreFrame(slot: Size, left: Sample, right: Sample, ghost r: nat, ghost n: nat)
      requires samples.Length == 2 * capacity as int && capacity <= SIZE_MAX / 4
      requires r < capacity as int && n < capacity as int && slot as int == Wrapped(r + n, capacity as int)
      modifies samples
      ensures Ahead(samples[..], r, n + 1) == Ahead(old(samples[..]), r, n) + [Frame(left, right)]
    {
      hide Ahead, Wrapped, Advance;
      ghost var before := samples[..];
      var target := slot * 2;
      samples[target] := left;
      samples[target + 1] := right;
      StoreAhead(before, samples[..], r, n);
    }

    method Read(output: array?<Sample>, max: Size) returns (frames: Size)
      requires Valid() && output != samples
      requires output != null ==> 2 * max as int <= output.Length
      modifies this`readFrame, this`queued, this`ops, output
      ensures Valid()
      ensures frames == if output == null then 0 else if old(queued) < max then old(queued) else max
      ensures Contents() == old(Contents())[frames..]
      ensures output != null ==>
        && FramesOf(output[..2 * frames as int]) == old(Contents())[..frames]
        && output[2 * frames as int..] == old(output[2 * frames as int..])
      ensures capacity > 0 && output != null ==>
        && ops == old(ops) + [Op.Read(max as int)]
        && Queued().read == old(Queued()).read + FramesOf(output[..2 * frames as int])
      ensures capacity == 0 || output == null ==> ops == old(ops)
    {
      hide Ahead, FramesOf, Wrapped, Run, Advance;
      NoFrames(samples[..], readFrame as int, queued as int, if output == null then [] else output[..]);
      if capacity == 0 || output == null {
        return 0;
      }
      ghost var before := Contents();
      frames := ReadFrames(output, max);
      RunMore(capacity as int, ops, Op.Read(max as int));
      ops := ops + [Op.Read(max as int)];
    }

    method ReadFrames(output: array<Sample>, max: Size) returns (frames: Size)
      requires Sound() && output != samples && capacity > 0
      requires 2 * max as int <= output.Length
      modifies this`readFrame, this`queued, output
      ensures Sound()
      ensures frames == if old(queued) < max then old(queued) else max
      ensures Contents() == old(Contents())[frames..]
      ensures FramesOf(output[..2 * frames as int]) == old(Contents())[..frames]
      ensures output[2 * frames as int..] == old(output[2 * frames as int..])
    {
      hide Ahead, FramesOf, Wrapped, Advance;
      NoFrames(samples[..], readFrame as int, queued as int, output[..]);
      if max == 0 {
        return 0;
      }
      frames := if queued < max then queued else max;
      CopyOut(output, frames);
      DropAhead(samples[..], readFrame as int, queued as int, frames as int);
      readFrame := Advance(readFrame, frames, capacity);
      queued := queued - frames;
    }

    // The copy loop of `read`.
    method CopyOut(output: array<Sample>, frames: Size)
      requires Sound() && capacity > 0 && output != samples
      requires frames <= queued && 2 * frames as int <= output.Length
      modifies output
      ensures FramesOf(output[..2 * frames as int]) == Contents()[..frames]
      ensures output[2 * frames as int..] == old(output[2 * frames as int..])
    {
      hide Ahead, FramesOf, Wrapped, Advance;
      ghost var s, r, q := samples[..], readFrame as int, queued as int;
      NoFrames(s, r, q, output[..]);
      var i: Size := 0;
      while i < frames
        invariant 0 <= i <= frames
        invariant FramesOf(output[..2 * i as int]) == Ahead(s, r, q)[..i]
        invariant forall k | 2 * i as int <= k < output.Length :: output[k] == old(output[k])
      {
        CopyFrame(output, i);
        AheadNext(s, r, q, i as int);
        i := i + 1;
      }
    }

    method CopyFrame(output: array<Sample>, i: Size)
      requires Sound() && capacity > 0 && output != samples
      requires i < queued && 2 * (i as int + 1) <= output.Length
      modifies output
      ensures var slot := Wrapped(readFrame as int + i as int, capacity as int);
        FramesOf(output[..2 * (i as int + 1)])
          == FramesOf(old(output[..2 * i as int])) + [Frame(samples[2 * slot], samples[2 * slot + 1])]
      ensures forall k | 2 * (i as int + 1) <= k < output.Length :: output[k] == old(output[k])
    {
      hide Ahead, FramesOf, Wrapped, Advance;
      ghost var before := output[..2 * i as int];
      var source := Advance(readFrame, i, capacity) * 2;
      output[i as int * 2] := samples[source];
      output[i as int * 2 + 1] := samples[source + 1];
      ghost var after := output[..2 * (i as int + 1)];
      FramesNext(after, i as int);
      assert after[..2 * i as int] == before && after[..2 * (i as int + 1)] == after;
    }
  }

  lemma NoFrames(s: seq<Sample>, read: nat, n: nat, t: seq<Sample>)
    requires read <= |s| / 2 && n <= |s| / 2
    ensures FramesOf(t[..0]) == [] && |Ahead(s, read, n)| == n
    ensures Ahead(s, read, n + 0) == Ahead(s, read, n) + FramesOf(t[..0])
  {
  }

  lemma NothingWritten(s: seq<Sample>, read: nat, n: nat, t: seq<Sample>)
    requires read <= |s| / 2 && n <= |s| / 2
    ensures FramesOf(t[..0]) == [] && Newest(|s| / 2, Ahead(s, read, n) + FramesOf(t[..0])) == Ahead(s, read, n)
  {
    assert Ahead(s, read, n) + FramesOf(t[..0]) == Ahead(s, read, n);
  }

  lemma FramesNext(t: seq<Sample>, i: nat)
    requires 2 * i + 2 <= |t|
    ensures FramesOf(t[..2 * (i + 1)]) == FramesOf(t[..2 * i]) + [Frame(t[2 * i], t[2 * i + 1])]
  {
  }

  lemma AheadNext(s: seq<Sample>, read: nat, n: nat, i: nat)
    requires i < n <= |s| / 2 && read < |s| / 2
    ensures var slot := Wrapped(read + i, |s| / 2);
      && 0 <= slot < |s| / 2
      && Ahead(s, read, n)[..i + 1] == Ahead(s, read, n)[..i] + [Frame(s[2 * slot], s[2 * slot + 1])]
  {
    var turns := FramesOf(s) + FramesOf(s);
    assert Ahead(s, read, n)[i] == turns[read + i] == FramesOf(s)[Wrapped(read + i, |s| / 2)];
  }

  lemma WrapTwice(read: nat, n: nat, i: nat, capacity: nat)
    requires read < capacity && n + i < capacity
    ensures Wrapped(Wrapped(read + n, capacity) + i, capacity) == Wrapped(read + n + i, capacity)
  {
  }

  lemma KeptIsNewest(capacity: nat, was: seq<Frame>, added: seq<Frame>, kept: seq<Frame>, from: nat)
    requires |was| <= capacity
    requires if |added| >= capacity then kept == [] && from == |added| - capacity
             else from == 0 && kept == was[if |was| + |added| > capacity then |was| + |added| - capacity else 0..]
    ensures kept + added[from..] == Newest(capacity, was + added)
  {
  }

  // With the rest of the input behind them, the frames kept are the newest.
  lemma StoredIsNewest(capacity: nat, was: seq<Frame>, input: seq<Sample>, frames: nat, kept: seq<Frame>, from: nat, count: nat)
    requires |was| <= capacity && 2 * frames <= |input| && count <= frames && from == 2 * (frames - count)
    requires if frames >= capacity then count == capacity && kept == []
             else count == frames && kept == was[if |was| + frames > capacity then |was| + frames - capacity else 0..]
    ensures kept + FramesOf(input[from..from + 2 * count]) == Newest(capacity, was + FramesOf(input[..2 * frames]))
  {
    hide FramesOf, Newest;
    FramesSlice(input[..2 * frames], from, count);
    assert input[..2 * frames][from..from + 2 * count] == input[from..from + 2 * count];
    KeptIsNewest(capacity, was, FramesOf(input[..2 * frames]), kept, from / 2);
  }

  // Advancing the read position drops the oldest frames.
  lemma DropAhead(s: seq<Sample>, read: nat, n: nat, k: nat)
    requires read < |s| / 2 && n <= |s| / 2 && k <= n
    ensures Ahead(s, Wrapped(read + k, |s| / 2), n - k) == Ahead(s, read, n)[k..]
  {
  }

  // Storing a frame behind the queued ones appends it.
  lemma StoreAhead(s: seq<Sample>, t: seq<Sample>, read: nat, n: nat)
    requires |t| == |s| && read < |s| / 2 && n < |s| / 2
    requires var slot := Wrapped(read + n, |s| / 2);
      forall k | 0 <= k < |s| && k != 2 * slot && k != 2 * slot + 1 :: t[k] == s[k]
    ensures var slot := Wrapped(read + n, |s| / 2);
      && 0 <= slot < |s| / 2
      && Ahead(t, read, n + 1) == Ahead(s, read, n) + [Frame(t[2 * slot], t[2 * slot + 1])]
  {
  }

  lemma FramesSlice(s: seq<Sample>, from: nat, n: nat)
    requires from % 2 == 0 && from + 2 * n <= |s|
    ensures FramesOf(s[from..from + 2 * n]) == FramesOf(s)[from / 2..from / 2 + n]
  {
  }
}
