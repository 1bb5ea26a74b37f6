/**
 The aligned allocator the host uses to pass buffers to the core: a linked list of
 allocations over 32-bit addresses. `malloc` is a parameter: it returns 0 or a
 block that overlaps no live block and whose end is an address.
 */
module Allocator {
  import opened Bits
  import opened Wrappers

  newtype Address = x: int | 0 <= x < 0x1_0000_0000

  const MAX: Address := 0xffff_ffff

  datatype Status = InvalidArgument | OutOfMemory

  // One allocation: the block malloc returned and the aligned region inside it.
  datatype Entry = Entry(raw: Address, aligned: Address, size: Address, alignment: Address)

  function IsPowerOfTwo(value: Address): bool {
    value != 0 && And(value as int, value as int - 1) == 0
  }

  lemma PowerOfTwoIff(v: nat)
    ensures v > 0 && And(v, v - 1) == 0 <==> exists n: nat :: v == Pow2(n)
  {
    if v > 0 && And(v, v - 1) == 0 {
      var n := OneBit(v);
    }
    if n: nat :| v == Pow2(n) {
      PowerHasOneBit(n);
    }
  }

  lemma {:induction false} OneBit(v: nat) returns (n: nat)
    requires v > 0 && And(v, v - 1) == 0
    ensures v == Pow2(n)
  {
    hide And;
    Halve(v);
    if v == 1 {
      n := 0;
    } else {
      AndSelf(v / 2);
      n := OneBit(v / 2);
      n := n + 1;
    }
  }

  lemma {:induction false} PowerHasOneBit(n: nat)
    ensures And(Pow2(n), Pow2(n) - 1) == 0
  {
    if n > 0 {
      PowerHasOneBit(n - 1);
      Halve(Pow2(n));
    }
  }

  lemma Halve(v: nat)
    requires v > 0
    ensures v % 2 == 0 ==> And(v, v - 1) == 2 * And(v / 2, v / 2 - 1)
    ensures v % 2 == 1 ==> And(v, v - 1) == 2 * And(v / 2, v / 2)
  {
    AndStep(v, v - 1);
    hide And;
    var k := v / 2;
    if v % 2 == 0 {
      assert v - 1 == 2 * (k - 1) + 1;
    } else {
      assert v - 1 == 2 * k;
    }
  }

  lemma {:induction false} AndSelf(x: nat)
    ensures And(x, x) == x
  {
    hide And;
    if x == 0 {
      AndZero(0);
    } else {
      AndSelf(x / 2);
      AndStep(x, x);
      var bit := x % 2;
      assert bit == 0 || bit == 1;
      assert bit * bit == bit;
    }
  }

  // (raw + alignment - 1) & ~(alignment - 1)
  function AlignUp(raw: nat, alignment: nat): nat
    requires 0 < alignment
    requires raw + alignment <= 0x1_0000_0000
  {
    And(raw + alignment - 1, Mask(alignment))
  }

  function Mask(alignment: nat): nat
    requires 0 < alignment <= 0x1_0000_0000
  {
    0xffff_ffff - (alignment - 1)
  }

  // The mask moves an address up to the next multiple of the alignment.
  lemma AlignUpIsNextMultiple(raw: nat, alignment: nat)
    requires raw + alignment <= 0x1_0000_0000
    requires alignment > 0 && And(alignment, alignment - 1) == 0
    ensures var a := AlignUp(raw, alignment);
      a % alignment == 0 && raw <= a < raw + alignment
  {
    hide And, Pow2;
    PowerOfTwoIff(alignment);
    var n: nat :| alignment == Pow2(n);
    var x := raw + alignment - 1;
    Pow32();
    if n > 32 {
      PowMonotone(33, n);
    }
    HighMask(32, n, x);
    Multiple(x, alignment);
  }

  lemma Multiple(x: nat, p: nat)
    requires p > 0
    ensures (x - x % p) % p == 0 && x % p < p
  {
    ModUnique(x - x % p, p, x / p, 0);
  }

  // ---------- What the list holds ----------

  function BlockEnd(e: Entry): int {
    e.raw as int + e.size as int + e.alignment as int - 1
  }

  predicate WellPlaced(e: Entry) {
    && e.raw > 0 && e.size > 0 && 0 < e.alignment <= 4096
    && e.aligned as int % e.alignment as int == 0
    && e.raw <= e.aligned && e.aligned as int + e.size as int <= BlockEnd(e) <= MAX as int
  }

  predicate BlocksApart(e: Entry, f: Entry) {
    BlockEnd(e) <= f.raw as int || BlockEnd(f) <= e.raw as int
  }

  // Every region is aligned and inside its block, and no two blocks overlap.
  ghost predicate Placed(es: seq<Entry>) {
    && (forall i | 0 <= i < |es| :: WellPlaced(es[i]))
    && forall i, j | 0 <= i < j < |es| :: BlocksApart(es[i], es[j])
  }

  predicate Inside(e: Entry, ptr: nat, size: nat) {
    e.aligned as int <= ptr && ptr + size <= e.aligned as int + e.size as int
  }

  predicate RegionsApart(e: Entry, f: Entry) {
    e.aligned as int + e.size as int <= f.aligned as int || f.aligned as int + f.size as int <= e.aligned as int
  }

  // Live regions are disjoint, so a byte is in one at most and an address names one at most.
  lemma RegionsAreDisjoint(es: seq<Entry>, i: nat, j: nat)
    requires Placed(es) && i < |es| && j < |es|
    ensures i != j ==> RegionsApart(es[i], es[j])
    ensures es[i].aligned == es[j].aligned ==> i == j
    ensures es[i].raw == es[j].raw ==> i == j
    ensures forall ptr: nat | Inside(es[i], ptr, 1) && Inside(es[j], ptr, 1) :: i == j
  {
    if i < j {
      assert BlocksApart(es[i], es[j]);
    } else if j < i {
      assert BlocksApart(es[j], es[i]);
    }
  }

  // The place of the entry at `ptr`, or the length if there is none.
  function IndexOf(es: seq<Entry>, ptr: Address): (i: nat)
    ensures i <= |es|
    ensures i < |es| ==> es[i].aligned == ptr
    ensures forall j | 0 <= j < i :: es[j].aligned != ptr
  {
    if es == [] || es[0].aligned == ptr then 0 else 1 + IndexOf(es[1..], ptr)
  }

  // An address handed out names its entry and no other.
  lemma IndexOfIsUnique(es: seq<Entry>, i: nat)
    requires Placed(es) && i < |es|
    ensures IndexOf(es, es[i].aligned) == i
  {
    RegionsAreDisjoint(es, i, IndexOf(es, es[i].aligned));
  }

  lemma PlacedAt(es: seq<Entry>, i: nat)
    requires Placed(es) && i < |es|
    ensures WellPlaced(es[i]) && es[i] in es && es[i].raw in Raws(es)
  {
  }

  function Without<T>(s: seq<T>, i: nat): seq<T>
    requires i < |s|
  {
    s[..i] + s[i + 1..]
  }

  lemma WithoutAt<T>(s: seq<T>, i: nat)
    requires i < |s|
    ensures var r := Without(s, i);
      |r| == |s| - 1 && forall k | 0 <= k < |r| :: r[k] == s[if k < i then k else k + 1]
  {
  }

  lemma WithoutStaysPlaced(es: seq<Entry>, i: nat)
    requires Placed(es) && i < |es|
    ensures Placed(Without(es, i))
    ensures Raws(Without(es, i)) == Raws(es) - {es[i].raw}
  {
    var r := Without(es, i);
    forall k | 0 <= k < |r|
      ensures r[k] == es[if k < i then k else k + 1]
    {
    }
    forall j | 0 <= j < |es| && j != i
      ensures es[j] in r && es[j].raw != es[i].raw
    {
      assert es[j] == r[if j < i then j else j - 1];
      RegionsAreDisjoint(es, i, j);
    }
  }

  function Raws(es: seq<Entry>): set<Address> {
    set e | e in es :: e.raw
  }

  // ---------- The program ----------

  class Allocation {
    const raw: Address
    const aligned: Address
    const size: Address
    const alignment: Address
    var next: Allocation?

    constructor (raw: Address, aligned: Address, size: Address, alignment: Address, next: Allocation?)
      ensures Describes(Entry(raw, aligned, size, alignment)) && this.next == next
    {
      this.raw, this.aligned, this.size, this.alignment, this.next := raw, aligned, size, alignment, next;
    }

    predicate Describes(e: Entry) {
      e == Entry(raw, aligned, size, alignment)
    }
  }

  ghost function Nth(nodes: seq<Allocation>, i: nat): Allocation? {
    if i < |nodes| then nodes[i] else null
  }

  ghost predicate Chain(head: Allocation?, nodes: seq<Allocation>, entries: seq<Entry>)
    reads nodes
  {
    && |entries| == |nodes|
    && (forall i | 0 <= i < |nodes| :: nodes[i].Describes(entries[i]))
    && head == Nth(nodes, 0)
    && (forall i | 0 <= i < |nodes| :: nodes[i].next == Nth(nodes, i + 1))
    && forall i, j | 0 <= i < j < |nodes| :: nodes[i] != nodes[j]
  }

  // A chain in which the link to node i goes past it is the chain without that node.
  lemma BypassedIsChain(head: Allocation?, nodes: seq<Allocation>, entries: seq<Entry>, i: nat)
    requires |entries| == |nodes| && i < |nodes|
    requires forall k | 0 <= k < |nodes| :: nodes[k].Describes(entries[k])
    requires forall j, k | 0 <= j < k < |nodes| :: nodes[j] != nodes[k]
    requires head == if i == 0 then Nth(nodes, 1) else nodes[0]
    requires forall k | 0 <= k < |nodes| && k != i :: nodes[k].next == Nth(nodes, if k + 1 == i then k + 2 else k + 1)
    ensures Chain(head, Without(nodes, i), Without(entries, i))
  {
    WithoutAt(nodes, i);
    WithoutAt(entries, i);
    hide Without;
    var rest := Without(nodes, i);
    forall k: nat | k <= |rest|
      ensures Nth(rest, k) == Nth(nodes, if k < i then k else k + 1)
    {
    }
  }

  class Allocator {
    var head: Allocation?
    var error: Option<Status>
    ghost var nodes: seq<Allocation>
    ghost var entries: seq<Entry>
    ghost var heap: set<Address> // blocks of malloc held by this allocator

    ghost predicate Valid()
      reads this, nodes
    {
      Linked() && Placed(entries) && heap == Raws(entries)
    }

    // The list from `head` is `nodes`, and its fields are `entries`.
    ghost predicate Linked()
      reads this`head, this`nodes, this`entries, nodes
    {
      Chain(head, nodes, entries)
    }

    ghost function NodeAt(i: nat): Allocation?
      reads this`nodes
    {
      Nth(nodes, i)
    }

    constructor ()
      ensures Valid() && entries == []
    {
      head, error, nodes, entries, heap := null, None, [], [], {};
    }

    // free(raw) on a block that malloc returned and that is still held.
    ghost method Release(raw: Address)
      requires raw in heap
      modifies this`heap
      ensures heap == old(heap) - {raw}
    {
      heap := heap - {raw};
    }

    // `available` and `raw` are the results of calloc and malloc.
    method Alloc(size: Address, alignment: Address, available: bool, raw: Address) returns (r: Address)
      requires Valid()
      requires raw != 0 ==> raw as int + size as int + alignment as int - 1 <= MAX as int
      requires raw != 0 ==> forall e | e in entries ::
        BlocksApart(Entry(raw, 0, size, alignment), e)
      modifies this
      ensures Valid()
      ensures error ==
        if size == 0 || !(exists n: nat :: alignment as int == Pow2(n)) || alignment > 4096 then Some(InvalidArgument)
        else if size > MAX - alignment || !available || raw == 0 then Some(OutOfMemory)
        else None
      ensures error.Some? ==> r == 0 && entries == old(entries)
      ensures error.None? ==>
        && entries == [Entry(raw, r, size, alignment)] + old(entries)
        && r as int % alignment as int == 0 && raw <= r
        && r as int + size as int <= raw as int + size as int + alignment as int - 1
    {
      hide AlignUp, Placed, Linked;
      PowerOfTwoIff(alignment as int);
      NotHeld(raw, size, alignment, entries);
      if size == 0 || !IsPowerOfTwo(alignment) || alignment > 4096 {
        error := Some(InvalidArgument);
        return 0;
      }
      if size > MAX - alignment {
        error := Some(OutOfMemory);
        return 0;
      }
      if raw != 0 {
        heap := heap + {raw};
      }
      if !available || raw == 0 {
        if raw != 0 {
          Release(raw);
        }
        error := Some(OutOfMemory);
        return 0;
      }
      AlignUpIsNextMultiple(raw as int, alignment as int);
      var aligned := AlignUp(raw as int, alignment as int) as Address;
      PushStaysPlaced(Entry(raw, aligned, size, alignment), entries);
      Push(raw, aligned, size, alignment);
      error := None;
      return aligned;
    }

    method Push(raw: Address, aligned: Address, size: Address, alignment: Address)
      requires Linked()
      modifies this`head, this`nodes, this`entries
      ensures Linked() && entries == [Entry(raw, aligned, size, alignment)] + old(entries)
    {
      var allocation := new Allocation(raw, aligned, size, alignment, head);
      head := allocation;
      nodes := [allocation] + nodes;
      entries := [Entry(raw, aligned, size, alignment)] + entries;
    }

    // The node holding `ptr`, and the one whose `next` is the cursor, null for the head.
    method Find(ptr: Address) returns (at: Allocation?, previous: Allocation?, ghost i: nat)
      requires Linked()
      ensures at == NodeAt(IndexOf(entries, ptr))
      ensures i == IndexOf(entries, ptr) && |nodes| == |entries|
      ensures previous == if i == 0 then null else nodes[i - 1]
      ensures at != null ==> at.Describes(entries[i])
    {
      at, previous, i := head, null, 0;
      while at != null && at.aligned != ptr
        invariant i <= |nodes| && at == NodeAt(i) && (previous == if i == 0 then null else nodes[i - 1])
        invariant IndexOf(entries, ptr) == i + IndexOf(entries[i..], ptr)
        decreases |nodes| - i
      {
        previous, at, i := at, at.next, i + 1;
      }
    }

    // Takes the node behind the cursor out of the list.
    method Unlink(at: Allocation, previous: Allocation?, ghost i: nat)
      requires Linked() && i < |nodes| && at == nodes[i] && (previous == if i == 0 then null else nodes[i - 1])
      modifies this`head, this`nodes, this`entries, nodes
      ensures Linked() && entries == Without(old(entries), i)
    {
      hide Chain, Without;
      Bypass(at, previous, i);
      nodes, entries := Without(nodes, i), Without(entries, i);
    }

    // *cursor = allocation->next
    method Bypass(at: Allocation, previous: Allocation?, ghost i: nat)
      requires Linked() && i < |nodes| && at == nodes[i] && (previous == if i == 0 then null else nodes[i - 1])
      modifies this`head, nodes
      ensures |entries| == |nodes| && Chain(head, Without(nodes, i), Without(entries, i))
    {
      if previous == null {
        head := at.next;
      } else {
        previous.next := at.next;
      }
      BypassedIsChain(head, nodes, entries, i);
    }

    method Free(ptr: Address, size: Address, alignment: Address)
      requires Valid()
      modifies this, nodes
      ensures Valid()
      ensures var i := IndexOf(old(entries), ptr);
        if i < |old(entries)| && old(entries)[i].size == size && old(entries)[i].alignment == alignment
        then error == None && entries == Without(old(entries), i)
        else error == Some(InvalidArgument) && entries == old(entries)
    {
      hide Placed, Raws, Linked;
      var at, previous, i := Find(ptr);
      if at == null {
        error := Some(InvalidArgument);
        return;
      }
      if at.size != size || at.alignment != alignment {
        error := Some(InvalidArgument);
        return;
      }
      WithoutStaysPlaced(entries, i);
      PlacedAt(entries, i);
      Unlink(at, previous, i);
      Release(at.raw);
      error := None;
    }

    // Whether the range lies in one live region; a range that wraps does not.
    method Contains(ptr: Address, size: Address) returns (found: bool)
      requires Valid()
      ensures found <==>
        ptr != 0 && ptr as int + size as int <= MAX as int && exists e | e in entries :: Inside(e, ptr as int, size as int)
    {
      hide Placed;
      if ptr == 0 || size > MAX - ptr {
        return false;
      }
      var end := ptr + size;
      var allocation := head;
      ghost var i := 0;
      while allocation != null
        invariant i <= |nodes| && allocation == NodeAt(i)
        invariant forall j | 0 <= j < i :: !Inside(entries[j], ptr as int, size as int)
        decreases |nodes| - i
      {
        PlacedAt(entries, i);
        assert nodes[i].Describes(entries[i]);
        var allocationEnd := allocation.aligned + allocation.size;
        if ptr >= allocation.aligned && end <= allocationEnd {
          assert Inside(entries[i], ptr as int, size as int);
          return true;
        }
        allocation, i := allocation.next, i + 1;
      }
      return false;
    }

    // Every block is freed, each once.
    method ReleaseAll()
      requires Valid()
      modifies this
      ensures Valid() && entries == [] && heap == {}
    {
      hide Placed, Raws, Linked;
      NothingHeld();
      NullIsEmpty();
      while head != null
        invariant Valid() && (head == null ==> entries == [])
        decreases |nodes|
      {
        ghost var es := entries;
        var raw := Pop();
        WithoutStaysPlaced(es, 0);
        PlacedAt(es, 0);
        Release(raw);
        NullIsEmpty();
      }
    }

    lemma NullIsEmpty()
      requires Linked()
      ensures head == null <==> entries == []
    {
    }

    method Pop() returns (raw: Address)
      requires Linked() && head != null
      modifies this`head, this`nodes, this`entries
      ensures Linked() && old(entries) != [] && entries == Without(old(entries), 0) && raw == old(entries)[0].raw
      ensures |nodes| == |old(nodes)| - 1
    {
      raw := head.raw;
      head := head.next;
      nodes, entries := nodes[1..], Without(entries, 0);
    }
  }

  lemma NotHeld(raw: Address, size: Address, alignment: Address, es: seq<Entry>)
    requires Placed(es)
    ensures (forall e | e in es :: BlocksApart(Entry(raw, 0, size, alignment), e)) && size > 0 && alignment > 0
      ==> raw !in Raws(es)
  {
  }

  lemma NothingHeld()
    ensures Raws([]) == {}
  {
  }

  lemma PushStaysPlaced(e: Entry, es: seq<Entry>)
    requires Placed(es) && WellPlaced(e) && forall f | f in es :: BlocksApart(e, f)
    ensures Placed([e] + es)
    ensures Raws([e] + es) == Raws(es) + {e.raw}
  {
    forall f | f in [e] + es
      ensures f == e || f in es
    {
    }
    assert ([e] + es)[0] == e;
    forall f | f in es
      ensures f in [e] + es
    {
    }
  }
}
