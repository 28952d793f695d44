/** The two bitmap allocators of `main.c`: `gmpool` hands out 1 MiB units of pinned memory, `vm` hands
    out pages of the mapped area.  They are the same algorithm with a different unit size.

    The first half is the specification: the allocator as a value (bitmap and size table) with its
    operations as functions, and what holds over every sequence of them.  The second half is the code,
    in place on two arrays, proved against those functions. */
module Allocator {
  import opened Options
  import opened Words

  const U32: int := 0x1_0000_0000
  const KGPU_BUF_UNIT_SIZE: nat := 1024 * 1024

  /** Where the pool lies: `n` units of `unit` bytes from `base`, below the top of the address space. */
  datatype Geometry = Geometry(base: u64, unit: nat, n: nat) {
    ghost predicate Valid() {
      0 < unit <= U32 && n < U32 && base + n * unit <= WORD
    }
  }

  /** `bitmap` and `alloc_sz`. */
  datatype Pool = Pool(bits: seq<bool>, sz: seq<nat>)

  ghost predicate Sized(g: Geometry, s: Pool) {
    g.Valid() && |s.bits| == |s.sz| == g.n
  }

  /** `DIV_ROUND_UP(nbytes, unit)` in 64 bits, stored in an `unsigned int`. */
  function Units(nbytes: u64, unit: nat): nat
    requires 0 < unit <= U32
  {
    (Sub64(Add64(nbytes, unit), 1) / unit) % U32
  }

  /** An area of `n` clear bits starts at the clear bit `i`. */
  ghost predicate FreeRun(bits: seq<bool>, n: nat, i: nat) {
    i < |bits| && i + n <= |bits| && !bits[i] && forall k :: i <= k < i + n ==> !bits[k]
  }

  /** The first free run at or after `from`, scanning upwards. */
  ghost function FirstFit(bits: seq<bool>, n: nat, from: nat): Option<nat>
    decreases |bits| - from
  {
    if from >= |bits| then None
    else if FreeRun(bits, n, from) then Some(from)
    else FirstFit(bits, n, from + 1)
  }

  ghost function Fill(bits: seq<bool>, i: nat, n: nat, v: bool): (out: seq<bool>)
    ensures |out| == |bits|
  {
    seq(|bits|, k requires 0 <= k < |bits| => if i <= k < i + n then v else bits[k])
  }

  lemma UnitAddress(g: Geometry, i: nat)
    requires g.Valid() && i < g.n
    ensures 0 <= i * g.unit && g.base + i * g.unit + g.unit <= g.base + g.n * g.unit <= WORD
  {
    MulMonotone(i + 1, g.n, g.unit);
    assert (i + 1) * g.unit == i * g.unit + g.unit;
  }

  lemma MulMonotone(a: int, b: int, u: int)
    requires a <= b && u >= 0
    ensures a * u <= b * u
  {
  }

  /** The address of unit `i`. */
  function Address(g: Geometry, i: nat): (p: u64)
    requires g.Valid() && i < g.n
    ensures p == g.base + i * g.unit
  {
    UnitAddress(g, i);
    Add64(g.base, i * g.unit)
  }

  datatype AllocOut = AllocOut(pool: Pool, ptr: Option<u64>)

  lemma {:induction false} FirstFitSound(bits: seq<bool>, n: nat, from: nat)
    ensures FirstFit(bits, n, from).Some? ==>
      var i := FirstFit(bits, n, from).value;
      from <= i && FreeRun(bits, n, i) && forall j :: from <= j < i ==> !FreeRun(bits, n, j)
    ensures FirstFit(bits, n, from).None? ==> forall j :: from <= j ==> !FreeRun(bits, n, j)
    decreases |bits| - from
  {
    if from < |bits| && !FreeRun(bits, n, from) {
      FirstFitSound(bits, n, from + 1);
    }
  }

  /** `kgpu_vmalloc` and `kgpu_alloc_mmap_area`. */
  ghost function Malloc(g: Geometry, s: Pool, nbytes: u64): (out: AllocOut)
    requires Sized(g, s)
    ensures Sized(g, out.pool)
  {
    var n := Units(nbytes, g.unit);
    FirstFitSound(s.bits, n, 0);
    match FirstFit(s.bits, n, 0)
    case Some(i) => AllocOut(Pool(Fill(s.bits, i, n, true), s.sz[i := n]), Some(Address(g, i)))
    case None => AllocOut(s, None)
  }

  datatype FreeKind = BadPointer | NotABlock | BadInfo | Released

  datatype FreeOut = FreeOut(pool: Pool, kind: FreeKind)

  /** The unit index computed from a pointer, the subtraction wrapping. */
  function Index(g: Geometry, p: u64): nat
    requires g.Valid()
  {
    Sub64(p, g.base) / g.unit
  }

  /** `kgpu_vfree` and `kgpu_free_mmap_area`. */
  ghost function Free(g: Geometry, s: Pool, p: u64): (out: FreeOut)
    requires Sized(g, s)
    ensures Sized(g, out.pool)
  {
    var i := Index(g, p);
    if i >= g.n then FreeOut(s, BadPointer)
    else if s.sz[i] == 0 then FreeOut(s, NotABlock)
    else if s.sz[i] > g.n - i then FreeOut(s, BadInfo)
    else FreeOut(Pool(Fill(s.bits, i, s.sz[i], false), s.sz[i := 0]), Released)
  }

  // ----- the invariant -----

  /** Unit `k` belongs to the live block that starts at `i`. */
  predicate Owns(s: Pool, i: nat, k: int) {
    i < |s.sz| && i <= k < i + s.sz[i]
  }

  /** The set bits are exactly the disjoint union of the live blocks recorded in the size table. */
  ghost predicate Agree(s: Pool) {
    && |s.bits| == |s.sz|
    && (forall i, k :: Owns(s, i, k) ==> k < |s.bits| && s.bits[k])
    && (forall i, j, k :: Owns(s, i, k) && Owns(s, j, k) ==> i == j)
    && (forall k :: 0 <= k < |s.bits| && s.bits[k] ==> exists i :: Owns(s, i, k))
  }

  lemma OwnsFirst(s: Pool, i: nat)
    requires i < |s.sz|
    ensures s.sz[i] > 0 ==> Owns(s, i, i) && Owns(s, i, i + s.sz[i] - 1)
  {
  }

  /** A live block stays inside the table, so "incorrect allocation info" cannot be reported. */
  lemma BlockInside(s: Pool, i: nat)
    requires Agree(s) && i < |s.sz|
    ensures i + s.sz[i] <= |s.sz|
  {
    if s.sz[i] > 0 {
      OwnsFirst(s, i);
    }
  }

  /** No live block starts inside another. */
  lemma BlocksOrdered(s: Pool, i: nat, j: nat)
    requires Agree(s) && i < j < |s.sz| && s.sz[i] > 0 && s.sz[j] > 0
    ensures i + s.sz[i] <= j
  {
    OwnsFirst(s, j);
    assert !Owns(s, i, j);
  }

  lemma MallocKeepsAgree(g: Geometry, s: Pool, nbytes: u64)
    requires Sized(g, s) && Agree(s)
    ensures Agree(Malloc(g, s, nbytes).pool)
  {
    var n := Units(nbytes, g.unit);
    FirstFitSound(s.bits, n, 0);
    if FirstFit(s.bits, n, 0).Some? {
      var a := FirstFit(s.bits, n, 0).value;
      ReserveKeepsAgree(s, a, n);
    }
  }

  /** What reserving a free run does to ownership. */
  lemma ReserveOwns(s: Pool, a: nat, n: nat, i: nat, k: int)
    requires Agree(s) && FreeRun(s.bits, n, a)
    ensures Owns(Pool(Fill(s.bits, a, n, true), s.sz[a := n]), i, k) <==>
      Owns(s, i, k) || (i == a && a <= k < a + n)
    ensures Owns(s, i, k) ==> !(a <= k < a + n) && i != a
  {
    if s.sz[a] > 0 {
      OwnsFirst(s, a);
    }
  }

  lemma ReserveKeepsAgree(s: Pool, a: nat, n: nat)
    requires Agree(s) && FreeRun(s.bits, n, a)
    ensures Agree(Pool(Fill(s.bits, a, n, true), s.sz[a := n]))
  {
    var t := Pool(Fill(s.bits, a, n, true), s.sz[a := n]);
    forall i, k | Owns(t, i, k) ensures k < |t.bits| && t.bits[k] {
      ReserveOwns(s, a, n, i, k);
    }
    forall i, j, k | Owns(t, i, k) && Owns(t, j, k) ensures i == j {
      ReserveOwns(s, a, n, i, k);
      ReserveOwns(s, a, n, j, k);
    }
    forall k | 0 <= k < |t.bits| && t.bits[k] ensures exists i :: Owns(t, i, k) {
      if a <= k < a + n {
        ReserveOwns(s, a, n, a, k);
        assert Owns(t, a, k);
      } else {
        var i :| Owns(s, i, k);
        ReserveOwns(s, a, n, i, k);
        assert Owns(t, i, k);
      }
    }
  }

  lemma ReleaseKeepsAgree(s: Pool, a: nat)
    requires Agree(s) && a < |s.sz|
    ensures Agree(Pool(Fill(s.bits, a, s.sz[a], false), s.sz[a := 0]))
  {
    var t := Pool(Fill(s.bits, a, s.sz[a], false), s.sz[a := 0]);
    forall i, k ensures Owns(t, i, k) <==> Owns(s, i, k) && i != a {
    }
    forall i, k | Owns(t, i, k) ensures k < |t.bits| && t.bits[k] {
      assert Owns(s, i, k) && !Owns(s, a, k);
    }
    forall k | 0 <= k < |t.bits| && t.bits[k] ensures exists i :: Owns(t, i, k) {
      var i :| Owns(s, i, k);
      assert !Owns(s, a, k);
      assert Owns(t, i, k);
    }
  }

  lemma FreeKeepsAgree(g: Geometry, s: Pool, p: u64)
    requires Sized(g, s) && Agree(s)
    ensures Agree(Free(g, s, p).pool)
    ensures Free(g, s, p).kind != BadInfo
  {
    var i := Index(g, p);
    if i < g.n {
      BlockInside(s, i);
      ReleaseKeepsAgree(s, i);
    }
  }

  // ----- every sequence of operations -----

  datatype Op = MallocOp(nbytes: u64) | FreeOp(p: u64)

  ghost function Apply(g: Geometry, s: Pool, op: Op): (t: Pool)
    requires Sized(g, s)
    ensures Sized(g, t)
  {
    match op
    case MallocOp(nbytes) => Malloc(g, s, nbytes).pool
    case FreeOp(p) => Free(g, s, p).pool
  }

  ghost function Run(g: Geometry, s: Pool, ops: seq<Op>): (t: Pool)
    requires Sized(g, s)
    ensures Sized(g, t)
    decreases |ops|
  {
    if ops == [] then s else Run(g, Apply(g, s, ops[0]), ops[1..])
  }

  /** The state `set_vm` builds: a clear bitmap and a fully cleared size table. */
  ghost function Cleared(n: nat): Pool {
    Pool(seq(n, _ => false), seq(n, _ => 0))
  }

  lemma {:induction false} RunKeepsAgree(g: Geometry, s: Pool, ops: seq<Op>)
    requires Sized(g, s) && Agree(s)
    ensures Agree(Run(g, s, ops))
    decreases |ops|
  {
    if ops != [] {
      match ops[0] {
        case MallocOp(nbytes) => MallocKeepsAgree(g, s, nbytes);
        case FreeOp(p) => FreeKeepsAgree(g, s, p);
      }
      RunKeepsAgree(g, Apply(g, s, ops[0]), ops[1..]);
    }
  }

  /** Allocator agreement: after any sequence of allocations and frees, bitmap and size table agree, as
      many bits are set as the sizes add up to, and no free reports incorrect allocation info. */
  lemma AgreementAlways(g: Geometry, ops: seq<Op>, p: u64)
    requires g.Valid()
    ensures var s := Run(g, Cleared(g.n), ops);
      && Agree(s)
      && CountSet(s.bits, 0) == SumSizes(s.sz, 0)
      && Free(g, s, p).kind != BadInfo
  {
    RunKeepsAgree(g, Cleared(g.n), ops);
    var s := Run(g, Cleared(g.n), ops);
    BitsMatchSizes(s, 0);
    FreeKeepsAgree(g, s, p);
  }

  // ----- counting -----

  ghost function CountSet(bits: seq<bool>, from: nat): nat
    decreases |bits| - from
  {
    if from >= |bits| then 0 else (if bits[from] then 1 else 0) + CountSet(bits, from + 1)
  }

  ghost function SumSizes(sz: seq<nat>, from: nat): nat
    decreases |sz| - from
  {
    if from >= |sz| then 0 else sz[from] + SumSizes(sz, from + 1)
  }

  /** No block that starts before `k` reaches `k`. */
  ghost predicate Boundary(s: Pool, k: nat) {
    forall i :: Owns(s, i, k) ==> i == k
  }

  lemma {:induction false} CountRun(bits: seq<bool>, from: nat, end: nat)
    requires from <= end <= |bits| && forall k :: from <= k < end ==> bits[k]
    ensures CountSet(bits, from) == end - from + CountSet(bits, end)
    decreases end - from
  {
    if from < end {
      CountRun(bits, from + 1, end);
    }
  }

  lemma {:induction false} SumZeros(sz: seq<nat>, from: nat, end: nat)
    requires from <= end <= |sz| && forall k :: from <= k < end ==> sz[k] == 0
    ensures SumSizes(sz, from) == SumSizes(sz, end)
    decreases end - from
  {
    if from < end {
      SumZeros(sz, from + 1, end);
    }
  }

  lemma {:induction false} BitsMatchSizes(s: Pool, k: nat)
    requires Agree(s) && k <= |s.sz| && Boundary(s, k)
    ensures CountSet(s.bits, k) == SumSizes(s.sz, k)
    decreases |s.sz| - k
  {
    if k < |s.sz| {
      if s.sz[k] == 0 {
        assert !s.bits[k];
        NextBoundary(s, k, k + 1);
        BitsMatchSizes(s, k + 1);
      } else {
        var e := k + s.sz[k];
        OwnsFirst(s, k);
        forall j | k <= j < e ensures s.bits[j] && (k < j ==> s.sz[j] == 0) {
          assert Owns(s, k, j);
          OwnsFirst(s, j);
        }
        CountRun(s.bits, k, e);
        SumZeros(s.sz, k + 1, e);
        NextBoundary(s, k, e);
        BitsMatchSizes(s, e);
      }
    }
  }

  /** From one boundary, the end of the block there (or the next unit, if none) is a boundary. */
  lemma NextBoundary(s: Pool, k: nat, e: nat)
    requires Agree(s) && k < |s.sz| && Boundary(s, k)
    requires e == if s.sz[k] == 0 then k + 1 else k + s.sz[k]
    ensures Boundary(s, e)
  {
    forall i: nat | Owns(s, i, e) ensures i == e {
      if i < e {
        if s.sz[k] > 0 {
          OwnsFirst(s, k);
        }
        if i <= k {
          assert Owns(s, i, k);
        } else {
          OwnsFirst(s, i);
          assert Owns(s, k, i);
        }
      }
    }
  }

  // ----- bytes -----

  /** Byte address `b` belongs to the live block that starts at unit `i`. */
  ghost predicate InBlock(g: Geometry, s: Pool, i: nat, b: int)
    requires Sized(g, s)
  {
    i < g.n && s.sz[i] > 0 && g.base + i * g.unit <= b < g.base + (i + s.sz[i]) * g.unit
  }

  /** A live block lies inside its pool. */
  lemma BlockInPool(g: Geometry, s: Pool, i: nat, b: int)
    requires Sized(g, s) && Agree(s) && InBlock(g, s, i, b)
    ensures g.base <= b < g.base + g.n * g.unit
  {
    BlockInside(s, i);
    MulMonotone(i + s.sz[i], g.n, g.unit);
    MulMonotone(0, i, g.unit);
  }

  /** Live blocks lie inside the pool and share no byte. */
  lemma BlocksDisjoint(g: Geometry, s: Pool, i: nat, j: nat, b: int)
    requires Sized(g, s) && Agree(s) && InBlock(g, s, i, b)
    ensures g.base <= b < g.base + g.n * g.unit
    ensures InBlock(g, s, j, b) ==> i == j
  {
    BlockInPool(g, s, i, b);
    if InBlock(g, s, j, b) {
      if i < j {
        BlocksOrdered(s, i, j);
        MulMonotone(i + s.sz[i], j, g.unit);
      } else if j < i {
        BlocksOrdered(s, j, i);
        MulMonotone(j + s.sz[j], i, g.unit);
      }
    }
  }

  // ----- what one allocation and one free do -----

  /** First fit is complete: the address returned is that of the lowest free run, and there is no
      address exactly when no free run exists. */
  lemma FirstFitComplete(g: Geometry, s: Pool, nbytes: u64)
    requires Sized(g, s)
    ensures var n := Units(nbytes, g.unit);
      var out := Malloc(g, s, nbytes);
      && (out.ptr.None? <==> !exists i: nat :: FreeRun(s.bits, n, i))
      && (out.ptr.None? ==> out.pool == s)
      && (out.ptr.Some? ==> exists i: nat ::
           && FreeRun(s.bits, n, i) && out.ptr.value == Address(g, i)
           && (forall j: nat :: FreeRun(s.bits, n, j) ==> i <= j)
           && out.pool.sz == s.sz[i := n])
  {
    var n := Units(nbytes, g.unit);
    FirstFitSound(s.bits, n, 0);
    if FirstFit(s.bits, n, 0).Some? {
      assert FreeRun(s.bits, n, FirstFit(s.bits, n, 0).value);
    }
  }

  lemma QuotientParts(x: nat, d: nat, n: nat)
    requires d > 0
    ensures x == (x / d) * d + x % d && 0 <= x % d < d
    ensures x < n * d ==> x / d < n
  {
    if x / d >= n {
      MulMonotone(n, x / d, d);
    }
  }

  lemma LargestRequest(unit: nat)
    requires 0 < unit <= U32
    ensures (U32 - 1) * unit + unit == U32 * unit <= WORD
  {
    MulMonotone(unit, U32, U32);
  }

  /** A request the 32-bit count can express is rounded up to whole units. */
  lemma UnitsRoundUp(nbytes: u64, unit: nat)
    requires 0 < unit <= U32 && nbytes <= (U32 - 1) * unit
    ensures nbytes <= Units(nbytes, unit) * unit < nbytes + unit
  {
    LargestRequest(unit);
    var t := nbytes + unit - 1;
    assert Sub64(Add64(nbytes, unit), 1) == t;
    QuotientParts(t, unit, U32);
    assert Units(nbytes, unit) == t / unit;
  }

  lemma UnitsTooFew(nbytes: u64, unit: nat)
    requires 0 < unit <= U32 && nbytes > (U32 - 1) * unit
    ensures Units(nbytes, unit) * unit < nbytes
  {
    MulMonotone(Units(nbytes, unit), U32 - 1, unit);
  }

  /** The units reserved hold the bytes asked for exactly up to the largest size a 32-bit unit count can
      express; beyond that the stored count is truncated and the block is too small. */
  lemma UnitsCoverRequest(nbytes: u64, unit: nat)
    requires 0 < unit <= U32
    ensures nbytes <= Units(nbytes, unit) * unit <==> nbytes <= (U32 - 1) * unit
    ensures nbytes <= (U32 - 1) * unit ==> Units(nbytes, unit) * unit < nbytes + unit
  {
    if nbytes <= (U32 - 1) * unit {
      UnitsRoundUp(nbytes, unit);
    } else {
      UnitsTooFew(nbytes, unit);
    }
  }

  /** A request for 2^32 units of the pool is truncated to none: it succeeds and reserves nothing. */
  lemma HugeRequestReservesNothing(g: Geometry, s: Pool, nbytes: u64)
    requires Sized(g, s) && g.unit == KGPU_BUF_UNIT_SIZE && nbytes == 0x10_0000_0000_0000
    ensures Units(nbytes, g.unit) == 0 && Malloc(g, s, nbytes).pool.bits == s.bits
  {
    var n := Units(nbytes, g.unit);
    assert n == 0;
    FirstFitSound(s.bits, n, 0);
    if FirstFit(s.bits, n, 0).Some? {
      FillUndone(s.bits, FirstFit(s.bits, n, 0).value, n);
    }
  }

  /** A pointer has a unit index below `n` exactly when it points into the pool. */
  lemma IndexInPool(g: Geometry, p: u64)
    requires g.Valid()
    ensures Index(g, p) < g.n <==> g.base <= p < g.base + g.n * g.unit
    ensures Index(g, p) < g.n ==> g.base + Index(g, p) * g.unit <= p < g.base + (Index(g, p) + 1) * g.unit
  {
    var d := Sub64(p, g.base);
    var i := d / g.unit;
    QuotientParts(d, g.unit, g.n);
    assert (i + 1) * g.unit == i * g.unit + g.unit;
    if i < g.n {
      MulMonotone(i + 1, g.n, g.unit);
    } else {
      MulMonotone(g.n, i, g.unit);
    }
  }

  /** Free precision: freeing a pointer releases exactly the live block whose first unit holds it, and
      changes nothing when there is none. */
  lemma FreePrecise(g: Geometry, s: Pool, p: u64)
    requires Sized(g, s) && Agree(s)
    ensures var t := Free(g, s, p).pool;
      if exists i: nat :: i < g.n && s.sz[i] > 0 && FirstUnitHolds(g, i, p) then
        exists a: nat :: a < g.n && s.sz[a] > 0 && FirstUnitHolds(g, a, p)
          && t.sz == s.sz[a := 0]
          && forall k :: 0 <= k < g.n ==> t.bits[k] == (s.bits[k] && !Owns(s, a, k))
      else t == s
  {
    IndexInPool(g, p);
    var a := Index(g, p);
    var t := Free(g, s, p).pool;
    forall i: nat | i < g.n && FirstUnitHolds(g, i, p) ensures i == a {
      UnitAddress(g, i);
      FirstUnitUnique(g, i, a, p);
    }
    if a < g.n && s.sz[a] > 0 {
      BlockInside(s, a);
      assert FirstUnitHolds(g, a, p);
      assert forall k :: 0 <= k < g.n ==> t.bits[k] == (s.bits[k] && !Owns(s, a, k));
    }
  }

  ghost predicate FirstUnitHolds(g: Geometry, i: nat, p: u64) {
    g.base + i * g.unit <= p < g.base + (i + 1) * g.unit
  }

  lemma FirstUnitUnique(g: Geometry, i: nat, a: nat, p: u64)
    requires g.Valid() && FirstUnitHolds(g, i, p) && FirstUnitHolds(g, a, p)
    ensures i == a
  {
    if i < a {
      MulMonotone(i + 1, a, g.unit);
    } else if a < i {
      MulMonotone(a + 1, i, g.unit);
    }
  }

  /** The address of a unit leads back to the unit. */
  lemma AddressIndex(g: Geometry, a: nat)
    requires g.Valid() && a < g.n
    ensures Index(g, Address(g, a)) == a
  {
    UnitAddress(g, a);
    assert Sub64(Address(g, a), g.base) == a * g.unit;
    QuotientUnique(a * g.unit, g.unit, a, 0);
  }

  /** No block starts at a unit that is free. */
  lemma FreeUnitHasNoSize(s: Pool, a: nat)
    requires Agree(s) && a < |s.bits| == |s.sz| && !s.bits[a]
    ensures s.sz[a] == 0
  {
    OwnsFirst(s, a);
  }

  /** Setting a free run and clearing it again. */
  lemma FillUndone(bits: seq<bool>, a: nat, n: nat)
    requires FreeRun(bits, n, a)
    ensures Fill(Fill(bits, a, n, true), a, n, false) == bits
    ensures n == 0 ==> Fill(bits, a, n, true) == bits
  {
  }

  /** A release undoes a reservation of a free run. */
  lemma FreeUndoes(g: Geometry, s: Pool, a: nat, n: nat)
    requires Sized(g, s) && a < g.n && FreeRun(s.bits, n, a) && s.sz[a] == 0
    ensures Free(g, Pool(Fill(s.bits, a, n, true), s.sz[a := n]), Address(g, a)).pool == s
  {
    AddressIndex(g, a);
    FillUndone(s.bits, a, n);
    assert s.sz[a := n][a := 0] == s.sz;
  }

  /** Allocating and then freeing restores the pool, so an equal request returns the same address; a
      request for no units reserves nothing. */
  lemma MallocFreeRoundTrip(g: Geometry, s: Pool, nbytes: u64)
    requires Sized(g, s) && Agree(s)
    requires Malloc(g, s, nbytes).ptr.Some?
    ensures var out := Malloc(g, s, nbytes);
      Free(g, out.pool, out.ptr.value).pool == s
    ensures var out := Malloc(g, s, nbytes);
      Malloc(g, Free(g, out.pool, out.ptr.value).pool, nbytes) == out
    ensures Units(nbytes, g.unit) == 0 ==> Malloc(g, s, nbytes).pool == s
  {
    var n := Units(nbytes, g.unit);
    FirstFitSound(s.bits, n, 0);
    var a := FirstFit(s.bits, n, 0).value;
    FreeUnitHasNoSize(s, a);
    FreeUndoes(g, s, a, n);
    FillUndone(s.bits, a, n);
    assert n == 0 ==> s.sz[a := n] == s.sz;
  }

  // ----- the size table `set_gpu_mempool` starts from -----

  /** Clearing the first `nbytes` bytes of a table of little-endian 32-bit entries. */
  function ClearBytes(table: seq<nat>, nbytes: nat): seq<nat> {
    seq(|table|, i requires 0 <= i < |table| =>
      if 4 * i + 4 <= nbytes then 0
      else if 4 * i >= nbytes then table[i]
      else if nbytes % 4 == 1 then table[i] - table[i] % 0x100
      else if nbytes % 4 == 2 then table[i] - table[i] % 0x1_0000
      else table[i] - table[i] % 0x100_0000)
  }

  /** `set_gpu_mempool` clears as many bytes of the `u32` table as there are units. */
  ghost function MempoolStart(table: seq<nat>): Pool {
    Pool(seq(|table|, _ => false), ClearBytes(table, |table|))
  }

  /** The part of the freshly allocated table that the `memset` does not reach holds only zeros. */
  ghost predicate RestAlreadyZero(table: seq<nat>) {
    forall i :: 0 <= i < |table| && |table| < 4 * i + 4 ==>
      table[i] < (if 4 * i >= |table| then 1
                  else if |table| % 4 == 1 then 0x100
                  else if |table| % 4 == 2 then 0x1_0000 else 0x100_0000)
  }

  /** The pool starts in agreement exactly when the memory behind the uncleared entries was zero. */
  lemma MempoolStartAgrees(table: seq<nat>)
    ensures Agree(MempoolStart(table)) <==> RestAlreadyZero(table)
  {
    var s := MempoolStart(table);
    if Agree(s) {
      forall i: nat | i < |table| ensures s.sz[i] == 0 {
        OwnsFirst(s, i);
      }
      forall i | 0 <= i < |table| && |table| < 4 * i + 4
        ensures table[i] < (if 4 * i >= |table| then 1
                            else if |table| % 4 == 1 then 0x100
                            else if |table| % 4 == 2 then 0x1_0000 else 0x100_0000)
      {
        assert s.sz[i] == 0;
      }
    } else {
      if forall i :: 0 <= i < |s.sz| ==> s.sz[i] == 0 {
        assert forall i, k :: !Owns(s, i, k);
      }
    }
  }

  /** What stale entries cost, on the default pool of two units: a free of a pointer into the middle of
      a live block releases its second unit, and the next allocation overlaps the live block. */
  lemma StaleTableOverlaps(g: Geometry, s0: Pool)
    requires g == Geometry(0x1000_0000, KGPU_BUF_UNIT_SIZE, 2) && s0 == MempoolStart([0, 1])
    ensures Sized(g, s0)
    ensures
      var a := Malloc(g, s0, 0x20_0000);
      var f := Free(g, a.pool, 0x1010_0000);
      var b := Malloc(g, f.pool, 0x10_0000);
      && a.ptr == Some(0x1000_0000) && Units(0x20_0000, g.unit) == 2
      && f.kind == Released
      && b.ptr == Some(0x1010_0000)
  {
    var a := Malloc(g, s0, 0x20_0000);
    assert s0.bits == [false, false];
    assert s0.sz == [0, 1];
    assert FreeRun(s0.bits, 2, 0);
    assert a.pool.bits == [true, true] && a.pool.sz == [2, 1];
    var f := Free(g, a.pool, 0x1010_0000);
    assert Index(g, 0x1010_0000) == 1;
    assert f.pool.bits == [true, false];
    assert !FreeRun(f.pool.bits, 1, 0);
    assert FreeRun(f.pool.bits, 1, 1);
    assert FirstFit(f.pool.bits, 1, 0) == FirstFit(f.pool.bits, 1, 1);
  }

  // ----- the code -----

  lemma {:induction false} SkipStarts(bits: seq<bool>, n: nat, from: nat, end: nat)
    requires from <= end && forall k :: from <= k < end ==> !FreeRun(bits, n, k)
    ensures FirstFit(bits, n, from) == FirstFit(bits, n, end)
    decreases end - from
  {
    if from < end {
      SkipStarts(bits, n, from + 1, end);
    }
  }

  method FindNextZero(bm: array<bool>, size: nat, start: nat) returns (i: nat)
    requires start <= size <= bm.Length
    ensures start <= i <= size
    ensures forall k :: start <= k < i ==> bm[k]
    ensures i < size ==> !bm[i]
  {
    i := start;
    while i < size && bm[i]
      invariant start <= i <= size
      invariant forall k :: start <= k < i ==> bm[k]
    {
      i := i + 1;
    }
  }

  method FindNextSet(bm: array<bool>, size: nat, start: nat) returns (i: nat)
    requires start <= size <= bm.Length
    ensures start <= i <= size
    ensures forall k :: start <= k < i ==> !bm[k]
    ensures i < size ==> bm[i]
  {
    i := start;
    while i < size && !bm[i]
      invariant start <= i <= size
      invariant forall k :: start <= k < i ==> !bm[k]
    {
      i := i + 1;
    }
  }

  /** `bitmap_find_next_zero_area` from bit 0 without alignment: an index past the end means none. */
  method FindNextZeroArea(bm: array<bool>, nr: nat) returns (idx: nat)
    ensures FirstFit(bm[..], nr, 0) == if idx < bm.Length then Some(idx) else None
  {
    var size := bm.Length;
    var start := 0;
    ghost var bits := bm[..];
    while true
      invariant 0 <= start <= size
      invariant FirstFit(bits, nr, 0) == FirstFit(bits, nr, start)
      decreases size - start
    {
      var index := FindNextZero(bm, size, start);
      SkipStarts(bits, nr, start, index);
      var end := index + nr;
      if end > size || index == size {
        FirstFitSound(bits, nr, index);
        return if end > size then end else index;
      }
      var i := FindNextSet(bm, end, index);
      if i >= end {
        return index;
      }
      forall k | index <= k < i + 1 ensures !FreeRun(bits, nr, k) {
        assert k <= i < k + nr && bits[i];
      }
      SkipStarts(bits, nr, index, i + 1);
      start := i + 1;
    }
  }

  /** `bitmap_set` and `bitmap_clear`. */
  method FillBits(bm: array<bool>, start: nat, nr: nat, v: bool)
    requires start + nr <= bm.Length
    modifies bm
    ensures bm[..] == Fill(old(bm[..]), start, nr, v)
  {
    var k := start;
    while k < start + nr
      invariant start <= k <= start + nr
      invariant forall j :: 0 <= j < bm.Length ==> bm[j] == if start <= j < k then v else old(bm[j])
    {
      bm[k] := v;
      k := k + 1;
    }
  }

  class DevicePool {
    const base: u64
    const unit: nat
    const nunits: nat
    const bitmap: array<bool>
    const allocSz: array<nat>

    ghost predicate Valid()
      reads this
    {
      Geo().Valid() && bitmap.Length == allocSz.Length == nunits
    }

    ghost function Geo(): Geometry {
      Geometry(base, unit, nunits)
    }

    ghost function State(): Pool
      reads bitmap, allocSz
    {
      Pool(bitmap[..], allocSz[..])
    }

    /** The pool with a clear bitmap and a fully cleared size table. */
    constructor (base: u64, unit: nat, nunits: nat)
      requires Geometry(base, unit, nunits).Valid()
      ensures Valid() && Geo() == Geometry(base, unit, nunits)
      ensures fresh(bitmap) && fresh(allocSz) && State() == Cleared(nunits)
    {
      this.base := base;
      this.unit := unit;
      this.nunits := nunits;
      var b := new bool[nunits](_ => false);
      var a := new nat[nunits](_ => 0);
      bitmap := b;
      allocSz := a;
      new;
      assert bitmap[..] == Cleared(nunits).bits;
      assert allocSz[..] == Cleared(nunits).sz;
    }

    /** `kgpu_vmalloc` (with 1 MiB units) and `kgpu_alloc_mmap_area` (with pages). */
    method VMalloc(nbytes: u64) returns (p: Option<u64>)
      requires Valid()
      modifies bitmap, allocSz
      ensures AllocOut(State(), p) == Malloc(Geo(), old(State()), nbytes)
    {
      var n := Units(nbytes, unit);
      var idx := FindNextZeroArea(bitmap, n);
      FirstFitSound(bitmap[..], n, 0);
      if idx < nunits {
        FillBits(bitmap, idx, n, true);
        allocSz[idx] := n;
        p := Some(Address(Geometry(base, unit, nunits), idx));
      } else {
        p := None;
      }
    }

    /** `kgpu_vfree` and `kgpu_free_mmap_area`. */
    method VFree(p: u64) returns (kind: FreeKind)
      requires Valid()
      modifies bitmap, allocSz
      ensures FreeOut(State(), kind) == Free(Geo(), old(State()), p)
    {
      var idx := Index(Geometry(base, unit, nunits), p);
      if idx >= nunits {
        return BadPointer;
      }
      var n := allocSz[idx];
      if n == 0 {
        return NotABlock;
      }
      if n > nunits - idx {
        return BadInfo;
      }
      FillBits(bitmap, idx, n, false);
      allocSz[idx] := 0;
      return Released;
    }
  }
}
