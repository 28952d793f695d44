/** The pin-range computation of `cudaOperations.cu`: page rounding, then a hand-unrolled merge of
    up to three ranges, each read as the closed interval from its address to its end. */
module PinRanges {
  import opened Options
  import opened Words

  datatype Range = Range(addr: u64, size: u64)

  /** `__merge_2ranges`, 64-bit sums included; `None` is the return value 0. */
  function Merge2(a: Range, b: Range): Option<Range> {
    if a.addr < b.addr then
      if Add64(a.addr, a.size) >= b.addr then
        Some(Range(a.addr, Sub64(Max64(Add64(a.addr, a.size), Add64(b.addr, b.size)), a.addr)))
      else None
    else if a.addr == b.addr then
      Some(Range(a.addr, Max64(a.size, b.size)))
    else
      if Add64(b.addr, b.size) >= a.addr then
        Some(Range(b.addr, Sub64(Max64(Add64(a.addr, a.size), Add64(b.addr, b.size)), b.addr)))
      else None
  }

  function PageDown(x: u64): u64 {
    PageRounding(x);
    RoundDown(x, PAGE_SIZE)
  }

  function PageUp(x: u64): u64 {
    PageRounding(x);
    RoundUp(x, PAGE_SIZE)
  }

  function Rounded(r: Range): Range {
    Range(PageDown(r.addr), PageUp(r.size))
  }

  function RoundAll(rs: seq<Range>): (out: seq<Range>) {
    seq(|rs|, i requires 0 <= i < |rs| => Rounded(rs[i]))
  }

  /** The case analysis of `__merge_ranges` on already rounded ranges: the slots in use on return. */
  function MergeAll(rs: seq<Range>): seq<Range> {
    if |rs| <= 1 then rs
    else if |rs| == 2 then
      match Merge2(rs[0], rs[1])
      case Some(m) => [m]
      case None => rs
    else if |rs| == 3 then
      match Merge2(rs[0], rs[1])
      case Some(m) => (
        match Merge2(m, rs[2])
        case Some(all) => [all]
        case None => [m, rs[2]])
      case None => (
        match Merge2(rs[0], rs[2])
        case Some(m) => (
          match Merge2(m, rs[1])
          case Some(all) => [all]
          case None => [m, rs[1]])
        case None => (
          match Merge2(rs[2], rs[1])
          case Some(m) => (
            match Merge2(rs[0], m)
            case Some(all) => [all]
            case None => [rs[0], m])
          case None => rs))
    else []
  }

  /** The first `m` slots of the two parallel arrays. */
  ghost function Slots(ad: array<u64>, sz: array<u64>, m: nat): seq<Range>
    reads ad, sz
    requires m <= ad.Length && m <= sz.Length
  {
    seq(m, i requires 0 <= i < m reads ad, sz => Range(ad[i], sz[i]))
  }

  // ----- the code, in place on the two arrays -----

  method Merge2Ranges(r1: u64, s1: u64, r2: u64, s2: u64) returns (hit: bool, e: u64, s: u64)
    ensures Merge2(Range(r1, s1), Range(r2, s2)) == if hit then Some(Range(e, s)) else None
  {
    hit, e, s := false, 0, 0;
    if r1 < r2 {
      if Add64(r1, s1) >= r2 {
        e := r1;
        s := Sub64(Max64(Add64(r1, s1), Add64(r2, s2)), r1);
        hit := true;
      }
    } else if r1 == r2 {
      e := r1;
      s := Max64(s1, s2);
      hit := true;
    } else {
      if Add64(r2, s2) >= r1 {
        e := r2;
        s := Sub64(Max64(Add64(r1, s1), Add64(r2, s2)), r2);
        hit := true;
      }
    }
  }

  method RoundSlots(ad: array<u64>, sz: array<u64>, n: nat)
    requires ad != sz && n <= ad.Length && n <= sz.Length
    modifies ad, sz
    ensures Slots(ad, sz, n) == RoundAll(old(Slots(ad, sz, n)))
  {
    var i := 0;
    while i < n
      invariant 0 <= i <= n
      invariant forall k :: 0 <= k < i ==> Range(ad[k], sz[k]) == Rounded(Range(old(ad[k]), old(sz[k])))
      invariant forall k :: i <= k < n ==> ad[k] == old(ad[k]) && sz[k] == old(sz[k])
    {
      ad[i] := PageDown(ad[i]);
      sz[i] := PageUp(sz[i]);
      i := i + 1;
    }
  }

  /** Merge slots i and j into slot d when they touch; otherwise leave the arrays alone. */
  method TryMerge(ad: array<u64>, sz: array<u64>, i: nat, j: nat, d: nat) returns (hit: bool)
    requires ad != sz && i < ad.Length && j < ad.Length && d < ad.Length && ad.Length == sz.Length
    modifies ad, sz
    ensures old(Merge2(Range(ad[i], sz[i]), Range(ad[j], sz[j]))) == if hit then Some(Range(ad[d], sz[d])) else None
    ensures forall k :: 0 <= k < ad.Length && (k != d || !hit) ==> ad[k] == old(ad[k]) && sz[k] == old(sz[k])
  {
    var e, s;
    hit, e, s := Merge2Ranges(ad[i], sz[i], ad[j], sz[j]);
    if hit {
      ad[d], sz[d] := e, s;
    }
  }

  /** `__merge_ranges`: the slots in use afterwards are `MergeAll` of the rounded inputs. */
  method MergeRanges(ad: array<u64>, sz: array<u64>, n: nat) returns (m: nat)
    requires ad != sz && ad.Length == sz.Length == 3 && n <= 3
    modifies ad, sz
    ensures m <= n
    ensures Slots(ad, sz, m) == MergeAll(RoundAll(old(Slots(ad, sz, n))))
  {
    RoundSlots(ad, sz, n);
    ghost var rs := Slots(ad, sz, n);
    if n <= 1 {
      return n;
    }
    assert rs[0] == Range(ad[0], sz[0]) && rs[1] == Range(ad[1], sz[1]);
    if n == 2 {
      var hit := TryMerge(ad, sz, 0, 1, 0);
      m := if hit then 1 else 2;
    } else {
      assert rs[2] == Range(ad[2], sz[2]);
      m := MergeThree(ad, sz, rs);
    }
    assert Slots(ad, sz, m) == MergeAll(rs);
  }

  method MergeThree(ad: array<u64>, sz: array<u64>, ghost rs: seq<Range>) returns (m: nat)
    requires ad != sz && ad.Length == sz.Length == 3 && |rs| == 3
    requires rs[0] == Range(ad[0], sz[0]) && rs[1] == Range(ad[1], sz[1]) && rs[2] == Range(ad[2], sz[2])
    modifies ad, sz
    ensures 1 <= m <= 3 && |MergeAll(rs)| == m
    ensures forall k :: 0 <= k < m ==> MergeAll(rs)[k] == Range(ad[k], sz[k])
  {
    var hit := TryMerge(ad, sz, 0, 1, 0);
    if hit {
      var again := TryMerge(ad, sz, 0, 2, 0);
      if again {
        return 1;
      }
      ad[1] := ad[2];
      sz[1] := sz[2];
      return 2;
    }
    hit := TryMerge(ad, sz, 0, 2, 0);
    if hit {
      var again := TryMerge(ad, sz, 0, 1, 0);
      return if again then 1 else 2;
    }
    hit := TryMerge(ad, sz, 2, 1, 1);
    if hit {
      var again := TryMerge(ad, sz, 0, 1, 0);
      return if again then 1 else 2;
    }
    return 3;
  }

  // ----- what a correct merge is, independently of the code -----

  /** A page-aligned range whose end does not pass the top of the address space. */
  ghost predicate Good(r: Range) {
    r.addr % PAGE_SIZE == 0 && r.size % PAGE_SIZE == 0 && r.addr + r.size < WORD
  }

  ghost predicate AllGood(rs: seq<Range>) {
    forall i :: 0 <= i < |rs| ==> Good(rs[i])
  }

  predicate Holds(r: Range, p: int) {
    r.addr <= p <= r.addr + r.size
  }

  /** `p` lies in the union of the ranges. */
  ghost predicate Covered(rs: seq<Range>, p: int) {
    exists i :: 0 <= i < |rs| && Holds(rs[i], p)
  }

  /** Two closed intervals with a gap between them. */
  predicate Apart(a: Range, b: Range) {
    a.addr + a.size + 1 < b.addr || b.addr + b.size + 1 < a.addr
  }

  ghost predicate Separated(rs: seq<Range>) {
    forall i, j :: 0 <= i < j < |rs| ==> Apart(rs[i], rs[j])
  }

  ghost predicate SameUnion(xs: seq<Range>, ys: seq<Range>) {
    forall p :: Covered(xs, p) <==> Covered(ys, p)
  }

  ghost predicate StartsComponent(rs: seq<Range>, p: int) {
    Covered(rs, p) && !Covered(rs, p - 1)
  }

  /** One point for each connected component of the union: its least element. */
  ghost function ComponentStarts(rs: seq<Range>): set<int> {
    set p | 0 <= p < WORD && StartsComponent(rs, p)
  }

  // ----- two ranges -----

  lemma EndAligned(r: Range)
    requires Good(r)
    ensures (r.addr + r.size) % PAGE_SIZE == 0
  {
  }

  /** Two page-aligned ranges fail to merge exactly when there is a gap between them. */
  lemma Merge2Apart(a: Range, b: Range)
    requires Good(a) && Good(b)
    ensures Merge2(a, b).None? <==> Apart(a, b)
  {
    EndAligned(a);
    EndAligned(b);
    MultipleGap(a.addr + a.size, b.addr, PAGE_SIZE);
    MultipleGap(b.addr + b.size, a.addr, PAGE_SIZE);
  }

  lemma Merge2Union(a: Range, b: Range)
    requires a.addr + a.size < WORD && b.addr + b.size < WORD && Merge2(a, b).Some?
    ensures var m := Merge2(a, b).value;
      && (m.addr == a.addr || m.addr == b.addr)
      && (m.addr + m.size == a.addr + a.size || m.addr + m.size == b.addr + b.size)
      && forall p :: Holds(m, p) <==> Holds(a, p) || Holds(b, p)
  {
  }

  lemma SizeAligned(addr: int, size: int)
    requires addr % PAGE_SIZE == 0 && (addr + size) % PAGE_SIZE == 0
    ensures size % PAGE_SIZE == 0
  {
  }

  lemma Merge2Exact(a: Range, b: Range)
    requires Good(a) && Good(b)
    ensures Merge2(a, b).None? <==> Apart(a, b)
    ensures Merge2(a, b).Some? ==> Good(Merge2(a, b).value)
    ensures Merge2(a, b).Some? ==>
      forall p :: Holds(Merge2(a, b).value, p) <==> Holds(a, p) || Holds(b, p)
  {
    Merge2Apart(a, b);
    if Merge2(a, b).Some? {
      var m := Merge2(a, b).value;
      Merge2Union(a, b);
      EndAligned(a);
      EndAligned(b);
      SizeAligned(m.addr, m.size);
    }
  }

  /** A range apart from two others is apart from their merge. */
  lemma ApartFromMerge(x: Range, a: Range, b: Range)
    requires Good(x) && Good(a) && Good(b) && Apart(x, a) && Apart(x, b) && Merge2(a, b).Some?
    ensures Apart(x, Merge2(a, b).value)
  {
    Merge2Exact(a, b);
    var m := Merge2(a, b).value;
    assert Holds(m, m.addr) && Holds(m, m.addr + m.size);
  }

  // ----- the whole merge -----

  lemma MergeUnion(rs: seq<Range>)
    requires |rs| <= 3 && AllGood(rs)
    ensures AllGood(MergeAll(rs)) && SameUnion(MergeAll(rs), rs)
  {
    var out := MergeAll(rs);
    if |rs| == 2 {
      Merge2Exact(rs[0], rs[1]);
    } else if |rs| == 3 {
      MergeUnion3(rs);
    }
    if |rs| == 2 && |out| == 1 {
      forall p ensures Covered(out, p) <==> Covered(rs, p) {
        assert Covered(out, p) <==> Holds(out[0], p);
        assert Covered(rs, p) <==> Holds(rs[0], p) || Holds(rs[1], p);
      }
    }
  }

  lemma Cover1(xs: seq<Range>, p: int)
    requires |xs| == 1
    ensures Covered(xs, p) <==> Holds(xs[0], p)
  {
  }

  lemma Cover2(xs: seq<Range>, p: int)
    requires |xs| == 2
    ensures Covered(xs, p) <==> Holds(xs[0], p) || Holds(xs[1], p)
  {
  }

  lemma Cover3(xs: seq<Range>, p: int)
    requires |xs| == 3
    ensures Covered(xs, p) <==> Holds(xs[0], p) || Holds(xs[1], p) || Holds(xs[2], p)
  {
  }

  lemma MergeUnion3(rs: seq<Range>)
    requires |rs| == 3 && AllGood(rs)
    ensures AllGood(MergeAll(rs)) && SameUnion(MergeAll(rs), rs)
  {
    var a, b, c := rs[0], rs[1], rs[2];
    Merge2Exact(a, b);
    Merge2Exact(a, c);
    Merge2Exact(c, b);
    var out := MergeAll(rs);
    if Merge2(a, b).Some? {
      Merge2Exact(Merge2(a, b).value, c);
    } else if Merge2(a, c).Some? {
      Merge2Exact(Merge2(a, c).value, b);
    } else if Merge2(c, b).Some? {
      Merge2Exact(a, Merge2(c, b).value);
    }
    forall p ensures Covered(out, p) <==> Covered(rs, p) {
      Cover3(rs, p);
      if |out| == 1 {
        Cover1(out, p);
      } else if |out| == 2 {
        Cover2(out, p);
      }
    }
  }

  lemma MergeSeparated(rs: seq<Range>)
    requires |rs| <= 3 && AllGood(rs)
    ensures Separated(MergeAll(rs))
  {
    if |rs| == 2 {
      Merge2Exact(rs[0], rs[1]);
    } else if |rs| == 3 {
      var a, b, c := rs[0], rs[1], rs[2];
      Merge2Exact(a, b);
      Merge2Exact(a, c);
      Merge2Exact(c, b);
      if Merge2(a, b).Some? {
        Merge2Exact(Merge2(a, b).value, c);
      } else if Merge2(a, c).Some? {
        Merge2Exact(Merge2(a, c).value, b);
      } else if Merge2(c, b).Some? {
        Merge2Exact(a, Merge2(c, b).value);
      }
    }
  }

  /** The last inner success branch of `__merge_ranges` is dead code: when range 0 touches neither
      range 1 nor range 2, it does not touch their merge. */
  lemma LastMergeNeverSucceeds(a: Range, b: Range, c: Range)
    requires Good(a) && Good(b) && Good(c)
    requires Merge2(a, b).None? && Merge2(a, c).None? && Merge2(c, b).Some?
    ensures Merge2(a, Merge2(c, b).value).None?
  {
    Merge2Exact(a, b);
    Merge2Exact(a, c);
    Merge2Exact(c, b);
    ApartFromMerge(a, c, b);
    Merge2Exact(a, Merge2(c, b).value);
  }

  // ----- separated ranges are determined by their union -----

  lemma SameInterval(xs: seq<Range>, ys: seq<Range>, i: nat) returns (j: nat)
    requires Separated(xs) && Separated(ys) && SameUnion(xs, ys) && i < |xs|
    ensures j < |ys| && ys[j] == xs[i]
  {
    var x := xs[i];
    assert Holds(x, x.addr) && Holds(x, x.addr + x.size);
    assert Covered(xs, x.addr);
    j :| 0 <= j < |ys| && Holds(ys[j], x.addr);
    var y := ys[j];
    StartsWhereTheUnionStarts(xs, i);
    StartsWhereTheUnionStarts(ys, j);
    CoveredBy(ys, j, x.addr - 1);
    CoveredBy(ys, j, x.addr + x.size + 1);
    CoveredBy(xs, i, y.addr + y.size + 1);
  }

  lemma CoveredBy(xs: seq<Range>, i: nat, p: int)
    requires i < |xs|
    ensures Holds(xs[i], p) ==> Covered(xs, p)
  {
  }

  /** Nothing just before or just after a member of a separated family is covered. */
  lemma StartsWhereTheUnionStarts(xs: seq<Range>, i: nat)
    requires Separated(xs) && i < |xs|
    ensures !Covered(xs, xs[i].addr - 1) && !Covered(xs, xs[i].addr + xs[i].size + 1)
  {
    forall k | 0 <= k < |xs|
      ensures !Holds(xs[k], xs[i].addr - 1) && !Holds(xs[k], xs[i].addr + xs[i].size + 1)
    {
      if k < i {
        assert Apart(xs[k], xs[i]);
      } else if i < k {
        assert Apart(xs[i], xs[k]);
      }
    }
  }

  lemma SeparatedUnique(xs: seq<Range>, ys: seq<Range>)
    requires Separated(xs) && Separated(ys) && SameUnion(xs, ys)
    ensures (set r | r in xs) == (set r | r in ys)
  {
    forall r | r in xs ensures r in ys {
      var i :| 0 <= i < |xs| && xs[i] == r;
      var j := SameInterval(xs, ys, i);
    }
    forall r | r in ys ensures r in xs {
      var i :| 0 <= i < |ys| && ys[i] == r;
      var j := SameInterval(ys, xs, i);
    }
  }

  // ----- one range per connected component -----

  ghost function Starts(xs: seq<Range>): set<int> {
    set i | 0 <= i < |xs| :: xs[i].addr
  }

  lemma {:induction false} StartsCount(xs: seq<Range>)
    requires Separated(xs)
    ensures |Starts(xs)| == |xs|
  {
    if xs == [] {
      assert Starts(xs) == {};
    } else {
      var n := |xs| - 1;
      var rest := xs[..n];
      StartsCount(rest);
      assert xs[n].addr !in Starts(rest) by {
        forall i | 0 <= i < n ensures rest[i].addr != xs[n].addr {
          assert Apart(xs[i], xs[n]);
        }
      }
      assert Starts(xs) == Starts(rest) + {xs[n].addr} by {
        forall p ensures p in Starts(xs) <==> p in Starts(rest) + {xs[n].addr} {
          if p in Starts(rest) {
            var i :| 0 <= i < n && rest[i].addr == p;
            assert xs[i].addr == p;
          }
          if p in Starts(xs) && p != xs[n].addr {
            var i :| 0 <= i < |xs| && xs[i].addr == p;
            assert rest[i].addr == p;
          }
          assert xs[n].addr in Starts(xs);
        }
      }
    }
  }

  lemma StartsAreComponentStarts(xs: seq<Range>)
    requires Separated(xs)
    ensures Starts(xs) == ComponentStarts(xs)
  {
    forall p | p in Starts(xs) ensures p in ComponentStarts(xs) {
      var i :| 0 <= i < |xs| && xs[i].addr == p;
      assert Holds(xs[i], p);
      StartsWhereTheUnionStarts(xs, i);
    }
    forall p | p in ComponentStarts(xs) ensures p in Starts(xs) {
      var i :| 0 <= i < |xs| && Holds(xs[i], p);
      CoveredBy(xs, i, p - 1);
    }
  }

  /** Merge exactness: on page-aligned ranges the result is good, pairwise disjoint, has exactly the
      union of the inputs, and holds one range for each connected component of that union. */
  lemma MergeExact(rs: seq<Range>)
    requires |rs| <= 3 && AllGood(rs)
    ensures AllGood(MergeAll(rs))
    ensures Separated(MergeAll(rs))
    ensures SameUnion(MergeAll(rs), rs)
    ensures |MergeAll(rs)| == |ComponentStarts(rs)|
  {
    var out := MergeAll(rs);
    MergeUnion(rs);
    MergeSeparated(rs);
    StartsCount(out);
    StartsAreComponentStarts(out);
    assert ComponentStarts(out) == ComponentStarts(rs);
  }

  /** Order independence: inputs that cover the same points, permutations above all, merge to the
      same set of ranges. */
  lemma MergeOrderIndependent(rs: seq<Range>, qs: seq<Range>)
    requires |rs| <= 3 && |qs| <= 3 && AllGood(rs) && AllGood(qs)
    requires multiset(rs) == multiset(qs)
    ensures (set r | r in MergeAll(rs)) == (set r | r in MergeAll(qs))
  {
    MergeExact(rs);
    MergeExact(qs);
    forall p ensures Covered(MergeAll(rs), p) <==> Covered(MergeAll(qs), p) {
      PermutationCovers(rs, qs, p);
      PermutationCovers(qs, rs, p);
    }
    SeparatedUnique(MergeAll(rs), MergeAll(qs));
  }

  lemma PermutationCovers(rs: seq<Range>, qs: seq<Range>, p: int)
    requires multiset(rs) == multiset(qs)
    ensures Covered(rs, p) ==> Covered(qs, p)
  {
    if Covered(rs, p) {
      var i :| 0 <= i < |rs| && Holds(rs[i], p);
      assert rs[i] in multiset(qs);
      var j :| 0 <= j < |qs| && qs[j] == rs[i];
    }
  }

  // ----- rounding the raw inputs -----

  /** A raw buffer whose rounded form stays inside the address space. */
  ghost predicate NoWrap(r: Range) {
    r.size <= WORD - PAGE_SIZE && PageDown(r.addr) + PageUp(r.size) < WORD
  }

  lemma RoundedGood(r: Range)
    requires NoWrap(r)
    ensures Good(Rounded(r))
  {
    PageRounding(r.addr);
    PageRounding(r.size);
  }

  /** The whole of `__merge_ranges` on raw buffers. */
  lemma MergeRangesExact(rs: seq<Range>)
    requires |rs| <= 3 && forall i :: 0 <= i < |rs| ==> NoWrap(rs[i])
    ensures AllGood(RoundAll(rs))
    ensures var out := MergeAll(RoundAll(rs));
      AllGood(out) && Separated(out) && SameUnion(out, RoundAll(rs)) && |out| == |ComponentStarts(RoundAll(rs))|
  {
    forall i | 0 <= i < |rs| ensures Good(RoundAll(rs)[i]) {
      RoundedGood(rs[i]);
    }
    MergeExact(RoundAll(rs));
  }

  /** Byte `b` lies on a page that pinning the buffer registers. */
  predicate OnPinnedPage(r: Range, b: int) {
    PageDown(r.addr) <= b < PageDown(r.addr) + PageUp(r.size)
  }

  predicate InBuffer(r: Range, b: int) {
    r.addr <= b < r.addr + r.size
  }

  /** The multiple of the page size at or below `x` is unique. */
  lemma SamePage(d: int, e: int, x: int)
    requires d % PAGE_SIZE == 0 && e % PAGE_SIZE == 0
    requires d <= x < d + PAGE_SIZE && e <= x < e + PAGE_SIZE
    ensures d == e
  {
    MultipleGap(d, e, PAGE_SIZE);
    MultipleGap(e, d, PAGE_SIZE);
  }

  lemma PageDownValue(x: u64)
    ensures PageDown(x) == x - x % PAGE_SIZE
  {
    PageRounding(x);
    ModOfDifference(x, PAGE_SIZE);
    SamePage(PageDown(x), x - x % PAGE_SIZE, x);
  }

  /** A small size takes one page, a small address lies on the first. */
  lemma OnePage(x: u64)
    requires 0 < x < PAGE_SIZE
    ensures PageUp(x) == PAGE_SIZE && PageDown(x) == 0
  {
    PageRounding(x);
    SamePage(PageDown(x), 0, x);
    SamePage(PageUp(x), PAGE_SIZE, PageUp(x));
  }

  /** Address and size are rounded separately, so the pinned pages hold every byte of the buffer
      exactly when the offset into the first page still fits in the rounded size. */
  lemma RoundedCoversBuffer(r: Range)
    requires NoWrap(r) && r.size > 0
    ensures (forall b :: InBuffer(r, b) ==> OnPinnedPage(r, b))
      <==> r.addr % PAGE_SIZE + r.size <= PageUp(r.size)
  {
    PageDownValue(r.addr);
    assert InBuffer(r, r.addr + r.size - 1);
  }

  /** The smallest miss: two bytes across a page boundary pin only the first page. */
  lemma RoundingMissesAByte(r: Range)
    requires r == Range(4095, 2)
    ensures NoWrap(r) && InBuffer(r, 4096) && !OnPinnedPage(r, 4096)
  {
    OnePage(r.addr);
    OnePage(r.size);
  }
}
