/** When the addresses unregistered for a request are the addresses registered for it.  The allocation side
    takes every `in` or `out` outside `hostbuf` to be in the vma; the free side looks.  A stray buffer, one in
    neither area, is therefore registered and never collected again. */
module PinAddresses {
  import opened Options
  import opened Words
  import opened PinRanges
  import opened DeviceMemory
  import opened PinCoverage
  import opened HelperModel
  import opened PinLedger

  /** The buffers only the allocation side collects. */
  function Strays(e: Areas, b: Buffers): seq<Range> {
    When(!e.hostbuf.Has(b.hin) && !e.hostvma.Has(b.hin), b.hin, b.insize)
    + When(!e.hostbuf.Has(b.hout) && !e.hostvma.Has(b.hout), b.hout, b.outsize)
  }

  // ----- where components start -----

  /** Some range of the family starts below `a` and goes on to it. */
  ghost predicate Reached(rs: seq<Range>, a: int) {
    exists i :: 0 <= i < |rs| && Reaches(rs[i], a)
  }

  predicate Reaches(r: Range, a: int) {
    r.addr < a <= r.addr + r.size
  }

  ghost predicate StartsAt(rs: seq<Range>, a: int) {
    exists i :: 0 <= i < |rs| && rs[i].addr == a
  }

  lemma ReachesIsHolding(r: Range, a: int)
    requires Good(r) && a % PAGE_SIZE == 0
    ensures Reaches(r, a) <==> Holds(r, a - 1)
  {
    EndAligned(r);
    MultipleGap(r.addr + r.size, a, PAGE_SIZE);
  }

  /** A component of page-aligned ranges starts where a range starts that no other range reaches. */
  lemma ComponentStart(rs: seq<Range>, p: int)
    requires AllGood(rs)
    ensures StartsComponent(rs, p) <==> StartsAt(rs, p) && !Reached(rs, p)
  {
    if StartsComponent(rs, p) {
      var i :| 0 <= i < |rs| && Holds(rs[i], p);
      CoveredBy(rs, i, p - 1);
      assert rs[i].addr == p;
    }
    if StartsAt(rs, p) {
      var i :| 0 <= i < |rs| && rs[i].addr == p;
      assert Good(rs[i]) && Holds(rs[i], p);
      CoveredBy(rs, i, p);
      forall j | 0 <= j < |rs| ensures Reaches(rs[j], p) <==> Holds(rs[j], p - 1) {
        ReachesIsHolding(rs[j], p);
      }
    }
  }

  /** `all` holds the ranges of `us` and of `xs` and no others. */
  ghost predicate Joint(all: seq<Range>, us: seq<Range>, xs: seq<Range>) {
    forall r :: r in all <==> r in us || r in xs
  }

  lemma JointStarts(all: seq<Range>, us: seq<Range>, xs: seq<Range>, a: int)
    requires Joint(all, us, xs)
    ensures StartsAt(all, a) <==> StartsAt(us, a) || StartsAt(xs, a)
    ensures Reached(all, a) <==> Reached(us, a) || Reached(xs, a)
  {
    Listed(all, a);
    Listed(us, a);
    Listed(xs, a);
  }

  lemma Listed(rs: seq<Range>, a: int)
    ensures StartsAt(rs, a) <==> exists r :: r in rs && r.addr == a
    ensures Reached(rs, a) <==> exists r :: r in rs && Reaches(r, a)
  {
    if StartsAt(rs, a) {
      var i :| 0 <= i < |rs| && rs[i].addr == a;
      assert rs[i] in rs;
    }
    if Reached(rs, a) {
      var i :| 0 <= i < |rs| && Reaches(rs[i], a);
      assert rs[i] in rs;
    }
  }

  /** The ranges `xs` add no start to `us` and take none away: each begins where a range of `us` begins or
      is reached from below, and none reaches a start of `us` that `us` itself does not reach. */
  ghost predicate Hidden(us: seq<Range>, xs: seq<Range>) {
    && (forall i :: 0 <= i < |xs| ==>
          StartsAt(us, xs[i].addr) || Reached(us, xs[i].addr) || Reached(xs, xs[i].addr))
    && (forall j :: 0 <= j < |us| && Reached(xs, us[j].addr) ==> Reached(us, us[j].addr))
  }

  ghost predicate SameStarts(xs: seq<Range>, ys: seq<Range>) {
    forall p :: StartsComponent(xs, p) <==> StartsComponent(ys, p)
  }

  lemma SameStartsExact(all: seq<Range>, us: seq<Range>, xs: seq<Range>)
    requires AllGood(all) && AllGood(us) && Joint(all, us, xs)
    ensures SameStarts(all, us) <==> Hidden(us, xs)
  {
    forall p
      ensures StartsComponent(all, p) <==> (StartsAt(us, p) || StartsAt(xs, p)) && !Reached(us, p) && !Reached(xs, p)
      ensures StartsComponent(us, p) <==> StartsAt(us, p) && !Reached(us, p)
    {
      ComponentStart(all, p);
      ComponentStart(us, p);
      JointStarts(all, us, xs, p);
    }
    if SameStarts(all, us) {
      forall i | 0 <= i < |xs|
        ensures StartsAt(us, xs[i].addr) || Reached(us, xs[i].addr) || Reached(xs, xs[i].addr)
      {
        assert StartsAt(xs, xs[i].addr);
        assert StartsComponent(all, xs[i].addr) <==> StartsComponent(us, xs[i].addr);
      }
      forall j | 0 <= j < |us| && Reached(xs, us[j].addr) ensures Reached(us, us[j].addr) {
        assert StartsAt(us, us[j].addr);
        assert StartsComponent(all, us[j].addr) <==> StartsComponent(us, us[j].addr);
      }
    }
    if Hidden(us, xs) {
      forall p ensures StartsComponent(all, p) <==> StartsComponent(us, p) {
        HiddenStart(us, xs, p);
      }
    }
  }

  lemma HiddenStart(us: seq<Range>, xs: seq<Range>, p: int)
    requires Hidden(us, xs)
    ensures StartsAt(xs, p) && !Reached(us, p) && !Reached(xs, p) ==> StartsAt(us, p)
    ensures StartsAt(us, p) && !Reached(us, p) ==> !Reached(xs, p)
  {
  }

  // ----- the two collections -----

  lemma RoundedMembers(rs: seq<Range>)
    ensures forall r :: r in RoundAll(rs) <==> exists q :: q in rs && r == Rounded(q)
  {
    forall r ensures r in RoundAll(rs) <==> exists q :: q in rs && r == Rounded(q) {
      if r in RoundAll(rs) {
        var i :| 0 <= i < |RoundAll(rs)| && RoundAll(rs)[i] == r;
        assert rs[i] in rs && r == Rounded(rs[i]);
      }
      if q :| q in rs && r == Rounded(q) {
        var i :| 0 <= i < |rs| && rs[i] == q;
        assert RoundAll(rs)[i] == r;
      }
    }
  }

  /** What is pinned is what is unpinned and the strays. */
  lemma PinnedIsJoint(e: Areas, b: Buffers)
    requires HostAreasDisjoint(e)
    ensures Joint(PinInputs(e, b), UnpinInputs(e, b), Strays(e, b))
  {
    assert !(e.hostbuf.Has(b.hin) && e.hostvma.Has(b.hin));
    assert !(e.hostbuf.Has(b.hout) && e.hostvma.Has(b.hout));
    assert !(e.hostbuf.Has(b.hdata) && e.hostvma.Has(b.hdata));
  }

  lemma RoundedIsJoint(all: seq<Range>, us: seq<Range>, xs: seq<Range>)
    requires Joint(all, us, xs)
    ensures Joint(RoundAll(all), RoundAll(us), RoundAll(xs))
  {
    RoundedMembers(all);
    RoundedMembers(us);
    RoundedMembers(xs);
  }

  lemma PartWraps(all: seq<Range>, us: seq<Range>, xs: seq<Range>)
    requires Joint(all, us, xs) && NoneWraps(all)
    ensures NoneWraps(us)
  {
    forall i | 0 <= i < |us| ensures NoWrap(us[i]) {
      assert us[i] in us;
      var j :| 0 <= j < |all| && all[j] == us[i];
    }
  }

  /** The addresses of the merged ranges are the starts of the components. */
  lemma MergedStarts(rs: seq<Range>)
    requires |rs| <= 3 && NoneWraps(rs)
    ensures AllGood(RoundAll(rs)) && Starts(MergeAll(RoundAll(rs))) == ComponentStarts(RoundAll(rs))
  {
    MergeRangesExact(rs);
    var out := MergeAll(RoundAll(rs));
    StartsAreComponentStarts(out);
    assert ComponentStarts(out) == ComponentStarts(RoundAll(rs));
  }

  lemma StartsEqual(xs: seq<Range>, ys: seq<Range>)
    requires AllGood(xs) && AllGood(ys)
    ensures ComponentStarts(xs) == ComponentStarts(ys) <==> SameStarts(xs, ys)
  {
    forall p
      ensures StartsComponent(xs, p) ==> p in ComponentStarts(xs)
      ensures StartsComponent(ys, p) ==> p in ComponentStarts(ys)
    {
      ComponentStart(xs, p);
      ComponentStart(ys, p);
    }
  }

  /** Nothing in `in` and `out` shows from outside: the condition on a request's buffers. */
  ghost predicate StraysHidden(e: Areas, b: Buffers) {
    Hidden(RoundAll(UnpinInputs(e, b)), RoundAll(Strays(e, b)))
  }

  /** Exactly when the addresses unregistered for a request are the addresses registered for it. */
  lemma BalancedAddresses(e: Areas, b: Buffers)
    requires HostAreasDisjoint(e) && NoneWraps(PinInputs(e, b))
    ensures Starts(Pinned(e, b)) == Starts(Unpinned(e, b)) <==> StraysHidden(e, b)
  {
    var all, us, xs := PinInputs(e, b), UnpinInputs(e, b), Strays(e, b);
    PinnedIsJoint(e, b);
    PartWraps(all, us, xs);
    MergedStarts(all);
    MergedStarts(us);
    StartsEqual(RoundAll(all), RoundAll(us));
    RoundedIsJoint(all, us, xs);
    SameStartsExact(RoundAll(all), RoundAll(us), RoundAll(xs));
  }

  // ----- a vma laid out in pages -----

  /** The vma is made of whole pages, and the buffers in it round to ranges that end before it does. */
  ghost predicate WellInside(e: Areas, b: Buffers) {
    var v := e.hostvma;
    && v.uva % PAGE_SIZE == 0 && v.size % PAGE_SIZE == 0 && v.uva + v.size < WORD
    && forall i :: 0 <= i < |UnpinInputs(e, b)| ==>
         Rounded(UnpinInputs(e, b)[i]).addr + Rounded(UnpinInputs(e, b)[i]).size < v.uva + v.size
  }

  /** A range that starts below a vma, or not below its end. */
  predicate Outside(v: Area, r: Range) {
    r.addr < v.uva || r.addr >= v.uva + v.size
  }

  /** Rounding down crosses no page boundary. */
  lemma DownStays(x: u64, m: int)
    requires m % PAGE_SIZE == 0
    ensures PageDown(x) < m <==> x < m
  {
    PageRounding(x);
    MultipleGap(PageDown(x), m, PAGE_SIZE);
  }

  lemma SumAligned(a: int, b: int)
    requires a % PAGE_SIZE == 0 && b % PAGE_SIZE == 0
    ensures (a + b) % PAGE_SIZE == 0
  {
  }

  lemma StrayOutside(v: Area, r: Range)
    requires v.uva % PAGE_SIZE == 0 && v.size % PAGE_SIZE == 0 && v.uva + v.size < WORD
    ensures v.Has(r.addr) ==> v.uva <= Rounded(r).addr
    ensures !v.Has(r.addr) ==> Outside(v, Rounded(r))
  {
    SumAligned(v.uva, v.size);
    DownStays(r.addr, v.uva);
    DownStays(r.addr, v.uva + v.size);
  }

  /** Ranges outside an area cannot hide behind ranges well inside it: the lowest of them shows. */
  lemma LowestShows(v: Area, us: seq<Range>, xs: seq<Range>, m: nat)
    requires forall j :: 0 <= j < |us| ==> v.uva <= us[j].addr && us[j].addr + us[j].size < v.uva + v.size
    requires m < |xs| && Outside(v, xs[m]) && forall i :: 0 <= i < |xs| ==> xs[m].addr <= xs[i].addr
    ensures !Hidden(us, xs)
  {
    var a := xs[m].addr;
    assert !Reached(xs, a);
    assert !StartsAt(us, a);
    assert !Reached(us, a);
  }

  lemma Lowest(xs: seq<Range>) returns (m: nat)
    requires 0 < |xs| <= 2
    ensures m < |xs| && forall i :: 0 <= i < |xs| ==> xs[m].addr <= xs[i].addr
  {
    m := if |xs| == 2 && xs[1].addr < xs[0].addr then 1 else 0;
  }

  lemma InsideRounded(e: Areas, b: Buffers, j: nat)
    requires WellInside(e, b) && j < |UnpinInputs(e, b)|
    ensures e.hostvma.uva <= RoundAll(UnpinInputs(e, b))[j].addr
    ensures RoundAll(UnpinInputs(e, b))[j].addr + RoundAll(UnpinInputs(e, b))[j].size < e.hostvma.uva + e.hostvma.size
  {
    StrayOutside(e.hostvma, UnpinInputs(e, b)[j]);
    assert e.hostvma.Has(UnpinInputs(e, b)[j].addr);
  }

  lemma StraysShow(e: Areas, b: Buffers)
    requires WellInside(e, b) && Strays(e, b) != []
    ensures !StraysHidden(e, b)
  {
    var us, xs := RoundAll(UnpinInputs(e, b)), RoundAll(Strays(e, b));
    var m := Lowest(xs);
    assert xs[m] == Rounded(Strays(e, b)[m]) && !e.hostvma.Has(Strays(e, b)[m].addr);
    StrayOutside(e.hostvma, Strays(e, b)[m]);
    forall j | 0 <= j < |us|
      ensures e.hostvma.uva <= us[j].addr && us[j].addr + us[j].size < e.hostvma.uva + e.hostvma.size
    {
      InsideRounded(e, b, j);
    }
    LowestShows(e.hostvma, us, xs, m);
  }

  /** With a vma of whole pages whose buffers end before it does, the addresses balance exactly when `in` and
      `out` each lie in a host area. */
  lemma BalancedInPages(e: Areas, b: Buffers)
    requires HostAreasDisjoint(e) && NoneWraps(PinInputs(e, b)) && WellInside(e, b)
    ensures Starts(Pinned(e, b)) == Starts(Unpinned(e, b)) <==> InHostAreas(e, b)
  {
    BalancedAddresses(e, b);
    assert Strays(e, b) == [] <==> InHostAreas(e, b);
    if Strays(e, b) != [] {
      StraysShow(e, b);
    } else {
      assert RoundAll(Strays(e, b)) == [];
    }
  }

  // ----- over a whole run -----

  ghost function RegisteredAt(calls: seq<CudaCall>): set<int> {
    set i | 0 <= i < |calls| && calls[i].HostRegister? :: calls[i].r.addr
  }

  ghost function UnregisteredAt(calls: seq<CudaCall>): set<int> {
    set i | 0 <= i < |calls| && calls[i].HostUnregister? :: calls[i].addr
  }

  lemma {:induction false} RegistersAt(t: nat, rs: seq<Range>)
    ensures |Registers(t, rs)| == |rs|
    ensures forall i :: 0 <= i < |rs| ==>
      Registers(t, rs)[i] == HostRegister(t, Range(rs[i].addr, PageUp(rs[i].size)))
  {
    if rs != [] {
      RegistersAt(t, rs[..|rs| - 1]);
    }
  }

  lemma {:induction false} UnregistersAt(t: nat, rs: seq<Range>)
    ensures |Unregisters(t, rs)| == |rs|
    ensures forall i :: 0 <= i < |rs| ==>
      Unregisters(t, rs)[i].HostUnregister? && Unregisters(t, rs)[i].addr == rs[i].addr
  {
    if rs != [] {
      UnregistersAt(t, rs[..|rs| - 1]);
    }
  }

  lemma CallsAt(t: nat, ps: seq<Range>, us: seq<Range>)
    ensures RegisteredAt(Registers(t, ps) + Unregisters(t, us)) == Starts(ps)
    ensures UnregisteredAt(Registers(t, ps) + Unregisters(t, us)) == Starts(us)
  {
    RegistersAt(t, ps);
    UnregistersAt(t, us);
    var calls := Registers(t, ps) + Unregisters(t, us);
    forall i | 0 <= i < |ps| ensures calls[i].HostRegister? && calls[i].r.addr == ps[i].addr {
    }
    forall i | 0 <= i < |us| ensures calls[|ps| + i].HostUnregister? && calls[|ps| + i].addr == us[i].addr {
    }
    forall a ensures a in RegisteredAt(calls) <==> a in Starts(ps) {
      if a in Starts(ps) {
        var i :| 0 <= i < |ps| && ps[i].addr == a;
        assert calls[i].r.addr == a;
      }
    }
    forall a ensures a in UnregisteredAt(calls) <==> a in Starts(us) {
      if a in Starts(us) {
        var i :| 0 <= i < |us| && us[i].addr == a;
        assert calls[|ps| + i].addr == a;
      }
    }
  }

  /** Over a whole run, an answered request whose service was found has had unregistered exactly the addresses
      registered for it if and only if its strays are hidden. */
  lemma AnsweredAddresses(e: Areas, c: Core, p: Pins, i: nat)
    requires Settled(e, c, p) && i < c.nread && i !in c.items && !Unknown(c, i)
    requires HostAreasDisjoint(e) && NoneWraps(PinInputs(e, p.history[i]))
    ensures RegisteredAt(Ledger(p.cuda, i)) == UnregisteredAt(Ledger(p.cuda, i)) <==> StraysHidden(e, p.history[i])
  {
    BalancedAddresses(e, p.history[i]);
    CallsAt(i, Pinned(e, p.history[i]), Unpinned(e, p.history[i]));
  }

  /** Some range registered for the request holds byte `y`. */
  ghost predicate RegisteredByte(calls: seq<CudaCall>, y: int) {
    exists k :: 0 <= k < |calls| && calls[k].HostRegister? && OnRange(calls[k].r, y)
  }

  /** Over a whole run, the ranges registered for a request whose memory has been allocated hold exactly the bytes
      on the rounded ranges of its pinned buffers. */
  lemma RegisteredInRun(e: Areas, c: Core, p: Pins, i: nat, y: int)
    requires Settled(e, c, p) && i < c.nread && !Unknown(c, i) && (i in c.items ==> !c.items[i].state.Init?)
    requires NoneWraps(PinInputs(e, p.history[i]))
    ensures RegisteredByte(Ledger(p.cuda, i), y) <==> OnPart(e, p.history[i], y)
  {
    var b := p.history[i];
    var rs, calls := Pinned(e, b), Ledger(p.cuda, i);
    RegistersAt(i, rs);
    UnregistersAt(i, Unpinned(e, b));
    RegisteredIsOnPart(e, b, y);
    assert forall k :: 0 <= k < |rs| ==> calls[k] == Registers(i, rs)[k];
    assert forall k :: |rs| <= k < |calls| ==> calls[k].HostUnregister?;
    if ByteOn(RegisteredRanges(e, b), y) {
      var k :| 0 <= k < |RegisteredRanges(e, b)| && OnRange(RegisteredRanges(e, b)[k], y);
      assert calls[k].HostRegister? && OnRange(calls[k].r, y);
    }
    if RegisteredByte(calls, y) {
      var k :| 0 <= k < |calls| && calls[k].HostRegister? && OnRange(calls[k].r, y);
      assert OnRange(RegisteredRanges(e, b)[k], y);
    }
  }

  // ----- an input that fails -----

  /** Rounding leaves a page-aligned range alone. */
  lemma AlignedRounded(r: Range)
    requires r.addr % PAGE_SIZE == 0 && r.size % PAGE_SIZE == 0 && r.addr + r.size <= WORD - PAGE_SIZE
    ensures Rounded(r) == r && NoWrap(r)
  {
    PageRounding(r.addr);
    PageRounding(r.size);
    SamePage(PageDown(r.addr), r.addr, r.addr);
    SamePage(PageUp(r.size), r.size, PageUp(r.size));
  }

  /** A request whose buffers are the null address and one page of the vma. */
  lemma NullInputCollected(e: Areas, b: Buffers, none: Range, page: Range)
    requires e == Areas(Area(0x100000, 0x1000), Area(0x200000, 0x2000), 0x300000, 0x400000)
    requires none == Range(0, 0) && page == Range(0x200000, 0x1000)
    requires b == Buffers(none.addr, none.size, page.addr, page.size, page.addr, page.size)
    ensures HostAreasDisjoint(e) && !InHostAreas(e, b)
    ensures PinInputs(e, b) == [none, page, page] && UnpinInputs(e, b) == [page, page]
  {
  }

  lemma CollectedWellInside(e: Areas, b: Buffers, none: Range, page: Range)
    requires PinInputs(e, b) == [none, page, page] && UnpinInputs(e, b) == [page, page]
    requires NoWrap(none) && NoWrap(page) && Rounded(page) == page
    requires page.addr + page.size < e.hostvma.uva + e.hostvma.size
    requires e.hostvma.uva % PAGE_SIZE == 0 && e.hostvma.size % PAGE_SIZE == 0 && e.hostvma.uva + e.hostvma.size < WORD
    ensures NoneWraps(PinInputs(e, b)) && WellInside(e, b)
  {
  }

  /** A request without an `in` buffer: the null address is registered and never unregistered. */
  lemma NullInputLeaks(e: Areas, b: Buffers)
    requires e == Areas(Area(0x100000, 0x1000), Area(0x200000, 0x2000), 0x300000, 0x400000)
    requires b == Buffers(0, 0, 0x200000, 0x1000, 0x200000, 0x1000)
    ensures HostAreasDisjoint(e) && NoneWraps(PinInputs(e, b)) && WellInside(e, b) && !InHostAreas(e, b)
    ensures Starts(Pinned(e, b)) != Starts(Unpinned(e, b))
  {
    var none, page := Range(b.hin, b.insize), Range(b.hout, b.outsize);
    NullInputCollected(e, b, none, page);
    AlignedRounded(none);
    AlignedRounded(page);
    CollectedWellInside(e, b, none, page);
    BalancedInPages(e, b);
  }
}
