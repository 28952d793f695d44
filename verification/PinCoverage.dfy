/** Which bytes the registered pages hold.  Address and size of a buffer are rounded separately, so its own
    rounded range may stop one page short; another buffer of the same request may make up for it. */
module PinCoverage {
  import opened Words
  import opened PinRanges
  import opened DeviceMemory

  /** Byte `b` lies on the pages of a rounded range. */
  predicate OnRange(r: Range, b: int) {
    r.addr <= b < r.addr + r.size
  }

  ghost predicate ByteOn(rs: seq<Range>, b: int) {
    exists i :: 0 <= i < |rs| && OnRange(rs[i], b)
  }

  function PageOf(b: int): int {
    b - b % PAGE_SIZE
  }

  lemma PageOfByte(b: int)
    ensures PageOf(b) % PAGE_SIZE == 0 && PageOf(b) <= b < PageOf(b) + PAGE_SIZE
  {
    ModOfDifference(b, PAGE_SIZE);
  }

  /** A page-aligned range has a byte exactly when it holds a point inside the byte's page. */
  lemma MidPage(r: Range, b: int)
    requires Good(r)
    ensures OnRange(r, b) <==> Holds(r, PageOf(b) + 1)
  {
    var g := PageOf(b);
    PageOfByte(b);
    EndAligned(r);
    MultipleGap(g, r.addr, PAGE_SIZE);
    MultipleGap(g, r.addr + r.size, PAGE_SIZE);
  }

  /** Page-aligned families with the same union have the same bytes. */
  lemma SameBytes(xs: seq<Range>, ys: seq<Range>, b: int)
    requires AllGood(xs) && AllGood(ys) && SameUnion(xs, ys)
    ensures ByteOn(xs, b) <==> ByteOn(ys, b)
  {
    ByteIsCovered(xs, b);
    ByteIsCovered(ys, b);
    assert Covered(xs, PageOf(b) + 1) <==> Covered(ys, PageOf(b) + 1);
  }

  lemma ByteIsCovered(xs: seq<Range>, b: int)
    requires AllGood(xs)
    ensures ByteOn(xs, b) <==> Covered(xs, PageOf(b) + 1)
  {
    forall i | 0 <= i < |xs| ensures OnRange(xs[i], b) <==> Holds(xs[i], PageOf(b) + 1) {
      MidPage(xs[i], b);
    }
  }

  function LastByte(r: Range): int {
    r.addr + r.size - 1
  }

  /** The offset into the first page and the size fit in the rounded size. */
  predicate FitsAlone(r: Range) {
    r.addr % PAGE_SIZE + r.size <= PageUp(r.size)
  }

  lemma RoundedEnds(r: Range)
    requires NoWrap(r)
    ensures Rounded(r).addr == r.addr - r.addr % PAGE_SIZE && r.size <= Rounded(r).size
    ensures (Rounded(r).addr + Rounded(r).size) % PAGE_SIZE == 0 && Good(Rounded(r))
  {
    PageDownValue(r.addr);
    PageRounding(r.size);
    RoundedGood(r);
    EndAligned(Rounded(r));
  }

  lemma LastByteAlone(r: Range)
    requires NoWrap(r) && r.size > 0
    ensures OnRange(Rounded(r), LastByte(r)) <==> FitsAlone(r)
  {
    RoundedEnds(r);
  }

  /** The bytes a buffer's own rounded range misses share a page with its last byte. */
  lemma MissedOnLastPage(r: Range, b: int)
    requires NoWrap(r) && InBuffer(r, b) && !OnRange(Rounded(r), b)
    ensures PageOf(b) == PageOf(LastByte(r))
  {
    RoundedEnds(r);
    var end := Rounded(r).addr + Rounded(r).size;
    assert end <= b <= LastByte(r) < end + PAGE_SIZE;
    PageOfByte(b);
    PageOfByte(LastByte(r));
    SamePage(end, PageOf(b), b);
    SamePage(end, PageOf(LastByte(r)), LastByte(r));
  }

  /** Another input's rounded range holds the last byte of input `i`. */
  ghost predicate HelpedOut(rs: seq<Range>, i: nat)
    requires i < |rs|
  {
    exists j :: 0 <= j < |rs| && j != i && OnRange(Rounded(rs[j]), LastByte(rs[i]))
  }

  ghost predicate NoneWraps(rs: seq<Range>) {
    forall i :: 0 <= i < |rs| ==> NoWrap(rs[i])
  }

  lemma RoundedFamily(rs: seq<Range>)
    requires NoneWraps(rs)
    ensures |RoundAll(rs)| == |rs| && AllGood(RoundAll(rs))
  {
    forall i | 0 <= i < |rs| ensures Good(RoundAll(rs)[i]) {
      RoundedGood(rs[i]);
    }
  }

  /** Where the last byte of an input can be. */
  lemma LastByteOn(rs: seq<Range>, i: nat)
    requires NoneWraps(rs) && i < |rs| && rs[i].size > 0
    ensures ByteOn(RoundAll(rs), LastByte(rs[i])) <==> FitsAlone(rs[i]) || HelpedOut(rs, i)
  {
    var last := LastByte(rs[i]);
    LastByteAlone(rs[i]);
    assert RoundAll(rs)[i] == Rounded(rs[i]);
    if ByteOn(RoundAll(rs), last) {
      var j :| 0 <= j < |RoundAll(rs)| && OnRange(RoundAll(rs)[j], last);
      assert OnRange(Rounded(rs[j]), last);
    }
    if HelpedOut(rs, i) {
      var j :| 0 <= j < |rs| && j != i && OnRange(Rounded(rs[j]), last);
      assert OnRange(RoundAll(rs)[j], last);
    }
  }

  /** With its last byte every byte of a buffer is on the rounded ranges. */
  lemma RestFollows(rs: seq<Range>, i: nat, b: int)
    requires NoneWraps(rs) && i < |rs| && InBuffer(rs[i], b) && ByteOn(RoundAll(rs), LastByte(rs[i]))
    ensures ByteOn(RoundAll(rs), b)
  {
    if OnRange(Rounded(rs[i]), b) {
      assert OnRange(RoundAll(rs)[i], b);
    } else {
      MissedOnLastPage(rs[i], b);
      RoundedFamily(rs);
      ByteIsCovered(RoundAll(rs), b);
      ByteIsCovered(RoundAll(rs), LastByte(rs[i]));
    }
  }

  /** One buffer: all its bytes are on the rounded ranges exactly when its last byte is. */
  lemma BufferCovered(rs: seq<Range>, i: nat)
    requires NoneWraps(rs) && i < |rs| && rs[i].size > 0
    ensures (forall b :: InBuffer(rs[i], b) ==> ByteOn(RoundAll(rs), b)) <==> FitsAlone(rs[i]) || HelpedOut(rs, i)
  {
    LastByteOn(rs, i);
    assert InBuffer(rs[i], LastByte(rs[i]));
    if ByteOn(RoundAll(rs), LastByte(rs[i])) {
      forall b | InBuffer(rs[i], b) ensures ByteOn(RoundAll(rs), b) {
        RestFollows(rs, i, b);
      }
    }
  }

  /** Every byte of every buffer lies on the merged ranges. */
  ghost predicate AllBytesOn(rs: seq<Range>) {
    forall i, b :: 0 <= i < |rs| && InBuffer(rs[i], b) ==> ByteOn(MergeAll(RoundAll(rs)), b)
  }

  /** What `__merge_ranges` returns holds every byte of its inputs exactly when each non-empty input fits
      in its own rounded size or has its last byte on the rounded range of another input. */
  lemma CoverageExact(rs: seq<Range>)
    requires |rs| <= 3 && NoneWraps(rs)
    ensures AllBytesOn(rs) <==> forall i :: 0 <= i < |rs| && rs[i].size > 0 ==> FitsAlone(rs[i]) || HelpedOut(rs, i)
  {
    MergeRangesExact(rs);
    forall b ensures ByteOn(MergeAll(RoundAll(rs)), b) <==> ByteOn(RoundAll(rs), b) {
      SameBytes(MergeAll(RoundAll(rs)), RoundAll(rs), b);
    }
    forall i | 0 <= i < |rs| && rs[i].size > 0
      ensures (forall b :: InBuffer(rs[i], b) ==> ByteOn(RoundAll(rs), b)) <==> FitsAlone(rs[i]) || HelpedOut(rs, i)
    {
      BufferCovered(rs, i);
    }
    if forall i :: 0 <= i < |rs| && rs[i].size > 0 ==> FitsAlone(rs[i]) || HelpedOut(rs, i) {
      forall i, b | 0 <= i < |rs| && InBuffer(rs[i], b) ensures ByteOn(MergeAll(RoundAll(rs)), b) {
        assert rs[i].size > 0;
      }
    }
  }

  /** The second rounding, in `gpu_pin_mem`, leaves every merged size alone. */
  lemma SecondRounding(rs: seq<Range>, i: nat)
    requires |rs| <= 3 && NoneWraps(rs) && i < |MergeAll(RoundAll(rs))|
    ensures PageUp(MergeAll(RoundAll(rs))[i].size) == MergeAll(RoundAll(rs))[i].size
  {
    MergeRangesExact(rs);
    assert Good(MergeAll(RoundAll(rs))[i]);
    RoundUpIdempotent(MergeAll(RoundAll(rs))[i].size);
  }

  /** The ranges `gpu_alloc_device_mem` registers for a request. */
  ghost function RegisteredRanges(e: Areas, b: Buffers): seq<Range> {
    seq(|Pinned(e, b)|, i requires 0 <= i < |Pinned(e, b)| =>
      Range(Pinned(e, b)[i].addr, PageUp(Pinned(e, b)[i].size)))
  }

  /** A request: every byte of the buffers it pins is registered exactly when each of them fits in its own
      rounded size or has its last byte on the pages of another. */
  lemma RegisteredBytes(e: Areas, b: Buffers)
    requires NoneWraps(PinInputs(e, b))
    ensures (forall i, x :: 0 <= i < |PinInputs(e, b)| && InBuffer(PinInputs(e, b)[i], x) ==>
              ByteOn(RegisteredRanges(e, b), x))
      <==> (forall i :: 0 <= i < |PinInputs(e, b)| && PinInputs(e, b)[i].size > 0 ==>
              FitsAlone(PinInputs(e, b)[i]) || HelpedOut(PinInputs(e, b), i))
  {
    var rs := PinInputs(e, b);
    CoverageExact(rs);
    forall i | 0 <= i < |Pinned(e, b)| ensures RegisteredRanges(e, b)[i] == Pinned(e, b)[i] {
      SecondRounding(rs, i);
    }
    assert RegisteredRanges(e, b) == MergeAll(RoundAll(rs));
  }

  // ----- the buffers of a request -----

  /** Buffer `x` of a request, `in`, `out` or `data`, is one `gpu_alloc_device_mem` pins. */
  predicate PinnedPart(e: Areas, b: Buffers, x: nat) {
    x < 3 && !e.hostbuf.Has(Part(b, x).addr) && (x == 2 ==> e.hostvma.Has(Part(b, x).addr))
  }

  /** What is collected for pinning is those buffers, each with its own size. */
  lemma PinInputsAre(e: Areas, b: Buffers, r: Range)
    ensures r in PinInputs(e, b) <==> exists x: nat :: PinnedPart(e, b, x) && r == Part(b, x)
  {
    assert forall x: nat :: PinnedPart(e, b, x) ==> x == 0 || x == 1 || x == 2;
    if r in PinInputs(e, b) {
      assert (PinnedPart(e, b, 0) && r == Part(b, 0)) || (PinnedPart(e, b, 1) && r == Part(b, 1))
          || (PinnedPart(e, b, 2) && r == Part(b, 2));
    }
  }

  /** What is collected for unpinning is the buffers in the vma, each with its own size. */
  lemma UnpinInputsAre(e: Areas, b: Buffers, r: Range)
    ensures r in UnpinInputs(e, b) <==> exists x: nat :: x < 3 && e.hostvma.Has(Part(b, x).addr) && r == Part(b, x)
  {
    if r in UnpinInputs(e, b) {
      assert (e.hostvma.Has(Part(b, 0).addr) && r == Part(b, 0)) || (e.hostvma.Has(Part(b, 1).addr) && r == Part(b, 1))
          || (e.hostvma.Has(Part(b, 2).addr) && r == Part(b, 2));
    }
  }

  /** The rounded range of a pinned buffer of the request holds byte `y`. */
  ghost predicate OnPart(e: Areas, b: Buffers, y: int) {
    exists x: nat :: PinnedPart(e, b, x) && OnRange(Rounded(Part(b, x)), y)
  }

  lemma OnPartIsOnInput(e: Areas, b: Buffers, y: int)
    ensures OnPart(e, b, y) <==> ByteOn(RoundAll(PinInputs(e, b)), y)
  {
    var rs := PinInputs(e, b);
    if OnPart(e, b, y) {
      var x: nat :| PinnedPart(e, b, x) && OnRange(Rounded(Part(b, x)), y);
      PinInputsAre(e, b, Part(b, x));
      var i :| 0 <= i < |rs| && rs[i] == Part(b, x);
      assert OnRange(RoundAll(rs)[i], y);
    }
    if ByteOn(RoundAll(rs), y) {
      var i :| 0 <= i < |RoundAll(rs)| && OnRange(RoundAll(rs)[i], y);
      PinInputsAre(e, b, rs[i]);
      assert rs[i] in rs;
      var x: nat :| PinnedPart(e, b, x) && rs[i] == Part(b, x);
      assert OnRange(Rounded(Part(b, x)), y);
    }
  }

  /** The registered ranges of a request hold a byte exactly when the rounded range of one of its pinned buffers
      does. */
  lemma RegisteredIsOnPart(e: Areas, b: Buffers, y: int)
    requires NoneWraps(PinInputs(e, b))
    ensures ByteOn(RegisteredRanges(e, b), y) <==> OnPart(e, b, y)
  {
    var rs := PinInputs(e, b);
    RegisteredAsMerged(e, b);
    MergeRangesExact(rs);
    SameBytes(MergeAll(RoundAll(rs)), RoundAll(rs), y);
    OnPartIsOnInput(e, b, y);
  }

  lemma RegisteredAsMerged(e: Areas, b: Buffers)
    requires NoneWraps(PinInputs(e, b))
    ensures RegisteredRanges(e, b) == MergeAll(RoundAll(PinInputs(e, b)))
  {
    forall i | 0 <= i < |Pinned(e, b)| ensures RegisteredRanges(e, b)[i] == Pinned(e, b)[i] {
      SecondRounding(PinInputs(e, b), i);
    }
  }

  /** A pinned buffer of a request is registered in full exactly when it is empty, fits in its own rounded size, or
      has its last byte on the rounded range of a pinned buffer of the request. */
  lemma PartRegistered(e: Areas, b: Buffers, x: nat)
    requires NoneWraps(PinInputs(e, b)) && PinnedPart(e, b, x)
    ensures (forall y :: InBuffer(Part(b, x), y) ==> ByteOn(RegisteredRanges(e, b), y))
      <==> Part(b, x).size == 0 || FitsAlone(Part(b, x)) || OnPart(e, b, LastByte(Part(b, x)))
  {
    var rs, r := PinInputs(e, b), Part(b, x);
    PinInputsAre(e, b, r);
    var i :| 0 <= i < |rs| && rs[i] == r;
    if r.size > 0 {
      LastByteAlone(r);
      RegisteredIsOnPart(e, b, LastByte(r));
      OnPartIsOnInput(e, b, LastByte(r));
      assert InBuffer(r, LastByte(r));
      if OnPart(e, b, LastByte(r)) {
        forall y | InBuffer(r, y) ensures ByteOn(RegisteredRanges(e, b), y) {
          RestFollows(rs, i, y);
          OnPartIsOnInput(e, b, y);
          RegisteredIsOnPart(e, b, y);
        }
      }
    }
  }

  /** Page-aligned buffers always fit. */
  lemma AlignedFits(r: Range)
    requires NoWrap(r) && r.addr % PAGE_SIZE == 0
    ensures FitsAlone(r)
  {
    PageRounding(r.size);
  }

  /** A buffer that does not fit but is helped out: with its neighbour it is registered in full. */
  lemma NeighbourHelps(r: Range, s: Range)
    requires r == Range(4095, 2) && s == Range(4097, 1)
    ensures NoneWraps([r, s]) && !FitsAlone(r) && AllBytesOn([r, s])
  {
    OnePage(r.addr);
    OnePage(r.size);
    OnePage(s.size);
    PageDownValue(s.addr);
    LastByteAlone(s);
    assert OnRange(Rounded([r, s][1]), LastByte([r, s][0]));
    assert HelpedOut([r, s], 0);
    CoverageExact([r, s]);
  }
}
