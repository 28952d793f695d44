/** From kernel address to user address to device address (`fill_ku_request`, `gpu_alloc_device_mem`), and
    the page ranges pinned on the way in and unpinned on the way out (`gpu_free_device_mem`). */
module DeviceMemory {
  import opened Options
  import opened Words
  import opened PinRanges
  import Allocator

  /** `ADDR_WITHIN`. */
  predicate Within(p: u64, base: u64, size: u64) {
    p >= base && p < Add64(base, size)
  }

  /** `ADDR_REBASE`. */
  function Rebase(dst: u64, src: u64, p: u64): u64 {
    Add64(dst, Sub64(p, src))
  }

  datatype Area = Area(uva: u64, size: u64) {
    predicate Has(p: u64) {
      Within(p, uva, size)
    }
  }

  /** The helper's memory areas. */
  datatype Areas = Areas(hostbuf: Area, hostvma: Area, devbuf: u64, devbuf4vma: u64)

  /** The kernel's view of the pinned buffer. */
  datatype KernelPool = KernelPool(kva: u64, uva: u64, npages: nat) {
    /** `npages << PAGE_SHIFT`, computed in 32 bits. */
    function Bytes(): u64 {
      (npages * PAGE_SIZE) % Allocator.U32
    }
  }

  datatype Buffers = Buffers(hin: u64, insize: u64, hout: u64, outsize: u64, hdata: u64, datasize: u64)

  /** What `fill_ku_request` does to each of the three addresses. */
  function FillAddress(k: KernelPool, p: u64): u64 {
    if Within(p, k.kva, k.Bytes()) then Rebase(k.uva, k.kva, p) else p
  }

  function FillRequest(k: KernelPool, b: Buffers): Buffers {
    Buffers(FillAddress(k, b.hin), b.insize, FillAddress(k, b.hout), b.outsize, FillAddress(k, b.hdata), b.datasize)
  }

  /** The device address of an `in` or `out` buffer. */
  function DeviceAddress(e: Areas, p: u64): u64 {
    if e.hostbuf.Has(p) then Rebase(e.devbuf, e.hostbuf.uva, p)
    else Rebase(e.devbuf4vma, e.hostvma.uva, p)
  }

  /** The device address of the `data` buffer; it keeps its zero when the buffer is in neither area. */
  function DataAddress(e: Areas, p: u64): u64 {
    if e.hostbuf.Has(p) || e.hostvma.Has(p) then DeviceAddress(e, p) else 0
  }

  /** The device addresses of a request's three buffers; zero until its memory is allocated. */
  datatype Mapped = Mapped(din: u64, dout: u64, ddata: u64)

  const UNMAPPED: Mapped := Mapped(0, 0, 0)

  /** No area wraps, and the two host areas do not overlap. */
  ghost predicate AreasFit(e: Areas) {
    && e.hostbuf.uva + e.hostbuf.size < WORD && e.hostvma.uva + e.hostvma.size < WORD
    && e.devbuf + e.hostbuf.size < WORD && e.devbuf4vma + e.hostvma.size < WORD
    && (e.hostbuf.uva + e.hostbuf.size <= e.hostvma.uva || e.hostvma.uva + e.hostvma.size <= e.hostbuf.uva)
  }

  /** Host address `p` is an offset into one of the host areas, and `d` the same offset into its device buffer. */
  predicate AtOffset(e: Areas, p: int, d: int) {
    && (e.hostbuf.uva <= p < e.hostbuf.uva + e.hostbuf.size ==> d == e.devbuf + (p - e.hostbuf.uva))
    && (e.hostvma.uva <= p < e.hostvma.uva + e.hostvma.size ==> d == e.devbuf4vma + (p - e.hostvma.uva))
  }

  /** Host address `p` lies in neither host area. */
  predicate InNeither(e: Areas, p: int) {
    && !(e.hostbuf.uva <= p < e.hostbuf.uva + e.hostbuf.size)
    && !(e.hostvma.uva <= p < e.hostvma.uva + e.hostvma.size)
  }

  /** The device addresses of a request: each buffer at its own offset in the device buffer of its area.  An `in`
      or `out` in neither area is taken for an offset, of any sign, into the vma; a `data` buffer in neither has
      no device address. */
  predicate DeviceRight(e: Areas, b: Buffers, m: Mapped) {
    && AtOffset(e, b.hin, m.din) && AtOffset(e, b.hout, m.dout) && AtOffset(e, b.hdata, m.ddata)
    && (InNeither(e, b.hin) ==> (m.din - e.devbuf4vma - (b.hin - e.hostvma.uva)) % WORD == 0)
    && (InNeither(e, b.hout) ==> (m.dout - e.devbuf4vma - (b.hout - e.hostvma.uva)) % WORD == 0)
    && (InNeither(e, b.hdata) ==> m.ddata == 0)
  }

  function When(c: bool, addr: u64, size: u64): seq<Range> {
    if c then [Range(addr, size)] else []
  }

  /** The ranges `gpu_alloc_device_mem` collects for pinning. */
  function PinInputs(e: Areas, b: Buffers): seq<Range> {
    When(!e.hostbuf.Has(b.hin), b.hin, b.insize)
    + When(!e.hostbuf.Has(b.hout), b.hout, b.outsize)
    + When(!e.hostbuf.Has(b.hdata) && e.hostvma.Has(b.hdata), b.hdata, b.datasize)
  }

  /** The ranges `gpu_free_device_mem` collects for unpinning. */
  function UnpinInputs(e: Areas, b: Buffers): seq<Range> {
    When(e.hostvma.Has(b.hin), b.hin, b.insize)
    + When(e.hostvma.Has(b.hout), b.hout, b.outsize)
    + When(e.hostvma.Has(b.hdata), b.hdata, b.datasize)
  }

  function Pinned(e: Areas, b: Buffers): seq<Range> {
    MergeAll(RoundAll(PinInputs(e, b)))
  }

  function Unpinned(e: Areas, b: Buffers): seq<Range> {
    MergeAll(RoundAll(UnpinInputs(e, b)))
  }

  // ----- the code -----

  method Collect(ad: array<u64>, sz: array<u64>, n: nat, addr: u64, size: u64) returns (n': nat)
    requires ad != sz && ad.Length == sz.Length == 3 && n < 3
    modifies ad, sz
    ensures n' == n + 1
    ensures Slots(ad, sz, n') == old(Slots(ad, sz, n)) + [Range(addr, size)]
  {
    ad[n] := addr;
    sz[n] := size;
    n' := n + 1;
  }

  lemma RebaseWraps(dst: u64, src: u64, p: u64)
    ensures (Rebase(dst, src, p) - dst - (p - src)) % WORD == 0
    ensures 0 <= p - src && dst + (p - src) < WORD ==> Rebase(dst, src, p) == dst + (p - src)
  {
  }

  lemma DeviceAddressRight(e: Areas, p: u64)
    requires AreasFit(e)
    ensures AtOffset(e, p, DeviceAddress(e, p))
    ensures InNeither(e, p) ==> (DeviceAddress(e, p) - e.devbuf4vma - (p - e.hostvma.uva)) % WORD == 0
    ensures InNeither(e, p) <==> !e.hostbuf.Has(p) && !e.hostvma.Has(p)
  {
    RebaseWraps(e.devbuf, e.hostbuf.uva, p);
    RebaseWraps(e.devbuf4vma, e.hostvma.uva, p);
  }

  lemma AddressesRight(e: Areas, b: Buffers)
    requires AreasFit(e)
    ensures DeviceRight(e, b, Mapped(DeviceAddress(e, b.hin), DeviceAddress(e, b.hout), DataAddress(e, b.hdata)))
  {
    DeviceAddressRight(e, b.hin);
    DeviceAddressRight(e, b.hout);
    DeviceAddressRight(e, b.hdata);
  }

  /** `gpu_alloc_device_mem`: device addresses, and the calls of `cudaHostRegister` in order.  It never
      fails. */
  method GpuAllocDeviceMem(e: Areas, b: Buffers)
    returns (r: int, din: u64, dout: u64, ddata: u64, pins: seq<Range>)
    ensures r == 0
    ensures AreasFit(e) ==> DeviceRight(e, b, Mapped(din, dout, ddata))
    ensures !e.hostbuf.Has(b.hdata) && !e.hostvma.Has(b.hdata) ==> ddata == 0
    ensures din == DeviceAddress(e, b.hin) && dout == DeviceAddress(e, b.hout) && ddata == DataAddress(e, b.hdata)
    ensures |pins| == |Pinned(e, b)|
    ensures forall i :: 0 <= i < |pins| ==> pins[i] == Range(Pinned(e, b)[i].addr, PageUp(Pinned(e, b)[i].size))
  {
    var ad := new u64[3](_ => 0);
    var sz := new u64[3](_ => 0);
    var npins := 0;
    ddata := 0;
    if e.hostbuf.Has(b.hin) {
      din := Rebase(e.devbuf, e.hostbuf.uva, b.hin);
    } else {
      din := Rebase(e.devbuf4vma, e.hostvma.uva, b.hin);
      npins := Collect(ad, sz, npins, b.hin, b.insize);
    }
    assert Slots(ad, sz, npins) == When(!e.hostbuf.Has(b.hin), b.hin, b.insize);
    if e.hostbuf.Has(b.hout) {
      dout := Rebase(e.devbuf, e.hostbuf.uva, b.hout);
    } else {
      dout := Rebase(e.devbuf4vma, e.hostvma.uva, b.hout);
      npins := Collect(ad, sz, npins, b.hout, b.outsize);
    }
    assert Slots(ad, sz, npins)
        == When(!e.hostbuf.Has(b.hin), b.hin, b.insize) + When(!e.hostbuf.Has(b.hout), b.hout, b.outsize);
    if e.hostbuf.Has(b.hdata) {
      ddata := Rebase(e.devbuf, e.hostbuf.uva, b.hdata);
    } else if e.hostvma.Has(b.hdata) {
      ddata := Rebase(e.devbuf4vma, e.hostvma.uva, b.hdata);
      npins := Collect(ad, sz, npins, b.hdata, b.datasize);
    }
    assert Slots(ad, sz, npins) == PinInputs(e, b);
    npins := MergeRanges(ad, sz, npins);
    assert |Slots(ad, sz, npins)| == npins;
    pins := PinAll(ad, sz, npins);
    r := 0;
    if AreasFit(e) {
      AddressesRight(e, b);
    }
  }

  /** The pinning loop; `gpu_pin_mem` rounds each size once more. */
  method PinAll(ad: array<u64>, sz: array<u64>, npins: nat) returns (pins: seq<Range>)
    requires npins <= ad.Length && npins <= sz.Length
    ensures |pins| == npins
    ensures forall i :: 0 <= i < npins ==>
      pins[i] == Range(Slots(ad, sz, npins)[i].addr, PageUp(Slots(ad, sz, npins)[i].size))
  {
    pins := [];
    var i := 0;
    while i < npins
      invariant 0 <= i <= npins && |pins| == i
      invariant forall k :: 0 <= k < i ==> pins[k] == Range(ad[k], PageUp(sz[k]))
    {
      pins := pins + [Range(ad[i], PageUp(sz[i]))];
      i := i + 1;
    }
  }

  /** `gpu_free_device_mem`: the calls of `cudaHostUnregister` in order. */
  method GpuFreeDeviceMem(e: Areas, b: Buffers) returns (unpins: seq<u64>)
    ensures |unpins| == |Unpinned(e, b)|
    ensures forall i :: 0 <= i < |unpins| ==> unpins[i] == Unpinned(e, b)[i].addr
  {
    var ad := new u64[3](_ => 0);
    var sz := new u64[3](_ => 0);
    var npins := 0;
    if e.hostvma.Has(b.hin) {
      npins := Collect(ad, sz, npins, b.hin, b.insize);
    }
    assert Slots(ad, sz, npins) == When(e.hostvma.Has(b.hin), b.hin, b.insize);
    if e.hostvma.Has(b.hout) {
      npins := Collect(ad, sz, npins, b.hout, b.outsize);
    }
    assert Slots(ad, sz, npins)
        == When(e.hostvma.Has(b.hin), b.hin, b.insize) + When(e.hostvma.Has(b.hout), b.hout, b.outsize);
    if e.hostvma.Has(b.hdata) {
      npins := Collect(ad, sz, npins, b.hdata, b.datasize);
    }
    assert Slots(ad, sz, npins) == UnpinInputs(e, b);
    npins := MergeRanges(ad, sz, npins);
    assert |Slots(ad, sz, npins)| == npins;
    unpins := UnpinAll(ad, npins);
    assert forall i :: 0 <= i < npins ==> Slots(ad, sz, npins)[i].addr == ad[i];
  }

  method UnpinAll(ad: array<u64>, npins: nat) returns (unpins: seq<u64>)
    requires npins <= ad.Length
    ensures unpins == ad[..npins]
  {
    unpins := [];
    var i := 0;
    while i < npins
      invariant 0 <= i <= npins
      invariant unpins == ad[..i]
    {
      unpins := unpins + [ad[i]];
      i := i + 1;
    }
  }

  // ----- pin balance -----

  ghost predicate HostAreasDisjoint(e: Areas) {
    forall p: u64 :: !(e.hostbuf.Has(p) && e.hostvma.Has(p))
  }

  /** `in` and `out` each lie in one of the two host areas. */
  predicate InHostAreas(e: Areas, b: Buffers) {
    (e.hostbuf.Has(b.hin) || e.hostvma.Has(b.hin)) && (e.hostbuf.Has(b.hout) || e.hostvma.Has(b.hout))
  }

  /** The two routines collect the same ranges exactly when `in` and `out` lie in a host area: the
      allocation side takes everything outside `hostbuf` to be in the vma, the free side does not. */
  lemma SameInputs(e: Areas, b: Buffers)
    requires HostAreasDisjoint(e)
    ensures PinInputs(e, b) == UnpinInputs(e, b) <==> InHostAreas(e, b)
  {
    assert !(e.hostbuf.Has(b.hin) && e.hostvma.Has(b.hin));
    assert !(e.hostbuf.Has(b.hout) && e.hostvma.Has(b.hout));
    assert !(e.hostbuf.Has(b.hdata) && e.hostvma.Has(b.hdata));
    if !InHostAreas(e, b) {
      assert |PinInputs(e, b)| > |UnpinInputs(e, b)|;
    }
  }

  /** No two entries of a separated family start at the same address. */
  lemma DistinctAddresses(rs: seq<Range>, i: nat, j: nat)
    requires Separated(rs) && i < j < |rs|
    ensures rs[i].addr != rs[j].addr
  {
    assert Apart(rs[i], rs[j]);
  }

  /** Pin balance: what completion unpins is what allocation pinned, range by range and each address
      once, and the second rounding in `gpu_pin_mem` changes no size. */
  lemma PinBalance(e: Areas, b: Buffers)
    requires HostAreasDisjoint(e) && InHostAreas(e, b)
    requires forall i :: 0 <= i < |PinInputs(e, b)| ==> NoWrap(PinInputs(e, b)[i])
    ensures Pinned(e, b) == Unpinned(e, b)
    ensures forall i, j :: 0 <= i < j < |Pinned(e, b)| ==> Pinned(e, b)[i].addr != Pinned(e, b)[j].addr
    ensures forall i :: 0 <= i < |Pinned(e, b)| ==> PageUp(Pinned(e, b)[i].size) == Pinned(e, b)[i].size
  {
    SameInputs(e, b);
    MergeRangesExact(PinInputs(e, b));
    var out := Pinned(e, b);
    forall i, j | 0 <= i < j < |out| ensures out[i].addr != out[j].addr {
      DistinctAddresses(out, i, j);
    }
    forall i | 0 <= i < |out| ensures PageUp(out[i].size) == out[i].size {
      assert Good(out[i]);
      RoundUpIdempotent(out[i].size);
    }
  }

  lemma MergeAllEmpty(rs: seq<Range>)
    requires |rs| <= 3
    ensures MergeAll(rs) == [] <==> rs == []
  {
  }

  /** A request that never reached memory allocation (no such service) is unpinned all the same; that is
      harmless exactly when none of its buffers lies in the vma. */
  lemma UnpinWithoutPin(e: Areas, b: Buffers)
    ensures Unpinned(e, b) == [] <==>
      !e.hostvma.Has(b.hin) && !e.hostvma.Has(b.hout) && !e.hostvma.Has(b.hdata)
  {
    MergeAllEmpty(RoundAll(UnpinInputs(e, b)));
    assert |RoundAll(UnpinInputs(e, b))| == |UnpinInputs(e, b)|;
  }

  // ----- device isolation -----

  /** The areas as `kh_init`, `gpu_init` and `set_gpu_mempool` lay them out: the kernel pool is the same
      buffer as `hostbuf`, host and device areas agree in size, and nothing overlaps or wraps. */
  ghost predicate LaidOut(k: KernelPool, e: Areas) {
    var size := e.hostbuf.size;
    && k.uva == e.hostbuf.uva && k.npages * PAGE_SIZE == size && size < Allocator.U32
    && e.hostvma.size == size
    && k.kva + size < WORD && k.uva + size < WORD && e.hostvma.uva + size < WORD
    && e.devbuf + size < WORD && e.devbuf4vma + size < WORD
    && (e.devbuf + size <= e.devbuf4vma || e.devbuf4vma + size <= e.devbuf)
    && (k.kva + size <= e.hostvma.uva || e.hostvma.uva + size <= k.kva)
    && (k.uva + size <= e.hostvma.uva || e.hostvma.uva + size <= k.uva)
  }

  lemma PoolByteAt(k: KernelPool, e: Areas, b: u64)
    requires LaidOut(k, e) && k.kva <= b < k.kva + e.hostbuf.size
    ensures FillAddress(k, b) == k.uva + (b - k.kva)
    ensures DeviceAddress(e, FillAddress(k, b)) == e.devbuf + (b - k.kva)
  {
    assert k.Bytes() == e.hostbuf.size;
  }

  lemma VmaByteAt(k: KernelPool, e: Areas, b: u64)
    requires LaidOut(k, e) && e.hostvma.uva <= b < e.hostvma.uva + e.hostvma.size
    ensures FillAddress(k, b) == b
    ensures DeviceAddress(e, FillAddress(k, b)) == e.devbuf4vma + (b - e.hostvma.uva)
  {
    assert k.Bytes() == e.hostbuf.size;
  }

  /** A byte of the kernel pool keeps its offset all the way to the device buffer. */
  lemma PoolByteKeepsOffset(k: KernelPool, e: Areas, off: nat)
    requires LaidOut(k, e) && off < e.hostbuf.size
    ensures DeviceAddress(e, FillAddress(k, k.kva + off)) == e.devbuf + off
  {
    PoolByteAt(k, e, k.kva + off);
  }

  /** A byte of the mapped area passes the kernel unchanged and keeps its offset in the second buffer. */
  lemma VmaByteKeepsOffset(k: KernelPool, e: Areas, off: nat)
    requires LaidOut(k, e) && off < e.hostvma.size
    ensures DeviceAddress(e, FillAddress(k, e.hostvma.uva + off)) == e.devbuf4vma + off
  {
    VmaByteAt(k, e, e.hostvma.uva + off);
  }

  /** A byte of memory handed out by one of the two allocators. */
  datatype Source = FromPool | FromVma

  ghost predicate Live(k: KernelPool, e: Areas, pool: Allocator.Pool, vm: Allocator.Pool, src: Source, i: nat, b: int)
    requires LaidOut(k, e) && Allocator.Sized(PoolGeometry(k), pool) && Allocator.Sized(VmaGeometry(e), vm)
  {
    match src
    case FromPool => Allocator.InBlock(PoolGeometry(k), pool, i, b)
    case FromVma => Allocator.InBlock(VmaGeometry(e), vm, i, b)
  }

  /** `nunits = npages / KGPU_BUF_NR_FRAMES_PER_UNIT`. */
  function PoolGeometry(k: KernelPool): Allocator.Geometry {
    Allocator.Geometry(k.kva, Allocator.KGPU_BUF_UNIT_SIZE,
                       k.npages / (Allocator.KGPU_BUF_UNIT_SIZE / PAGE_SIZE))
  }

  function VmaGeometry(e: Areas): Allocator.Geometry {
    Allocator.Geometry(e.hostvma.uva, PAGE_SIZE, e.hostvma.size / PAGE_SIZE)
  }

  lemma GeometriesValid(k: KernelPool, e: Areas)
    requires LaidOut(k, e)
    ensures PoolGeometry(k).Valid() && VmaGeometry(e).Valid()
    ensures PoolGeometry(k).n * PoolGeometry(k).unit <= e.hostbuf.size
    ensures VmaGeometry(e).n * VmaGeometry(e).unit <= e.hostvma.size
  {
    var n := k.npages / 256;
    assert PoolGeometry(k).n == n;
    assert n * 256 <= k.npages;
  }

  /** Byte `b` reaches the device buffer of its area at the offset it has in its own area. */
  ghost predicate KeepsOffset(k: KernelPool, e: Areas, src: Source, b: u64) {
    var d := DeviceAddress(e, FillAddress(k, b));
    if src.FromPool? then d - e.devbuf == b - k.kva && 0 <= d - e.devbuf < e.hostbuf.size
    else d - e.devbuf4vma == b - e.hostvma.uva && 0 <= d - e.devbuf4vma < e.hostvma.size
  }

  /** Device isolation: bytes of different live blocks, whichever allocator they come from, are sent to
      different device addresses, each inside its device buffer. */
  lemma DeviceIsolation(k: KernelPool, e: Areas, pool: Allocator.Pool, vm: Allocator.Pool,
                        src: Source, i: nat, b: u64, src': Source, i': nat, b': u64)
    requires LaidOut(k, e)
    requires Allocator.Sized(PoolGeometry(k), pool) && Allocator.Agree(pool)
    requires Allocator.Sized(VmaGeometry(e), vm) && Allocator.Agree(vm)
    requires Live(k, e, pool, vm, src, i, b) && Live(k, e, pool, vm, src', i', b')
    ensures (src, i) != (src', i') ==>
      DeviceAddress(e, FillAddress(k, b)) != DeviceAddress(e, FillAddress(k, b'))
    ensures KeepsOffset(k, e, src, b)
  {
    LiveByteMapped(k, e, pool, vm, src, i, b);
    LiveByteMapped(k, e, pool, vm, src', i', b');
    if src == src' && i != i' {
      match src {
        case FromPool => Allocator.BlocksDisjoint(PoolGeometry(k), pool, i, i', b);
        case FromVma => Allocator.BlocksDisjoint(VmaGeometry(e), vm, i, i', b);
      }
    }
  }

  /** A buffer inside one live block. */
  ghost predicate InLiveBlock(k: KernelPool, e: Areas, pool: Allocator.Pool, vm: Allocator.Pool, r: Range, owner: Owner)
    requires LaidOut(k, e) && Allocator.Sized(PoolGeometry(k), pool) && Allocator.Sized(VmaGeometry(e), vm)
  {
    forall b :: r.addr <= b < r.addr + r.size ==> Live(k, e, pool, vm, owner.src, owner.i, b)
  }

  /** The block a buffer lies in. */
  datatype Owner = Owner(src: Source, i: nat)

  /** Two ranges share a byte. */
  predicate Overlap(r: Range, s: Range) {
    r.size > 0 && s.size > 0 && r.addr < s.addr + s.size && s.addr < r.addr + r.size
  }

  /** A buffer in one live block reaches the device in one piece. */
  lemma BufferInOnePiece(k: KernelPool, e: Areas, pool: Allocator.Pool, vm: Allocator.Pool,
                         r: Range, owner: Owner, b: u64)
    requires LaidOut(k, e)
    requires Allocator.Sized(PoolGeometry(k), pool) && Allocator.Agree(pool)
    requires Allocator.Sized(VmaGeometry(e), vm) && Allocator.Agree(vm)
    requires InLiveBlock(k, e, pool, vm, r, owner) && r.addr <= b < r.addr + r.size
    ensures DeviceAddress(e, FillAddress(k, b)) == DeviceAddress(e, FillAddress(k, r.addr)) + (b - r.addr)
  {
    LiveByteMapped(k, e, pool, vm, owner.src, owner.i, b);
    LiveByteMapped(k, e, pool, vm, owner.src, owner.i, r.addr);
  }

  /** Buffers inside different live blocks are given disjoint device ranges. */
  lemma BuffersDisjoint(k: KernelPool, e: Areas, pool: Allocator.Pool, vm: Allocator.Pool,
                        r: Range, o: Owner, r': Range, o': Owner)
    requires LaidOut(k, e)
    requires Allocator.Sized(PoolGeometry(k), pool) && Allocator.Agree(pool)
    requires Allocator.Sized(VmaGeometry(e), vm) && Allocator.Agree(vm)
    requires InLiveBlock(k, e, pool, vm, r, o) && InLiveBlock(k, e, pool, vm, r', o') && o != o'
    ensures !Overlap(Range(DeviceAddress(e, FillAddress(k, r.addr)), r.size),
                     Range(DeviceAddress(e, FillAddress(k, r'.addr)), r'.size))
  {
    var d, d' := DeviceAddress(e, FillAddress(k, r.addr)), DeviceAddress(e, FillAddress(k, r'.addr));
    if Overlap(Range(d, r.size), Range(d', r'.size)) {
      var x := if d < d' then d' else d;
      var b, b' := r.addr + (x - d), r'.addr + (x - d');
      LiveIsWord(k, e, pool, vm, o, b);
      LiveIsWord(k, e, pool, vm, o', b');
      BufferInOnePiece(k, e, pool, vm, r, o, b);
      BufferInOnePiece(k, e, pool, vm, r', o', b');
      DeviceIsolation(k, e, pool, vm, o.src, o.i, b, o'.src, o'.i, b');
    }
  }

  /** The three buffers of a request. */
  function Part(b: Buffers, x: nat): Range {
    if x == 0 then Range(b.hin, b.insize) else if x == 1 then Range(b.hout, b.outsize) else Range(b.hdata, b.datasize)
  }

  /** The device range `gpu_alloc_device_mem` gives each of them. */
  function DevicePart(e: Areas, b: Buffers, x: nat): Range {
    if x == 0 then Range(DeviceAddress(e, b.hin), b.insize)
    else if x == 1 then Range(DeviceAddress(e, b.hout), b.outsize)
    else Range(DataAddress(e, b.hdata), b.datasize)
  }

  /** A live byte reaches the helper in one of its host areas. */
  lemma LiveInHostArea(k: KernelPool, e: Areas, pool: Allocator.Pool, vm: Allocator.Pool, o: Owner, b: u64)
    requires LaidOut(k, e)
    requires Allocator.Sized(PoolGeometry(k), pool) && Allocator.Agree(pool)
    requires Allocator.Sized(VmaGeometry(e), vm) && Allocator.Agree(vm)
    requires Live(k, e, pool, vm, o.src, o.i, b)
    ensures e.hostbuf.Has(FillAddress(k, b)) || e.hostvma.Has(FillAddress(k, b))
  {
    GeometriesValid(k, e);
    match o.src {
      case FromPool =>
        ByteInArea(PoolGeometry(k), pool, o.i, b, e.hostbuf.size);
        PoolByteAt(k, e, b);
      case FromVma =>
        ByteInArea(VmaGeometry(e), vm, o.i, b, e.hostvma.size);
        VmaByteAt(k, e, b);
    }
  }

  /** The non-empty buffers of a request lie in the blocks named for them. */
  ghost predicate OwnsParts(k: KernelPool, e: Areas, pool: Allocator.Pool, vm: Allocator.Pool,
                            b: Buffers, os: seq<Owner>)
    requires LaidOut(k, e) && Allocator.Sized(PoolGeometry(k), pool) && Allocator.Sized(VmaGeometry(e), vm)
  {
    |os| == 3 && forall x: nat :: x < 3 && Part(b, x).size > 0 ==> InLiveBlock(k, e, pool, vm, Part(b, x), os[x])
  }

  lemma PartOnDevice(k: KernelPool, e: Areas, pool: Allocator.Pool, vm: Allocator.Pool,
                     b: Buffers, os: seq<Owner>, x: nat)
    requires LaidOut(k, e)
    requires Allocator.Sized(PoolGeometry(k), pool) && Allocator.Agree(pool)
    requires Allocator.Sized(VmaGeometry(e), vm) && Allocator.Agree(vm)
    requires OwnsParts(k, e, pool, vm, b, os) && x < 3 && Part(b, x).size > 0
    ensures DevicePart(e, FillRequest(k, b), x)
         == Range(DeviceAddress(e, FillAddress(k, Part(b, x).addr)), Part(b, x).size)
  {
    assert InLiveBlock(k, e, pool, vm, Part(b, x), os[x]);
    LiveInHostArea(k, e, pool, vm, os[x], Part(b, x).addr);
  }

  /** Two requests whose buffers lie in different live blocks use disjoint device memory, from the kernel's
      `fill_ku_request` to the addresses `gpu_alloc_device_mem` stores. */
  lemma RequestsIsolated(k: KernelPool, e: Areas, pool: Allocator.Pool, vm: Allocator.Pool,
                         b: Buffers, os: seq<Owner>, b': Buffers, os': seq<Owner>, x: nat, y: nat)
    requires LaidOut(k, e)
    requires Allocator.Sized(PoolGeometry(k), pool) && Allocator.Agree(pool)
    requires Allocator.Sized(VmaGeometry(e), vm) && Allocator.Agree(vm)
    requires OwnsParts(k, e, pool, vm, b, os) && OwnsParts(k, e, pool, vm, b', os')
    requires forall o :: o in os ==> o !in os'
    requires x < 3 && y < 3
    ensures !Overlap(DevicePart(e, FillRequest(k, b), x), DevicePart(e, FillRequest(k, b'), y))
  {
    if Part(b, x).size > 0 && Part(b', y).size > 0 {
      PartOnDevice(k, e, pool, vm, b, os, x);
      PartOnDevice(k, e, pool, vm, b', os', y);
      assert os[x] in os && os'[y] in os';
      BuffersDisjoint(k, e, pool, vm, Part(b, x), os[x], Part(b', y), os'[y]);
    }
  }

  /** The range of device memory a request uses for each of its buffers. */
  function UsedPart(m: Mapped, b: Buffers, x: nat): Range {
    if x == 0 then Range(m.din, b.insize) else if x == 1 then Range(m.dout, b.outsize) else Range(m.ddata, b.datasize)
  }

  lemma LaidOutFits(k: KernelPool, e: Areas)
    requires LaidOut(k, e)
    ensures AreasFit(e)
  {
  }

  /** Stored addresses that are right are the ones the buffers' bytes keep their offsets in. */
  lemma UsedIsDevicePart(k: KernelPool, e: Areas, pool: Allocator.Pool, vm: Allocator.Pool,
                         b: Buffers, os: seq<Owner>, m: Mapped, x: nat)
    requires LaidOut(k, e)
    requires Allocator.Sized(PoolGeometry(k), pool) && Allocator.Agree(pool)
    requires Allocator.Sized(VmaGeometry(e), vm) && Allocator.Agree(vm)
    requires OwnsParts(k, e, pool, vm, b, os) && x < 3 && Part(b, x).size > 0 && DeviceRight(e, FillRequest(k, b), m)
    ensures UsedPart(m, FillRequest(k, b), x)
         == Range(DeviceAddress(e, FillAddress(k, Part(b, x).addr)), Part(b, x).size)
  {
    assert InLiveBlock(k, e, pool, vm, Part(b, x), os[x]);
    LiveInHostArea(k, e, pool, vm, os[x], Part(b, x).addr);
    LaidOutFits(k, e);
    FilledPart(k, b, x);
    PartRight(e, FillRequest(k, b), m, x);
  }

  lemma FilledPart(k: KernelPool, b: Buffers, x: nat)
    ensures Part(FillRequest(k, b), x) == Range(FillAddress(k, Part(b, x).addr), Part(b, x).size)
  {
  }

  lemma PartRight(e: Areas, b: Buffers, m: Mapped, x: nat)
    requires AreasFit(e) && DeviceRight(e, b, m) && x < 3
    requires e.hostbuf.Has(Part(b, x).addr) || e.hostvma.Has(Part(b, x).addr)
    ensures UsedPart(m, b, x) == Range(DeviceAddress(e, Part(b, x).addr), Part(b, x).size)
  {
    DeviceAddressRight(e, Part(b, x).addr);
  }

  /** Device isolation for what is stored: two requests whose device addresses are right and whose buffers lie in
      different live blocks use disjoint device memory. */
  lemma StoredIsolated(k: KernelPool, e: Areas, pool: Allocator.Pool, vm: Allocator.Pool,
                       b: Buffers, os: seq<Owner>, m: Mapped, b': Buffers, os': seq<Owner>, m': Mapped, x: nat, y: nat)
    requires LaidOut(k, e)
    requires Allocator.Sized(PoolGeometry(k), pool) && Allocator.Agree(pool)
    requires Allocator.Sized(VmaGeometry(e), vm) && Allocator.Agree(vm)
    requires OwnsParts(k, e, pool, vm, b, os) && OwnsParts(k, e, pool, vm, b', os')
    requires forall o :: o in os ==> o !in os'
    requires DeviceRight(e, FillRequest(k, b), m) && DeviceRight(e, FillRequest(k, b'), m') && x < 3 && y < 3
    ensures !Overlap(UsedPart(m, FillRequest(k, b), x), UsedPart(m', FillRequest(k, b'), y))
  {
    if Part(b, x).size > 0 && Part(b', y).size > 0 {
      UsedIsDevicePart(k, e, pool, vm, b, os, m, x);
      UsedIsDevicePart(k, e, pool, vm, b', os', m', y);
      assert os[x] in os && os'[y] in os';
      BuffersDisjoint(k, e, pool, vm, Part(b, x), os[x], Part(b', y), os'[y]);
    }
  }

  lemma LiveIsWord(k: KernelPool, e: Areas, pool: Allocator.Pool, vm: Allocator.Pool, o: Owner, b: int)
    requires LaidOut(k, e)
    requires Allocator.Sized(PoolGeometry(k), pool) && Allocator.Agree(pool)
    requires Allocator.Sized(VmaGeometry(e), vm) && Allocator.Agree(vm)
    requires Live(k, e, pool, vm, o.src, o.i, b)
    ensures 0 <= b < WORD
  {
    match o.src {
      case FromPool => Allocator.BlockInPool(PoolGeometry(k), pool, o.i, b);
      case FromVma => Allocator.BlockInPool(VmaGeometry(e), vm, o.i, b);
    }
  }

  lemma LiveByteMapped(k: KernelPool, e: Areas, pool: Allocator.Pool, vm: Allocator.Pool, src: Source, i: nat, b: u64)
    requires LaidOut(k, e)
    requires Allocator.Sized(PoolGeometry(k), pool) && Allocator.Agree(pool)
    requires Allocator.Sized(VmaGeometry(e), vm) && Allocator.Agree(vm)
    requires Live(k, e, pool, vm, src, i, b)
    ensures KeepsOffset(k, e, src, b)
  {
    match src {
      case FromPool => LivePoolByte(k, e, pool, i, b);
      case FromVma => LiveVmaByte(k, e, vm, i, b);
    }
  }

  /** A live block of a pool lies in the area the pool was carved from. */
  lemma ByteInArea(g: Allocator.Geometry, s: Allocator.Pool, i: nat, b: int, size: nat)
    requires Allocator.Sized(g, s) && Allocator.Agree(s) && Allocator.InBlock(g, s, i, b) && g.n * g.unit <= size
    ensures g.base <= b < g.base + size
  {
    Allocator.BlockInPool(g, s, i, b);
  }

  lemma LivePoolByte(k: KernelPool, e: Areas, pool: Allocator.Pool, i: nat, b: u64)
    requires LaidOut(k, e) && Allocator.Sized(PoolGeometry(k), pool) && Allocator.Agree(pool)
    requires Allocator.InBlock(PoolGeometry(k), pool, i, b)
    ensures KeepsOffset(k, e, FromPool, b)
  {
    assert k.kva <= b < k.kva + e.hostbuf.size by {
      GeometriesValid(k, e);
      ByteInArea(PoolGeometry(k), pool, i, b, e.hostbuf.size);
    }
    PoolByteAt(k, e, b);
  }

  lemma LiveVmaByte(k: KernelPool, e: Areas, vm: Allocator.Pool, i: nat, b: u64)
    requires LaidOut(k, e) && Allocator.Sized(VmaGeometry(e), vm) && Allocator.Agree(vm)
    requires Allocator.InBlock(VmaGeometry(e), vm, i, b)
    ensures KeepsOffset(k, e, FromVma, b)
  {
    assert e.hostvma.uva <= b < e.hostvma.uva + e.hostvma.size by {
      GeometriesValid(k, e);
      ByteInArea(VmaGeometry(e), vm, i, b, e.hostvma.size);
    }
    VmaByteAt(k, e, b);
  }

  /** The pool size is shifted in 32 bits, so `fill_ku_request` recognises every byte of the pool exactly
      when the pool is smaller than 4 GiB. */
  lemma FillSeesWholePool(k: KernelPool)
    requires k.npages < Allocator.U32 && k.kva + k.npages * PAGE_SIZE < WORD
    ensures (forall p: u64 :: InPool(k, p) ==> Within(p, k.kva, k.Bytes()))
      <==> k.npages * PAGE_SIZE < Allocator.U32
  {
    var n := k.npages * PAGE_SIZE;
    if n >= Allocator.U32 {
      assert InPool(k, k.kva + (n - 1));
    }
  }

  /** A pool of 2^20 pages, 4 GiB, has no size left after the shift: none of its bytes is recognised, and the
      helper is given the kernel address unchanged. */
  lemma LargePoolUnseen(k: KernelPool, p: u64)
    requires k.npages == 0x10_0000 && k.kva + k.npages * PAGE_SIZE < WORD && InPool(k, p)
    ensures k.Bytes() == 0 && FillAddress(k, p) == p
  {
    assert k.npages * PAGE_SIZE == Allocator.U32;
  }

  /** What `fill_ku_request` does to an address, for a pool smaller than 4 GiB: an address in the pool keeps its
      offset, any other passes unchanged. */
  lemma FillAddressLaw(k: KernelPool, p: u64)
    requires k.npages * PAGE_SIZE < Allocator.U32
    requires k.kva + k.npages * PAGE_SIZE < WORD && k.uva + k.npages * PAGE_SIZE < WORD
    ensures InPool(k, p) ==> FillAddress(k, p) - k.uva == p - k.kva
    ensures !InPool(k, p) ==> FillAddress(k, p) == p
  {
    assert k.Bytes() == k.npages * PAGE_SIZE;
  }

  predicate InPool(k: KernelPool, p: u64) {
    k.kva <= p < k.kva + k.npages * PAGE_SIZE
  }
}
