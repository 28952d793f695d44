/** The CUDA registrations over a whole run of the helper: for every request ever read, exactly which
    `cudaHostRegister` and `cudaHostUnregister` calls have been made on its behalf. */
module PinLedger {
  import opened Options
  import opened Words
  import opened PinRanges
  import opened DeviceMemory
  import opened HelperModel
  import opened Liveness

  /** A call of the CUDA runtime made for request `t`. */
  datatype CudaCall = HostRegister(t: nat, r: Range) | HostUnregister(t: nat, addr: u64)

  /** The calls of the pinning loop; `gpu_pin_mem` rounds each size once more. */
  function Registers(t: nat, rs: seq<Range>): seq<CudaCall> {
    if rs == [] then []
    else Registers(t, rs[..|rs| - 1]) + [HostRegister(t, Range(rs[|rs| - 1].addr, PageUp(rs[|rs| - 1].size)))]
  }

  /** The calls of the unpinning loop. */
  function Unregisters(t: nat, rs: seq<Range>): seq<CudaCall> {
    if rs == [] then [] else Unregisters(t, rs[..|rs| - 1]) + [HostUnregister(t, rs[|rs| - 1].addr)]
  }

  function RegisterCalls(t: nat, pins: seq<Range>): seq<CudaCall> {
    if pins == [] then [] else RegisterCalls(t, pins[..|pins| - 1]) + [HostRegister(t, pins[|pins| - 1])]
  }

  function UnregisterCalls(t: nat, unpins: seq<u64>): seq<CudaCall> {
    if unpins == [] then [] else UnregisterCalls(t, unpins[..|unpins| - 1]) + [HostUnregister(t, unpins[|unpins| - 1])]
  }

  lemma {:induction false} RegisterCallsAre(t: nat, pins: seq<Range>, rs: seq<Range>)
    requires |pins| == |rs|
    requires forall i :: 0 <= i < |pins| ==> pins[i] == Range(rs[i].addr, PageUp(rs[i].size))
    ensures RegisterCalls(t, pins) == Registers(t, rs)
  {
    if pins != [] {
      RegisterCallsAre(t, pins[..|pins| - 1], rs[..|rs| - 1]);
    }
  }

  lemma {:induction false} UnregisterCallsAre(t: nat, unpins: seq<u64>, rs: seq<Range>)
    requires |unpins| == |rs| && forall i :: 0 <= i < |unpins| ==> unpins[i] == rs[i].addr
    ensures UnregisterCalls(t, unpins) == Unregisters(t, rs)
  {
    if unpins != [] {
      UnregisterCallsAre(t, unpins[..|unpins| - 1], rs[..|rs| - 1]);
    }
  }

  /** The calls made for one request. */
  function Ledger(calls: seq<CudaCall>, t: nat): seq<CudaCall> {
    if calls == [] then []
    else
      var last := calls[|calls| - 1];
      Ledger(calls[..|calls| - 1], t) + (if last.t == t then [last] else [])
  }

  ghost predicate AllFor(calls: seq<CudaCall>, t: nat) {
    forall k :: 0 <= k < |calls| ==> calls[k].t == t
  }

  lemma {:induction false} RegistersFor(t: nat, rs: seq<Range>)
    ensures AllFor(Registers(t, rs), t)
  {
    if rs != [] {
      RegistersFor(t, rs[..|rs| - 1]);
    }
  }

  lemma {:induction false} UnregistersFor(t: nat, rs: seq<Range>)
    ensures AllFor(Unregisters(t, rs), t)
  {
    if rs != [] {
      UnregistersFor(t, rs[..|rs| - 1]);
    }
  }

  lemma Grouping(a: seq<CudaCall>, b: seq<CudaCall>, x: CudaCall)
    ensures (a + b) + [x] == a + (b + [x])
  {
  }

  lemma Nothing(a: seq<CudaCall>)
    ensures a + [] == a && [] + a == a
  {
  }

  lemma LedgerSnoc(calls: seq<CudaCall>, x: CudaCall, j: nat)
    ensures Ledger(calls + [x], j) == Ledger(calls, j) + (if x.t == j then [x] else [])
  {
    assert (calls + [x])[..|calls|] == calls;
  }

  lemma {:induction false} LedgerAppend(calls: seq<CudaCall>, more: seq<CudaCall>, t: nat, j: nat)
    requires AllFor(more, t)
    ensures Ledger(calls + more, j) == Ledger(calls, j) + (if j == t then more else [])
  {
    if more == [] {
      assert calls + more == calls;
    } else {
      var front, last := more[..|more| - 1], more[|more| - 1];
      LedgerAppend(calls, front, t, j);
      LedgerSnoc(calls + front, last, j);
      Grouping(calls, front, last);
      Grouping(Ledger(calls, j), front, last);
      Nothing(Ledger(calls, j));
      assert more == front + [last];
    }
  }

  /** The records behind the ledger: the buffers of every request ever read, and the calls made. */
  datatype Pins = Pins(history: map<nat, Buffers>, cuda: seq<CudaCall>)

  /** The service of request `i` was not found. */
  predicate Unknown(c: Core, i: nat) {
    Lookup(i, false) in c.log
  }

  /** The calls `pins` if memory has been pinned, then the calls `unpins` if the request has been answered. */
  function Made(pins: seq<CudaCall>, unpins: seq<CudaCall>, pinned: bool, answered: bool): seq<CudaCall> {
    (if pinned then pins else []) + (if answered then unpins else [])
  }

  lemma MadeMore(pins: seq<CudaCall>, unpins: seq<CudaCall>, pinned: bool)
    ensures Made(pins, unpins, false, false) + pins == Made(pins, unpins, true, false)
    ensures Made(pins, unpins, pinned, false) + unpins == Made(pins, unpins, pinned, true)
    ensures Made(pins, unpins, false, false) == []
  {
  }

  /** What has been registered and unregistered for a request by the time the helper is in state `c`:
      registered when its memory was pinned, unregistered when it was answered. */
  ghost function Expected(e: Areas, c: Core, b: Buffers, i: nat): seq<CudaCall> {
    Made(Registers(i, Pinned(e, b)), Unregisters(i, Unpinned(e, b)), MemoryPinned(c, i), i !in c.items)
  }

  /** The memory of request `i` has been allocated. */
  predicate MemoryPinned(c: Core, i: nat) {
    !Unknown(c, i) && (i in c.items ==> !c.items[i].state.Init?)
  }

  lemma ExpectedSame(e: Areas, c: Core, d: Core, b: Buffers, i: nat)
    requires Unknown(d, i) <==> Unknown(c, i)
    requires (i in d.items <==> i in c.items) && (i in c.items ==> d.items[i] == c.items[i])
    ensures Expected(e, d, b, i) == Expected(e, c, b, i)
  {
  }

  ghost predicate Settled(e: Areas, c: Core, p: Pins) {
    && (forall i: nat :: i < c.nread ==> i in p.history && Ledger(p.cuda, i) == Expected(e, c, p.history[i], i))
    && (forall i: nat :: i in c.items && Unknown(c, i) ==> c.items[i].state.Done?)
    && (forall i: nat :: i >= c.nread ==> Ledger(p.cuda, i) == [] && !Unknown(c, i))
  }

  /** The CUDA calls one stage operation makes. */
  function CallsOf(phase: nat, e: Areas, i: nat, b: Buffers): seq<CudaCall>
    requires phase < 6
  {
    match StageOf(phase)
    case Init => Registers(i, Pinned(e, b))
    case Done => Unregisters(i, Unpinned(e, b))
    case _ => []
  }

  lemma StartSettled(e: Areas)
    ensures Settled(e, START, Pins(map[], []))
  {
  }

  /** No stage operation looks a service up. */
  lemma OpLookups(phase: nat, c: Core, i: nat, ch: Choice, j: nat)
    requires phase < 6 && i in c.items
    ensures Unknown(Op(phase, c, i, ch).c, j) <==> Unknown(c, j)
  {
  }

  /** A step that changes one request and makes the calls expected of it keeps the ledger settled. */
  lemma StepSettles(e: Areas, c: Core, d: Core, p: Pins, more: seq<CudaCall>, i: nat)
    requires Settled(e, c, p) && i < c.nread && d.nread == c.nread && AllFor(more, i)
    requires forall x: nat :: x != i ==> (x in d.items <==> x in c.items) && (x in c.items ==> d.items[x] == c.items[x])
    requires forall x: nat :: Unknown(d, x) <==> Unknown(c, x)
    requires i in d.items && Unknown(c, i) ==> d.items[i].state.Done?
    requires Expected(e, c, p.history[i], i) + more == Expected(e, d, p.history[i], i)
    ensures Settled(e, d, p.(cuda := p.cuda + more))
  {
    forall x: nat
      ensures Ledger(p.cuda + more, x) == Ledger(p.cuda, x) + (if x == i then more else [])
    {
      LedgerAppend(p.cuda, more, i, x);
    }
    forall x: nat | x < c.nread ensures Ledger(p.cuda + more, x) == Expected(e, d, p.history[x], x) {
      assert Ledger(p.cuda, x) == Expected(e, c, p.history[x], x);
      if x != i {
        Nothing(Ledger(p.cuda, x));
        ExpectedSame(e, c, d, p.history[x], x);
      }
    }
  }

  /** Every stage operation keeps the ledger settled. */
  lemma OpSettles(e: Areas, c: Core, p: Pins, phase: nat, i: nat, ch: Choice)
    requires Settled(e, c, p) && phase < 6 && i in c.items && c.items[i].state == StageOf(phase) && i < c.nread
    ensures Settled(e, Op(phase, c, i, ch).c, p.(cuda := p.cuda + CallsOf(phase, e, i, p.history[i])))
  {
    var more := CallsOf(phase, e, i, p.history[i]);
    OpMoves(phase, c, i, ch);
    RegistersFor(i, Pinned(e, p.history[i]));
    UnregistersFor(i, Unpinned(e, p.history[i]));
    forall x: nat ensures Unknown(Op(phase, c, i, ch).c, x) <==> Unknown(c, x) {
      OpLookups(phase, c, i, ch, x);
    }
    OpExpected(e, c, p.history[i], phase, i, ch);
    StepSettles(e, c, Op(phase, c, i, ch).c, p, more, i);
  }

  lemma OpExpected(e: Areas, c: Core, b: Buffers, phase: nat, i: nat, ch: Choice)
    requires phase < 6 && i in c.items && c.items[i].state == StageOf(phase)
    requires Unknown(c, i) ==> c.items[i].state.Done?
    ensures Expected(e, c, b, i) + CallsOf(phase, e, i, b) == Expected(e, Op(phase, c, i, ch).c, b, i)
  {
    OpLeavesInit(phase, c, i, ch);
    OpLookups(phase, c, i, ch, i);
    ExpectedStep(e, c, Op(phase, c, i, ch).c, b, phase, i);
  }

  lemma OpLeavesInit(phase: nat, c: Core, i: nat, ch: Choice)
    requires phase < 6 && i in c.items && c.items[i].state == StageOf(phase)
    ensures i in Op(phase, c, i, ch).c.items <==> phase != 0
    ensures phase != 0 ==> !Op(phase, c, i, ch).c.items[i].state.Init?
  {
  }

  lemma ExpectedStep(e: Areas, c: Core, d: Core, b: Buffers, phase: nat, i: nat)
    requires phase < 6 && i in c.items && c.items[i].state == StageOf(phase)
    requires Unknown(c, i) ==> c.items[i].state.Done?
    requires Unknown(d, i) <==> Unknown(c, i)
    requires i in d.items <==> phase != 0
    requires phase != 0 ==> !d.items[i].state.Init?
    ensures Expected(e, c, b, i) + CallsOf(phase, e, i, b) == Expected(e, d, b, i)
  {
    MadeMore(Registers(i, Pinned(e, b)), Unregisters(i, Unpinned(e, b)), MemoryPinned(c, i));
    if phase == 0 {
      assert MemoryPinned(d, i) == MemoryPinned(c, i);
    } else if phase == 5 {
      assert MemoryPinned(d, i) && !MemoryPinned(c, i);
    } else {
      assert MemoryPinned(d, i) == MemoryPinned(c, i);
      Nothing(Expected(e, c, b, i));
    }
  }

  /** So does the arrival of a request. */
  lemma ArrivalSettles(e: Areas, c: Core, p: Pins, id: int, found: bool, b: Buffers)
    requires Settled(e, c, p) && Shape(c)
    ensures Settled(e, InitServiceRequest(c, id, found), p.(history := p.history[c.nread := b]))
  {
    var d, p' := InitServiceRequest(c, id, found), p.(history := p.history[c.nread := b]);
    assert c.nread !in c.items;
    forall x: nat ensures Unknown(d, x) <==> Unknown(c, x) || (x == c.nread && !found) {
    }
    forall x: nat | x < d.nread
      ensures x in p'.history && Ledger(p.cuda, x) == Expected(e, d, p'.history[x], x)
    {
      if x == c.nread {
        MadeMore(Registers(x, Pinned(e, b)), Unregisters(x, Unpinned(e, b)), true);
      } else {
        ExpectedSame(e, c, d, p.history[x], x);
      }
    }
  }

  /** What the helper keeps of a request besides its record: its buffers, and their device addresses. */
  datatype Args = Args(bufs: Buffers, dev: Mapped)

  /** The live requests still have the buffers they arrived with. */
  ghost predicate SameBuffers(c: Core, p: Pins, args: map<nat, Args>) {
    forall i: nat :: i in c.items ==> i < c.nread && i in args && i in p.history && p.history[i] == args[i].bufs
  }

  /** The device addresses of the live requests are right from the allocation of their memory on, and zero
      before it and for a request without a service. */
  ghost predicate Addressed(e: Areas, c: Core, args: map<nat, Args>) {
    forall i: nat :: i in c.items ==>
      && i in args
      && (Unknown(c, i) || c.items[i].state.Init? ==> args[i].dev == UNMAPPED)
      && (!Unknown(c, i) && !c.items[i].state.Init? && AreasFit(e) ==> DeviceRight(e, args[i].bufs, args[i].dev))
  }

  /** What one stage operation does to the buffers and device addresses. */
  ghost predicate ArgsStep(phase: nat, e: Areas, i: nat, args: map<nat, Args>, args': map<nat, Args>) {
    if phase == 0 then args' == args - {i}
    else if phase == 5 then
      && i in args && i in args' && args' == args[i := args'[i]] && args'[i].bufs == args[i].bufs
      && (AreasFit(e) ==> DeviceRight(e, args[i].bufs, args'[i].dev))
    else args' == args
  }

  predicate Key(c: Core, p: Pins, u: int) {
    true
  }

  /** The ledger is settled and the device addresses are right; unfolded only where the key of `c` and `p` is
      mentioned. */
  ghost predicate Kept(e: Areas, c: Core, p: Pins, args: map<nat, Args>) {
    forall u {:trigger Key(c, p, u)} :: Key(c, p, u) ==>
      Settled(e, c, p) && SameBuffers(c, p, args) && Addressed(e, c, args)
  }

  lemma KeptIsSettled(e: Areas, c: Core, p: Pins, args: map<nat, Args>)
    requires Kept(e, c, p, args)
    ensures Settled(e, c, p) && SameBuffers(c, p, args) && Addressed(e, c, args)
  {
    assert Key(c, p, 0);
  }

  lemma Keep(e: Areas, c: Core, p: Pins, args: map<nat, Args>)
    requires Settled(e, c, p) && SameBuffers(c, p, args) && Addressed(e, c, args)
    ensures Kept(e, c, p, args)
  {
  }

  lemma OpSameBuffers(c: Core, p: Pins, args: map<nat, Args>, phase: nat, e: Areas, i: nat, ch: Choice,
                      args': map<nat, Args>)
    requires SameBuffers(c, p, args) && phase < 6 && i in c.items && c.items[i].state == StageOf(phase)
    requires ArgsStep(phase, e, i, args, args')
    ensures forall cuda :: SameBuffers(Op(phase, c, i, ch).c, p.(cuda := cuda), args')
  {
    OpMoves(phase, c, i, ch);
  }

  lemma ArrivalSameBuffers(c: Core, p: Pins, args: map<nat, Args>, id: int, found: bool, b: Buffers)
    requires SameBuffers(c, p, args)
    ensures SameBuffers(InitServiceRequest(c, id, found), p.(history := p.history[c.nread := b]),
                        args[c.nread := Args(b, UNMAPPED)])
  {
  }

  /** Every stage operation keeps the device addresses right. */
  lemma OpAddresses(e: Areas, c: Core, p: Pins, args: map<nat, Args>, phase: nat, i: nat, ch: Choice,
                    args': map<nat, Args>)
    requires Settled(e, c, p) && Addressed(e, c, args) && ArgsStep(phase, e, i, args, args')
    requires phase < 6 && i in c.items && c.items[i].state == StageOf(phase)
    ensures Addressed(e, Op(phase, c, i, ch).c, args')
  {
    OpMoves(phase, c, i, ch);
    OpLeavesInit(phase, c, i, ch);
    forall x: nat ensures Unknown(Op(phase, c, i, ch).c, x) <==> Unknown(c, x) {
      OpLookups(phase, c, i, ch, x);
    }
  }

  lemma OpKeeps(e: Areas, c: Core, p: Pins, args: map<nat, Args>, phase: nat, i: nat, ch: Choice, args': map<nat, Args>)
    requires Kept(e, c, p, args) && phase < 6 && i in c.items && c.items[i].state == StageOf(phase) && i in args
    requires ArgsStep(phase, e, i, args, args')
    ensures Kept(e, Op(phase, c, i, ch).c, p.(cuda := p.cuda + CallsOf(phase, e, i, args[i].bufs)), args')
  {
    KeptIsSettled(e, c, p, args);
    OpSettles(e, c, p, phase, i, ch);
    OpSameBuffers(c, p, args, phase, e, i, ch, args');
    OpAddresses(e, c, p, args, phase, i, ch, args');
    Keep(e, Op(phase, c, i, ch).c, p.(cuda := p.cuda + CallsOf(phase, e, i, args[i].bufs)), args');
  }

  /** A new request has its buffers and no device address. */
  lemma ArrivalAddressed(e: Areas, c: Core, args: map<nat, Args>, id: int, found: bool, b: Buffers)
    requires Addressed(e, c, args) && Shape(c)
    ensures Addressed(e, InitServiceRequest(c, id, found), args[c.nread := Args(b, UNMAPPED)])
  {
    var d := InitServiceRequest(c, id, found);
    assert c.nread !in c.items;
    forall x: nat ensures Unknown(d, x) <==> Unknown(c, x) || (x == c.nread && !found) {
    }
  }

  lemma ArrivalKeeps(e: Areas, c: Core, p: Pins, args: map<nat, Args>, id: int, found: bool, b: Buffers)
    requires Kept(e, c, p, args) && Shape(c)
    ensures Kept(e, InitServiceRequest(c, id, found), p.(history := p.history[c.nread := b]),
                 args[c.nread := Args(b, UNMAPPED)])
  {
    KeptIsSettled(e, c, p, args);
    ArrivalSettles(e, c, p, id, found, b);
    ArrivalSameBuffers(c, p, args, id, found, b);
    ArrivalAddressed(e, c, args, id, found, b);
    Keep(e, InitServiceRequest(c, id, found), p.(history := p.history[c.nread := b]),
         args[c.nread := Args(b, UNMAPPED)]);
  }

  /** Pin balance over a whole run: for an answered request whose service was found and whose buffers lie
      in the host areas, the calls made are one registration of each of its ranges followed by one
      unregistration of each of the same ranges, and nothing else. */
  lemma AnsweredIsBalanced(e: Areas, c: Core, p: Pins, i: nat)
    requires Settled(e, c, p) && i < c.nread && i !in c.items && !Unknown(c, i)
    requires HostAreasDisjoint(e) && InHostAreas(e, p.history[i])
    ensures Ledger(p.cuda, i)
         == Registers(i, Pinned(e, p.history[i])) + Unregisters(i, Pinned(e, p.history[i]))
  {
    SameInputs(e, p.history[i]);
  }

  /** A request whose service was not found is never registered, so answering it unregisters nothing
      exactly when none of its buffers lies in the vma. */
  lemma UnknownIsBalanced(e: Areas, c: Core, p: Pins, i: nat)
    requires Settled(e, c, p) && i < c.nread && i !in c.items && Unknown(c, i)
    ensures Ledger(p.cuda, i) == [] <==>
      (var b := p.history[i];
       !e.hostvma.Has(b.hin) && !e.hostvma.Has(b.hout) && !e.hostvma.Has(b.hdata))
  {
    UnpinWithoutPin(e, p.history[i]);
  }
}
