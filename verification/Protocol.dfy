/** The kernel module and the helper together, as an interleaving step system.

    Clients call `kgpu_call_async` and `kgpu_call_sync` at any moment; the helper runs its main loop and
    enters the kernel through `kgpu_read` and `kgpu_write`, each split where it gives up a lock.  An accepted
    call is named by its ticket: the number of calls accepted before it, which is also its place in the
    order of `list_add_tail` on `reqs`. */
module Protocol {
  import opened Options
  import opened Seqs
  import opened HelperModel
  import opened HelperInvariants

  /** The address of a `kgpu_request`. */
  type Ptr = nat

  datatype KData = UserData(n: int) | SyncData(t: nat)

  datatype Callback = UserCallback(n: int) | SyncCallback

  datatype KReq = KReq(id: int, kdata: KData, callback: Callback, errcode: int)

  /** An accepted call: the request and what its fields held when the call was made. */
  datatype Call = Call(req: Ptr, id: int, sync: bool, kdata: KData, callback: Callback)

  /** `_kgpu_sync_call_data`. */
  datatype SyncCall = SyncCall(oldkdata: KData, oldcallback: Callback, done: bool)

  /** Where the helper is inside `kgpu_write`. */
  datatype Writing = Idle | Found(t: nat, code: int) | Delivered(t: nat)

  /** A request on its way through `kgpu_read`, already off `reqs`, with the id copied to the helper. */
  datatype Transit = Transit(t: nat, id: int)

  datatype Kernel = Kernel(
    mem: map<Ptr, KReq>,
    calls: seq<Call>,
    reqs: seq<nat>,
    transit: Option<Transit>,
    rtd: seq<nat>,
    writing: Writing,
    syncs: map<nat, SyncCall>,
    completed: map<nat, int>,
    ran: seq<nat>)

  datatype Sys = Sys(k: Kernel, l: Loop, aborted: bool)

  const FIRST: Sys := Sys(Kernel(map[], [], [], None, [], Idle, map[], map[], []), BOOT, false)

  datatype Action =
    | ClientWrite(p: Ptr, r: KReq)
    | CallAsync(p: Ptr)
    | CallSync(p: Ptr)
    | SyncReturn(t: nat)
    | ReadTake
    | ReadReturn(found: bool)
    | PollNothing
    | HelperVisit(ch: Choice)
    | HelperAdvance
    | WriteFind
    | WriteDeliver
    | WriteReturn

  /** A call is in progress until its callback has run and, for a sync call, until it has returned. */
  predicate Engaged(k: Kernel, t: nat) {
    t < |k.calls| && (t !in k.completed || t in k.syncs)
  }

  ghost predicate Busy(k: Kernel, p: Ptr) {
    exists t: nat :: Engaged(k, t) && k.calls[t].req == p
  }

  /** What a client owes: the request is its own, not in use, and its id is not outstanding. */
  ghost predicate MayCall(k: Kernel, p: Ptr) {
    && p in k.mem && !Busy(k, p)
    && forall t: nat :: t < |k.calls| && t !in k.completed ==> k.calls[t].id != k.mem[p].id
  }

  /** `find_request`: the first entry of `rtdreqs` whose request carries the id. */
  function FindRequest(k: Kernel, rtd: seq<nat>, id: int): Option<nat>
    requires Readable(k, rtd)
  {
    if rtd == [] then None
    else if k.mem[k.calls[rtd[0]].req].id == id then Some(rtd[0])
    else FindRequest(k, rtd[1..], id)
  }

  ghost predicate Readable(k: Kernel, rtd: seq<nat>) {
    forall j :: 0 <= j < |rtd| ==> rtd[j] < |k.calls| && k.calls[rtd[j]].req in k.mem
  }

  ghost predicate Enabled(s: Sys, a: Action) {
    match a
    case ClientWrite(p, r) => !Busy(s.k, p) && r.kdata.UserData? && r.callback.UserCallback?
    case CallAsync(p) => MayCall(s.k, p)
    case CallSync(p) => MayCall(s.k, p)
    case SyncReturn(t) => t in s.k.syncs && s.k.syncs[t].done && t < |s.k.calls| && s.k.calls[t].req in s.k.mem
    case ReadTake => !s.aborted && s.l.phase == 6 && s.k.transit.None? && s.k.reqs != []
        && s.k.reqs[0] < |s.k.calls| && s.k.calls[s.k.reqs[0]].req in s.k.mem
    case ReadReturn(_) => !s.aborted && s.l.phase == 6 && s.k.transit.Some?
    case PollNothing => !s.aborted && s.l.phase == 6 && s.k.transit.None?
    case HelperVisit(_) => !s.aborted && 1 <= s.l.phase < 6 && s.l.todo != [] && s.l.todo[0] in s.l.c.items
    case HelperAdvance => !s.aborted && s.l.phase < 6 && s.l.todo == []
    case WriteFind => !s.aborted && s.l.phase == 0 && s.l.todo != [] && s.l.todo[0] in s.l.c.items
        && s.k.writing.Idle? && Readable(s.k, s.k.rtd)
    case WriteDeliver => !s.aborted && s.k.writing.Found? && s.k.writing.t < |s.k.calls|
        && s.k.calls[s.k.writing.t].req in s.k.mem
    case WriteReturn => (
        && !s.aborted && s.k.writing.Delivered?
        && s.l.phase == 0 && s.l.todo != [] && s.l.todo[0] in s.l.c.items)
  }

  /** `kgpu_call_async` once past its checks: the item goes to the tail of `reqs`. */
  function Enqueue(k: Kernel, p: Ptr, sync: bool): Kernel
    requires p in k.mem
  {
    var r := k.mem[p];
    k.(calls := k.calls + [Call(p, r.id, sync, r.kdata, r.callback)], reqs := k.reqs + [|k.calls|])
  }

  /** `kgpu_call_sync` up to its wait: the request's own data and callback are put aside. */
  function EnqueueSync(k: Kernel, p: Ptr): Kernel
    requires p in k.mem
  {
    var r, t := k.mem[p], |k.calls|;
    Enqueue(k, p, true).(
      mem := k.mem[p := r.(kdata := SyncData(t), callback := SyncCallback)],
      syncs := k.syncs[t := SyncCall(r.kdata, r.callback, false)])
  }

  /** `kgpu_call_sync` after its wait ended by completion: they are put back. */
  function ReturnSync(k: Kernel, t: nat): Kernel
    requires t in k.syncs && t < |k.calls| && k.calls[t].req in k.mem
  {
    var p := k.calls[t].req;
    k.(mem := k.mem[p := k.mem[p].(kdata := k.syncs[t].oldkdata, callback := k.syncs[t].oldcallback)],
       syncs := k.syncs - {t})
  }

  /** `item->r->callback(item->r)`: `sync_callback` marks the call whose data hangs off the request. */
  function RunCallback(k: Kernel, p: Ptr): map<nat, SyncCall>
    requires p in k.mem
  {
    match k.mem[p].callback
    case UserCallback(_) => k.syncs
    case SyncCallback =>
      match k.mem[p].kdata
      case UserData(_) => k.syncs
      case SyncData(d) => if d in k.syncs then k.syncs[d := k.syncs[d].(done := true)] else k.syncs
  }

  function Deliver(k: Kernel, t: nat, code: int): Kernel
    requires t < |k.calls| && k.calls[t].req in k.mem
  {
    var p := k.calls[t].req;
    k.(mem := k.mem[p := k.mem[p].(errcode := code)],
       syncs := RunCallback(k, p),
       completed := k.completed[t := code],
       ran := k.ran + [t],
       writing := Delivered(t))
  }

  ghost function Step(s: Sys, a: Action): Sys
    requires Enabled(s, a)
  {
    var k, l := s.k, s.l;
    match a
    case ClientWrite(p, r) => s.(k := k.(mem := k.mem[p := r]))
    case CallAsync(p) => s.(k := Enqueue(k, p, false))
    case CallSync(p) => s.(k := EnqueueSync(k, p))
    case SyncReturn(t) => s.(k := ReturnSync(k, t))
    case ReadTake =>
      var t := k.reqs[0];
      s.(k := k.(reqs := k.reqs[1..], transit := Some(Transit(t, k.mem[k.calls[t].req].id))))
    case ReadReturn(found) =>
      s.(k := k.(rtd := k.rtd + [k.transit.value.t], transit := None),
         l := Poll(l, Some(Arrival(k.transit.value.id, found))))
    case PollNothing => s.(l := Poll(l, None))
    case HelperVisit(ch) => s.(l := Visit(l, ch))
    case HelperAdvance => s.(l := Advance(l))
    case WriteFind =>
      var sr := l.c.items[l.todo[0]];
      (match FindRequest(k, k.rtd, sr.id)
       case None => s.(aborted := true)
       case Some(t) => s.(k := k.(rtd := Remove(k.rtd, t), writing := Found(t, sr.errcode))))
    case WriteDeliver => s.(k := Deliver(k, k.writing.t, k.writing.code))
    case WriteReturn => s.(k := k.(writing := Idle), l := Visit(l, Choice(true, 0)))
  }

  ghost predicate Next(s: Sys, a: Action, s': Sys) {
    Enabled(s, a) && s' == Step(s, a)
  }

  /** Every run: the states from the first, each one enabled action after the one before. */
  ghost predicate Behaviour(ss: seq<Sys>, acts: seq<Action>) {
    && |ss| == |acts| + 1 && ss[0] == FIRST
    && forall j :: 0 <= j < |acts| ==> Next(ss[j], acts[j], ss[j + 1])
  }

  // ----- invariants -----

  /** Tickets leave `reqs` in order: what is left is the newest, and the helper has read all the others
      but the one in transit. */
  ghost predicate Queued(s: Sys) {
    && s.l.c.nread + (if s.k.transit.Some? then 1 else 0) + |s.k.reqs| == |s.k.calls|
    && (forall j :: 0 <= j < |s.k.reqs| ==> s.k.reqs[j] == |s.k.calls| - |s.k.reqs| + j)
    && (s.k.transit.Some? ==>
          && s.l.phase == 6 && s.k.transit.value.t == s.l.c.nread
          && s.k.transit.value.id == s.k.calls[s.l.c.nread].id)
  }

  /** The request being answered is the one the helper is visiting. */
  ghost predicate Answering(s: Sys, t: nat) {
    s.k.rtd == Remove(s.l.c.all, t) && s.l.phase == 0 && s.l.todo != [] && s.l.todo[0] == t && t in s.l.c.items
  }

  ghost predicate WriteMatched(s: Sys) {
    match s.k.writing
    case Idle => s.k.rtd == s.l.c.all
    case Found(t, code) => Answering(s, t) && code == s.l.c.items[t].errcode && t !in s.k.completed
    case Delivered(t) => Answering(s, t) && t in s.k.completed && s.k.completed[t] == s.l.c.items[t].errcode
  }

  /** `rtdreqs` is the helper's `all_reqs`, less the request being answered; the helper's ids are the
      callers' ids; and what has completed is what was read and is no longer live. */
  ghost predicate Matched(s: Sys) {
    && WriteMatched(s)
    && (forall t: nat :: t in s.l.c.items ==> t < |s.k.calls| && s.l.c.items[t].id == s.k.calls[t].id)
    && (forall t: nat :: t in s.k.completed <==>
          (t < s.l.c.nread && t !in s.l.c.items) || s.k.writing == Delivered(t))
  }

  /** Requests in progress are distinct objects, and outstanding ids are distinct. */
  ghost predicate Distinct(k: Kernel) {
    && (forall t: nat :: Engaged(k, t) ==> k.calls[t].req in k.mem)
    && (forall t: nat, u: nat :: Engaged(k, t) && Engaged(k, u) && t != u ==> k.calls[t].req != k.calls[u].req)
    && (forall t: nat :: t < |k.calls| && t !in k.completed ==> k.mem[k.calls[t].req].id == k.calls[t].id)
    && (forall t: nat, u: nat :: t < u < |k.calls| && t !in k.completed && u !in k.completed ==>
          k.calls[t].id != k.calls[u].id)
  }

  /** What the request of a call in progress holds. */
  ghost predicate Hooked(k: Kernel, t: nat)
    requires t < |k.calls| && k.calls[t].req in k.mem
  {
    if k.calls[t].sync then HookedSync(k, t, k.calls[t], k.mem[k.calls[t].req])
    else
      && k.mem[k.calls[t].req].callback == k.calls[t].callback
      && k.mem[k.calls[t].req].kdata == k.calls[t].kdata && t !in k.syncs
  }

  predicate HookedSync(k: Kernel, t: nat, c: Call, r: KReq) {
    && r.id == c.id && r.kdata == SyncData(t) && r.callback == SyncCallback
    && t in k.syncs && k.syncs[t].oldkdata == c.kdata && k.syncs[t].oldcallback == c.callback
    && (k.syncs[t].done <==> t in k.completed)
    && (t in k.completed ==> r.errcode == k.completed[t])
  }

  ghost predicate SyncsHooked(k: Kernel) {
    && (forall t: nat :: Engaged(k, t) ==> k.calls[t].req in k.mem && Hooked(k, t))
    && (forall t: nat :: t < |k.calls| ==> k.calls[t].callback.UserCallback? && k.calls[t].kdata.UserData?)
    && (forall t: nat :: t in k.syncs ==> t < |k.calls|)
    && (forall p :: p in k.mem && !Busy(k, p) ==> k.mem[p].callback.UserCallback? && k.mem[p].kdata.UserData?)
  }

  /** Each callback ran once, with the code of the helper's answer. */
  ghost predicate RanOnce(s: Sys) {
    && NoDup(s.k.ran)
    && (forall t: nat :: t in s.k.ran <==> t in s.k.completed)
    && (forall t: nat :: t in s.k.completed && s.k.writing != Delivered(t) ==> Answered(s, t))
  }

  ghost predicate Answered(s: Sys, t: nat)
    requires t in s.k.completed
  {
    t < |s.k.calls| && Respond(t, s.k.calls[t].id, s.k.completed[t]) in s.l.c.log
  }

  ghost predicate SysInv(s: Sys) {
    && Inv(s.l) && !s.aborted
    && Queued(s) && Matched(s) && Distinct(s.k) && SyncsHooked(s.k) && RanOnce(s)
  }

  // ----- clients -----

  ghost predicate InRange(k: Kernel) {
    && (forall t: nat :: t in k.completed ==> t < |k.calls|)
    && (forall t: nat :: t in k.syncs ==> t < |k.calls|)
  }

  lemma InvInRange(s: Sys)
    requires SysInv(s)
    ensures InRange(s.k) && s.l.c.nread <= |s.k.calls|
    ensures forall t: nat :: t in s.k.completed ==> t < s.l.c.nread
    ensures forall t: nat :: t in s.l.c.items ==> t < s.l.c.nread
  {
    Open(s.l);
  }

  function Called(k: Kernel, p: Ptr, sync: bool): Kernel
    requires p in k.mem
  {
    if sync then EnqueueSync(k, p) else Enqueue(k, p, false)
  }

  lemma EngagedAfterCall(k: Kernel, p: Ptr, sync: bool, t: nat)
    requires p in k.mem && InRange(k)
    ensures Engaged(Called(k, p, sync), t) <==> Engaged(k, t) || t == |k.calls|
    ensures t < |k.calls| ==> Called(k, p, sync).calls[t] == k.calls[t]
  {
  }

  lemma BusyAfterCall(k: Kernel, p: Ptr, sync: bool, q: Ptr)
    requires p in k.mem && InRange(k)
    ensures Busy(Called(k, p, sync), q) <==> Busy(k, q) || q == p
  {
    var k' := Called(k, p, sync);
    EngagedAfterCall(k, p, sync, |k.calls|);
    assert k'.calls[|k.calls|].req == p;
    if Busy(k, q) {
      var t: nat :| Engaged(k, t) && k.calls[t].req == q;
      EngagedAfterCall(k, p, sync, t);
      assert Engaged(k', t) && k'.calls[t].req == q;
    }
    if Busy(k', q) {
      var t: nat :| Engaged(k', t) && k'.calls[t].req == q;
      EngagedAfterCall(k, p, sync, t);
    }
  }

  /** Other calls in progress do not use the request of a new call. */
  lemma NotBusy(k: Kernel, p: Ptr, t: nat)
    requires !Busy(k, p) && Engaged(k, t)
    ensures k.calls[t].req != p
  {
  }

  lemma BusyKept(k: Kernel, k': Kernel, q: Ptr)
    requires forall u: nat :: Engaged(k, u) && k.calls[u].req == q ==> Engaged(k', u) && k'.calls[u] == k.calls[u]
    ensures Busy(k, q) ==> Busy(k', q)
  {
    if Busy(k, q) {
      var u: nat :| Engaged(k, u) && k.calls[u].req == q;
      assert Engaged(k', u) && k'.calls[u].req == q;
    }
  }

  lemma CallDistinct(k: Kernel, p: Ptr, sync: bool)
    requires InRange(k) && Distinct(k) && MayCall(k, p)
    ensures Distinct(Called(k, p, sync))
  {
    var k' := Called(k, p, sync);
    forall t: nat | Engaged(k', t) && t != |k.calls|
      ensures Engaged(k, t) && k'.calls[t] == k.calls[t] && k.calls[t].req != p
      ensures k'.calls[t].req in k'.mem && k'.mem[k.calls[t].req] == k.mem[k.calls[t].req]
    {
      EngagedAfterCall(k, p, sync, t);
      NotBusy(k, p, t);
    }
  }

  lemma CallHooked(k: Kernel, p: Ptr, sync: bool)
    requires InRange(k) && SyncsHooked(k) && MayCall(k, p)
    ensures SyncsHooked(Called(k, p, sync))
  {
    var k' := Called(k, p, sync);
    forall t: nat | Engaged(k', t) ensures k'.calls[t].req in k'.mem && Hooked(k', t) {
      EngagedAfterCall(k, p, sync, t);
      if t != |k.calls| {
        NotBusy(k, p, t);
      }
    }
    forall q | q in k'.mem && !Busy(k', q) ensures k'.mem[q].callback.UserCallback? && k'.mem[q].kdata.UserData? {
      BusyAfterCall(k, p, sync, q);
    }
  }

  lemma CallKeeps(s: Sys, p: Ptr, sync: bool)
    requires SysInv(s) && MayCall(s.k, p)
    ensures SysInv(s.(k := Called(s.k, p, sync)))
  {
    InvInRange(s);
    CallDistinct(s.k, p, sync);
    CallHooked(s.k, p, sync);
    CallMatched(s, p, sync);
  }

  lemma CallMatched(s: Sys, p: Ptr, sync: bool)
    requires InRange(s.k) && Queued(s) && Matched(s) && RanOnce(s) && p in s.k.mem
    ensures var s' := s.(k := Called(s.k, p, sync)); Queued(s') && Matched(s') && RanOnce(s')
  {
    var s' := s.(k := Called(s.k, p, sync));
    forall t: nat | t in s.k.completed && s.k.writing != Delivered(t) ensures Answered(s', t) {
      assert Answered(s, t) && s'.k.calls[t] == s.k.calls[t];
    }
  }

  lemma ClientWriteHooked(k: Kernel, p: Ptr, r: KReq)
    requires Distinct(k) && SyncsHooked(k) && !Busy(k, p) && r.kdata.UserData? && r.callback.UserCallback?
    ensures Distinct(k.(mem := k.mem[p := r])) && SyncsHooked(k.(mem := k.mem[p := r]))
  {
    var k' := k.(mem := k.mem[p := r]);
    forall t: nat | Engaged(k', t)
      ensures k.calls[t].req != p && k'.calls[t].req in k'.mem && Hooked(k', t)
    {
      assert Engaged(k, t) && Hooked(k, t);
      NotBusy(k, p, t);
    }
    forall t: nat | t < |k.calls| && t !in k.completed ensures Engaged(k', t) {
    }
    forall q | q in k'.mem && !Busy(k', q) ensures k'.mem[q].callback.UserCallback? && k'.mem[q].kdata.UserData? {
      BusyKept(k, k', q);
    }
  }

  lemma ClientWriteKeeps(s: Sys, p: Ptr, r: KReq)
    requires SysInv(s) && !Busy(s.k, p) && r.kdata.UserData? && r.callback.UserCallback?
    ensures SysInv(s.(k := s.k.(mem := s.k.mem[p := r])))
  {
    ClientWriteHooked(s.k, p, r);
    MemoryApart(s, s.k.mem[p := r]);
  }

  /** The queues, the answers and the callbacks do not depend on what requests hold. */
  lemma MemoryApart(s: Sys, mem: map<Ptr, KReq>)
    requires Queued(s) && Matched(s) && RanOnce(s)
    ensures var s' := s.(k := s.k.(mem := mem)); Queued(s') && Matched(s') && RanOnce(s')
  {
    var s' := s.(k := s.k.(mem := mem));
    forall t: nat | t in s.k.completed && s.k.writing != Delivered(t) ensures Answered(s', t) {
      assert Answered(s, t);
    }
  }

  lemma ReturnHooked(k: Kernel, t: nat)
    requires InRange(k) && Distinct(k) && SyncsHooked(k) && t in k.syncs && k.syncs[t].done
    ensures t in k.completed && t < |k.calls| && k.calls[t].req in k.mem
    ensures Distinct(ReturnSync(k, t)) && SyncsHooked(ReturnSync(k, t))
  {
    assert Engaged(k, t) && Hooked(k, t);
    var k' := ReturnSync(k, t);
    var p := k.calls[t].req;
    forall u: nat ensures Engaged(k', u) <==> Engaged(k, u) && u != t {
    }
    forall u: nat | Engaged(k', u)
      ensures k'.calls[u].req in k'.mem && k.calls[u].req != p && Hooked(k', u)
    {
      assert Hooked(k, u);
    }
    forall q | q in k'.mem && !Busy(k', q) ensures k'.mem[q].callback.UserCallback? && k'.mem[q].kdata.UserData? {
      if q != p {
        BusyKept(k, k', q);
      }
    }
  }

  lemma SyncReturnKeeps(s: Sys, t: nat)
    requires SysInv(s) && t in s.k.syncs && s.k.syncs[t].done
    ensures t < |s.k.calls| && s.k.calls[t].req in s.k.mem
    ensures SysInv(s.(k := ReturnSync(s.k, t)))
  {
    InvInRange(s);
    ReturnHooked(s.k, t);
    var s' := s.(k := ReturnSync(s.k, t));
    forall u: nat | u in s.k.completed && s.k.writing != Delivered(u) ensures Answered(s', u) {
      assert Answered(s, u);
    }
  }

  // ----- the helper's own steps -----

  /** The kernel cannot tell these two states of the helper apart. */
  ghost predicate SameFace(l: Loop, l': Loop) {
    && l'.c.all == l.c.all && l'.c.nread == l.c.nread && l'.c.items.Keys == l.c.items.Keys
    && (forall t: nat :: t in l.c.items ==> l'.c.items[t].id == l.c.items[t].id)
    && (forall e :: e in l.c.log ==> e in l'.c.log)
  }

  lemma HelperKeeps(s: Sys, l': Loop)
    requires SysInv(s) && Inv(l') && SameFace(s.l, l') && s.k.writing.Idle? && s.k.transit.None?
    ensures SysInv(s.(l := l'))
  {
    var s' := s.(l := l');
    forall t: nat | t in s.k.completed && s.k.writing != Delivered(t) ensures Answered(s', t) {
      assert Answered(s, t);
    }
  }

  lemma VisitFace(l: Loop, ch: Choice)
    requires Inv(l) && l.phase != 0 && l.todo != []
    ensures SameFace(l, Visit(l, ch))
  {
    OpFace(l.phase, l.c, l.todo[0], ch);
  }

  lemma OpFace(phase: nat, c: Core, i: nat, ch: Choice)
    requires 0 < phase < 6 && i in c.items
    ensures var d := Op(phase, c, i, ch).c;
      && d.all == c.all && d.nread == c.nread && d.items.Keys == c.items.Keys
      && (forall t: nat :: t in c.items ==> d.items[t].id == c.items[t].id)
      && (d.log == c.log || exists e :: d.log == c.log + [e])
  {
    FirstFreeSound(c.streams, 0);
    var d := Op(phase, c, i, ch).c;
    assert i in d.items && d.items == c.items[i := d.items[i]];
  }

  // ----- kgpu_read -----

  lemma ReadTakeKeeps(s: Sys)
    requires SysInv(s) && Enabled(s, ReadTake)
    ensures SysInv(Step(s, ReadTake))
  {
    InvInRange(s);
    var t := s.k.reqs[0];
    assert t == s.l.c.nread;
    var s' := Step(s, ReadTake);
    assert t !in s.k.completed;
    forall u: nat ensures Engaged(s'.k, u) <==> Engaged(s.k, u) {
    }
    SameCalls(s, s');
  }

  /** Distinctness and hooks do not depend on the queues. */
  lemma SameCalls(s: Sys, s': Sys)
    requires Distinct(s.k) && SyncsHooked(s.k) && RanOnce(s)
    requires s'.k.mem == s.k.mem && s'.k.calls == s.k.calls && s'.k.syncs == s.k.syncs
    requires s'.k.completed == s.k.completed && s'.k.ran == s.k.ran
    requires forall t: nat :: t in s.k.completed && s'.k.writing != Delivered(t) ==>
      s.k.writing != Delivered(t) || Answered(s', t)
    requires forall e :: e in s.l.c.log ==> e in s'.l.c.log
    ensures Distinct(s'.k) && SyncsHooked(s'.k) && RanOnce(s')
  {
    forall u: nat ensures Engaged(s'.k, u) <==> Engaged(s.k, u) {
    }
    forall q ensures Busy(s'.k, q) <==> Busy(s.k, q) {
      BusyKept(s.k, s'.k, q);
      BusyKept(s'.k, s.k, q);
    }
    forall t: nat | Engaged(s'.k, t) ensures Hooked(s'.k, t) {
      assert Hooked(s.k, t);
    }
    forall t: nat | t in s'.k.completed && s'.k.writing != Delivered(t) ensures Answered(s', t) {
      if s.k.writing != Delivered(t) {
        assert Answered(s, t);
      }
    }
  }

  lemma ReadReturnKeeps(s: Sys, found: bool)
    requires SysInv(s) && Enabled(s, ReadReturn(found))
    ensures SysInv(Step(s, ReadReturn(found)))
  {
    var a := Arrival(s.k.transit.value.id, found);
    PollKeepsInv(s.l, Some(a));
    PollFace(s.l, a);
    ArrivedKeeps(s, Step(s, ReadReturn(found)), a);
  }

  /** What `kgpu_read` hands over, seen from the queues. */
  lemma ArrivedKeeps(s: Sys, s': Sys, a: Arrival)
    requires SysInv(s) && s.k.transit.Some? && a.id == s.k.transit.value.id && s.l.phase == 6
    requires s'.k == s.k.(rtd := s.k.rtd + [s.k.transit.value.t], transit := None) && s'.aborted == s.aborted
    requires Inv(s'.l) && s'.l.phase == 0 && Joins(s.l.c, s'.l.c, a.id)
    ensures SysInv(s')
  {
    InvInRange(s);
    assert s.k.writing.Idle?;
    SameCalls(s, s');
  }

  /** `d` is `c` with one more request, read last. */
  ghost predicate Joins(c: Core, d: Core, id: int) {
    && d.all == c.all + [c.nread] && d.nread == c.nread + 1 && c.nread !in c.items
    && (forall t: nat :: t in d.items <==> t in c.items || t == c.nread)
    && c.nread in d.items && d.items[c.nread].id == id
    && (forall t: nat :: t in c.items ==> d.items[t] == c.items[t])
    && (forall e :: e in c.log ==> e in d.log)
  }

  lemma PollFace(l: Loop, a: Arrival)
    requires Inv(l) && l.phase == 6
    ensures Joins(l.c, Poll(l, Some(a)).c, a.id)
  {
    Open(l);
  }

  // ----- kgpu_write -----

  /** With distinct outstanding ids the search by id finds exactly the ticket it is meant for. */
  lemma {:induction false} FindsTicket(k: Kernel, rtd: seq<nat>, t: nat)
    requires Readable(k, rtd) && t in rtd
    requires forall u :: u in rtd ==> k.mem[k.calls[u].req].id == k.mem[k.calls[t].req].id ==> u == t
    ensures FindRequest(k, rtd, k.mem[k.calls[t].req].id) == Some(t)
  {
    assert rtd[0] in rtd;
    if rtd[0] != t {
      FindsTicket(k, rtd[1..], t);
    }
  }

  lemma DistinctIds(k: Kernel, t: nat, u: nat)
    requires Distinct(k) && t < |k.calls| && u < |k.calls| && t !in k.completed && u !in k.completed
    ensures k.calls[t].id == k.calls[u].id ==> t == u
  {
    assert t < u || u < t || t == u;
  }

  /** Every answer of the helper finds the request it answers. */
  lemma ResponseFindsItsRequest(s: Sys)
    requires SysInv(s) && s.l.phase == 0 && s.l.todo != [] && s.k.writing.Idle?
    ensures Readable(s.k, s.k.rtd)
    ensures FindRequest(s.k, s.k.rtd, s.l.c.items[s.l.todo[0]].id) == Some(s.l.todo[0])
  {
    var k, t := s.k, s.l.todo[0];
    forall j | 0 <= j < |k.rtd| ensures k.rtd[j] < |k.calls| && k.calls[k.rtd[j]].req in k.mem {
      RtdEntry(s, k.rtd[j]);
    }
    assert t in k.rtd by {
      Open(s.l);
    }
    RtdEntry(s, t);
    forall u | u in k.rtd ensures k.mem[k.calls[u].req].id == k.mem[k.calls[t].req].id ==> u == t {
      RtdEntry(s, u);
      DistinctIds(k, u, t);
    }
    FindsTicket(k, k.rtd, t);
  }

  /** An entry of `rtdreqs` is outstanding, and its request still carries its id. */
  lemma RtdEntry(s: Sys, u: nat)
    requires SysInv(s) && s.k.writing.Idle? && u in s.k.rtd
    ensures u in s.l.c.items && u < |s.k.calls| && u !in s.k.completed
    ensures s.k.calls[u].req in s.k.mem && s.k.mem[s.k.calls[u].req].id == s.k.calls[u].id
  {
    assert u in s.l.c.items by {
      Open(s.l);
    }
    assert Engaged(s.k, u);
  }

  lemma WriteFindKeeps(s: Sys)
    requires SysInv(s) && Enabled(s, WriteFind)
    ensures SysInv(Step(s, WriteFind))
  {
    ResponseFindsItsRequest(s);
    var s' := Step(s, WriteFind);
    SameCalls(s, s');
  }

  lemma DeliverHooked(k: Kernel, t: nat, code: int)
    requires InRange(k) && Distinct(k) && SyncsHooked(k) && t < |k.calls| && t !in k.completed
    ensures k.calls[t].req in k.mem
    ensures Distinct(Deliver(k, t, code)) && SyncsHooked(Deliver(k, t, code))
  {
    assert Engaged(k, t) && Hooked(k, t);
    var k' := Deliver(k, t, code);
    var p := k.calls[t].req;
    assert k'.syncs == if k.calls[t].sync then k.syncs[t := k.syncs[t].(done := true)] else k.syncs;
    forall u: nat ensures Engaged(k', u) <==> Engaged(k, u) && (u != t || k.calls[t].sync) {
    }
    forall u: nat | Engaged(k', u) ensures k'.calls[u].req in k'.mem && Hooked(k', u) {
      assert Hooked(k, u);
      assert u != t ==> k.calls[u].req != p;
    }
    forall q | q in k'.mem && !Busy(k', q) ensures k'.mem[q].callback.UserCallback? && k'.mem[q].kdata.UserData? {
      assert k.calls[t].sync ==> Engaged(k', t);
      if q != p {
        BusyKept(k, k', q);
      }
    }
  }

  lemma WriteDeliverKeeps(s: Sys)
    requires SysInv(s) && Enabled(s, WriteDeliver)
    ensures SysInv(Step(s, WriteDeliver))
  {
    InvInRange(s);
    var t := s.k.writing.t;
    DeliverHooked(s.k, t, s.k.writing.code);
    var s' := Step(s, WriteDeliver);
    NoDupSnoc(s.k.ran, t);
    forall u: nat | u in s'.k.completed && s'.k.writing != Delivered(u) ensures Answered(s', u) {
      assert Answered(s, u);
    }
  }

  lemma WriteReturnKeeps(s: Sys)
    requires SysInv(s) && Enabled(s, WriteReturn)
    ensures SysInv(Step(s, WriteReturn))
  {
    VisitKeepsInv(s.l, Choice(true, 0));
    LeftKeeps(s, Step(s, WriteReturn), s.k.writing.t);
  }

  /** An answered request, seen from the queues. */
  lemma LeftKeeps(s: Sys, s': Sys, t: nat)
    requires SysInv(s) && s.k.writing == Delivered(t) && t in s.l.c.items
    requires s'.k == s.k.(writing := Idle) && s'.aborted == s.aborted && Inv(s'.l) && s'.l.phase == 0
    requires s'.l.c.items == s.l.c.items - {t} && s'.l.c.all == Remove(s.l.c.all, t) && s'.l.c.nread == s.l.c.nread
    requires s'.l.c.log == s.l.c.log + [Respond(t, s.l.c.items[t].id, s.l.c.items[t].errcode)]
    ensures SysInv(s')
  {
    InvInRange(s);
    assert Answered(s', t);
    SameCalls(s, s');
  }

  // ----- every run -----

  lemma StepKeepsInv(s: Sys, a: Action)
    requires SysInv(s) && Enabled(s, a)
    ensures SysInv(Step(s, a))
  {
    match a {
      case ClientWrite(p, r) => ClientWriteKeeps(s, p, r);
      case CallAsync(p) => CallKeeps(s, p, false);
      case CallSync(p) => CallKeeps(s, p, true);
      case SyncReturn(t) => SyncReturnKeeps(s, t);
      case ReadTake => ReadTakeKeeps(s);
      case ReadReturn(found) => ReadReturnKeeps(s, found);
      case PollNothing =>
        PollKeepsInv(s.l, None);
        HelperKeeps(s, Poll(s.l, None));
      case HelperVisit(ch) =>
        VisitKeepsInv(s.l, ch);
        VisitFace(s.l, ch);
        HelperKeeps(s, Visit(s.l, ch));
      case HelperAdvance =>
        AdvanceKeepsInv(s.l);
        HelperKeeps(s, Advance(s.l));
      case WriteFind => WriteFindKeeps(s);
      case WriteDeliver => WriteDeliverKeeps(s);
      case WriteReturn => WriteReturnKeeps(s);
    }
  }

  lemma FirstInv()
    ensures SysInv(FIRST)
  {
    BootInv();
  }

  /** Every state of every run satisfies the invariant. */
  lemma {:induction false} RunsKeepInv(ss: seq<Sys>, acts: seq<Action>, j: nat)
    requires Behaviour(ss, acts) && j < |ss|
    ensures SysInv(ss[j])
  {
    if j == 0 {
      FirstInv();
    } else {
      RunsKeepInv(ss, acts, j - 1);
      assert Next(ss[j - 1], acts[j - 1], ss[j]);
      StepKeepsInv(ss[j - 1], acts[j - 1]);
    }
  }

  // ----- what the runs promise -----

  function One(b: bool): nat {
    if b then 1 else 0
  }

  /** How many of the places a request can be in hold ticket `t`. */
  ghost function Places(s: Sys, t: nat): nat {
    One(t in s.k.reqs) + One(s.k.transit.Some? && s.k.transit.value.t == t) + One(t in s.k.rtd)
    + One(s.k.writing.Found? && s.k.writing.t == t) + One(t in s.k.completed)
  }

  /** Exactly once, end to end: in every state of every run each accepted call is in exactly one place,
      no queue holds it twice, and its callback has run at most once: exactly when it is completed. */
  lemma ExactlyOnce(ss: seq<Sys>, acts: seq<Action>, j: nat, t: nat)
    requires Behaviour(ss, acts) && j < |ss| && t < |ss[j].k.calls|
    ensures Places(ss[j], t) == 1
    ensures NoDup(ss[j].k.reqs) && NoDup(ss[j].k.rtd) && NoDup(ss[j].k.ran)
    ensures t in ss[j].k.ran <==> t in ss[j].k.completed
    ensures !ss[j].aborted
  {
    RunsKeepInv(ss, acts, j);
    OnePlace(ss[j], t);
  }

  lemma InReqs(s: Sys, t: nat)
    requires Queued(s) && t < |s.k.calls|
    ensures t in s.k.reqs <==> |s.k.calls| - |s.k.reqs| <= t
    ensures NoDup(s.k.reqs)
  {
    var from := |s.k.calls| - |s.k.reqs|;
    if from <= t {
      assert s.k.reqs[t - from] == t;
    }
  }

  lemma InRtd(s: Sys, t: nat)
    requires Inv(s.l) && WriteMatched(s)
    ensures t in s.k.rtd <==> t in s.l.c.items && (s.k.writing.Idle? || s.k.writing.t != t)
    ensures NoDup(s.k.rtd)
  {
    Open(s.l);
    SortedNoDup(s.l.c.all);
    if !s.k.writing.Idle? {
      RemoveMembers(s.l.c.all, s.k.writing.t);
      RemoveNoDup(s.l.c.all, s.k.writing.t);
    }
  }

  lemma OnePlace(s: Sys, t: nat)
    requires SysInv(s) && t < |s.k.calls|
    ensures Places(s, t) == 1 && NoDup(s.k.reqs) && NoDup(s.k.rtd)
  {
    InvInRange(s);
    InReqs(s, t);
    InRtd(s, t);
  }

  /** The code handed to a completed call is the one the helper's record of calls gives it: of the failed
      lookup, prepare, launch or post, and zero only when all four succeeded. */
  lemma CallbackCodeEarned(ss: seq<Sys>, acts: seq<Action>, j: nat, t: nat)
    requires Behaviour(ss, acts) && j < |ss| && t in ss[j].k.completed
    ensures ss[j].k.completed[t] == Verdict(ss[j].l.c.log, t)
    ensures ss[j].k.completed[t] == 0 ==> Earned(ss[j].l.c.log, t, Done)
  {
    RunsKeepInv(ss, acts, j);
    CompletedCode(ss[j], t);
  }

  lemma CompletedCode(s: Sys, t: nat)
    requires SysInv(s) && t in s.k.completed
    ensures s.k.completed[t] == Verdict(s.l.c.log, t)
    ensures s.k.completed[t] == 0 ==> Earned(s.l.c.log, t, Done)
  {
    Open(s.l);
    if s.k.writing != Delivered(t) {
      var log := s.l.c.log;
      assert Answered(s, t);
      var i :| 0 <= i < |log| && log[i] == Respond(t, s.k.calls[t].id, s.k.completed[t]);
      assert AnswerEarned(log, i);
    }
  }

  /** Launch order: in every run the services are asked to prepare, and to launch, in the order in which
      the calls were accepted, each call at most once. */
  lemma LaunchesInCallOrder(ss: seq<Sys>, acts: seq<Action>, j: nat)
    requires Behaviour(ss, acts) && j < |ss|
    ensures Sorted(Launches(ss[j].l.c.log)) && Sorted(Prepares(ss[j].l.c.log))
    ensures Sorted(Pipe(ss[j].l.c))
    ensures forall t: nat :: t in Launches(ss[j].l.c.log) ==> t < |ss[j].k.calls|
  {
    RunsKeepInv(ss, acts, j);
    Open(ss[j].l);
    InvInRange(ss[j]);
  }

  /** Stream ownership in every run. */
  lemma StreamsAlwaysOwned(ss: seq<Sys>, acts: seq<Action>, j: nat)
    requires Behaviour(ss, acts) && j < |ss|
    ensures StreamsOwned(ss[j].l.c) && Shape(ss[j].l.c)
  {
    RunsKeepInv(ss, acts, j);
    Open(ss[j].l);
  }

  /** A sync call that returns by completion has had its own answer delivered, carries its code, and its
      request holds the data and callback it held before the call. */
  lemma SyncCallReturns(ss: seq<Sys>, acts: seq<Action>, j: nat, t: nat)
    requires Behaviour(ss, acts) && j < |acts| && acts[j] == SyncReturn(t)
    ensures t < |ss[j].k.calls| && t in ss[j].k.completed && t in ss[j].k.ran
    ensures ss[j].k.calls[t].req in ss[j].k.mem && ss[j].k.calls[t].req in ss[j + 1].k.mem
    ensures ss[j + 1].k.mem[ss[j].k.calls[t].req]
         == KReq(ss[j].k.calls[t].id, ss[j].k.calls[t].kdata, ss[j].k.calls[t].callback, ss[j].k.completed[t])
  {
    RunsKeepInv(ss, acts, j);
    var s := ss[j];
    assert Next(s, acts[j], ss[j + 1]);
    InvInRange(s);
    assert Engaged(s.k, t) && Hooked(s.k, t);
  }

  lemma HeadIsLive(c: Core, st: Stage)
    requires Shape(c)
    ensures c.lists.At(st) == [] || c.lists.At(st)[0] in c.items
  {
  }

  lemma NothingLive(c: Core)
    requires Shape(c) && StreamsOwned(c) && c.all == []
    ensures forall i: nat :: i !in c.items
    ensures forall st: Stage :: c.lists.At(st) == []
    ensures forall i :: 0 <= i < MAX_STREAM_NR ==> !c.streams[i]
  {
    forall i: nat ensures i !in c.items {
      assert i in c.items <==> i in c.all;
    }
    forall st: Stage ensures c.lists.At(st) == [] {
      HeadIsLive(c, st);
    }
    forall i | 0 <= i < MAX_STREAM_NR ensures !c.streams[i] {
      assert forall h: nat :: !HoldsStream(c, h, i);
    }
  }

  /** Blocking is safe: when the helper polls without a timeout, no stage list holds a request, every
      stream is free, and no request in the kernel is waiting for an answer. */
  lemma BlockingIsSafe(ss: seq<Sys>, acts: seq<Action>, j: nat)
    requires Behaviour(ss, acts) && j < |ss| && ss[j].l.phase == 6 && ss[j].l.c.all == []
    ensures forall st: Stage :: ss[j].l.c.lists.At(st) == []
    ensures |ss[j].l.c.streams| == MAX_STREAM_NR
    ensures forall i :: 0 <= i < MAX_STREAM_NR ==> !ss[j].l.c.streams[i]
    ensures ss[j].k.rtd == [] && ss[j].k.writing.Idle?
    ensures forall t: nat :: t < |ss[j].k.calls| && t !in ss[j].k.completed ==>
      t in ss[j].k.reqs || (ss[j].k.transit.Some? && ss[j].k.transit.value.t == t)
  {
    RunsKeepInv(ss, acts, j);
    var s := ss[j];
    Open(s.l);
    NothingLive(s.l.c);
    forall t: nat | t < |s.k.calls| && t !in s.k.completed
      ensures t in s.k.reqs || (s.k.transit.Some? && s.k.transit.value.t == t)
    {
      OnePlace(s, t);
    }
  }
}
