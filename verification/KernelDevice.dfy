/** The request side of `kgpudev` in the kernel module: the queues `reqs` and `rtdreqs` and the requests
    behind them, updated in place.  Each step is proved against the step of the same name in `Protocol`. */
module KernelDevice {
  import opened Options
  import opened Seqs
  import opened Protocol
  import opened DeviceMemory
  import HelperModel

  const KGPU_TERMINATED: int := 3
  const EAGAIN: int := 11
  const ENOMEM: int := 12
  const EFAULT: int := 14
  const EINVAL: int := 22
  const ERESTARTSYS: int := 512

  /** `sizeof(struct kgpu_ku_response)`: two 32-bit integers. */
  const RESPONSE_SIZE: nat := 8

  /** `kgpu_ku_request` as the helper receives it. */
  datatype KuRequest = KuRequest(id: int, buffers: Buffers)

  /** Tickets between `kgpu_call_*` and the callback, oldest first. */
  function Line(k: Kernel): seq<nat> {
    k.rtd + (if k.transit.Some? then [k.transit.value.t] else []) + k.reqs
  }

  ghost predicate InLine(k: Kernel) {
    Sorted(Line(k)) && Readable(k, Line(k))
  }

  lemma LineParts(k: Kernel)
    requires InLine(k)
    ensures Sorted(k.rtd) && NoDup(k.rtd) && Readable(k, k.rtd) && Readable(k, k.reqs)
    ensures k.transit.Some? ==> Readable(k, [k.transit.value.t])
  {
    var mid := if k.transit.Some? then [k.transit.value.t] else [];
    SortedParts(k.rtd + mid, k.reqs);
    SortedParts(k.rtd, mid);
    SortedNoDup(k.rtd);
    assert forall j :: 0 <= j < |k.rtd| ==> k.rtd[j] == Line(k)[j];
    assert forall j :: 0 <= j < |k.reqs| ==> k.reqs[j] == Line(k)[|k.rtd + mid| + j];
    assert k.transit.Some? ==> k.transit.value.t == Line(k)[|k.rtd|];
  }

  /** A new call joins the end of the line. */
  lemma CallInLine(k: Kernel, p: Ptr, sync: bool)
    requires InLine(k) && p in k.mem
    ensures InLine(Called(k, p, sync))
  {
    var k' := Called(k, p, sync);
    assert Line(k') == Line(k) + [|k.calls|];
    forall y | y in Line(k) ensures y < |k.calls| {
      var j :| 0 <= j < |Line(k)| && Line(k)[j] == y;
    }
    SortedSnoc(Line(k), |k.calls|);
    forall j | 0 <= j < |Line(k')| ensures Line(k')[j] < |k'.calls| && k'.calls[Line(k')[j]].req in k'.mem {
      if j < |Line(k)| {
        assert Line(k')[j] == Line(k)[j];
      }
    }
  }

  /** Taking a ticket out keeps the line. */
  lemma LeaveInLine(k: Kernel, t: nat)
    requires InLine(k) && t in k.rtd
    ensures InLine(k.(rtd := Remove(k.rtd, t)))
  {
    var mid := if k.transit.Some? then [k.transit.value.t] else [];
    var k' := k.(rtd := Remove(k.rtd, t));
    LineParts(k);
    SortedParts(k.rtd + mid, k.reqs);
    SortedParts(k.rtd, mid);
    assert t !in mid + k.reqs by {
      assert Line(k) == k.rtd + (mid + k.reqs);
      SortedParts(k.rtd, mid + k.reqs);
    }
    assert Line(k) == k.rtd + (mid + k.reqs) && Line(k') == Remove(k.rtd, t) + (mid + k.reqs);
    RemoveAppend(k.rtd, mid + k.reqs, t);
    RemoveAbsent(mid + k.reqs, t);
    RemoveSorted(Line(k), t);
    RemoveMembers(Line(k), t);
    forall j | 0 <= j < |Line(k')| ensures Line(k')[j] < |k.calls| && k.calls[Line(k')[j]].req in k.mem {
      assert Line(k')[j] in Line(k);
    }
  }

  /** The line without the ticket in transit. */
  lemma LoseInLine(k: Kernel)
    requires InLine(k) && k.transit.Some?
    ensures InLine(k.(transit := None)) && |Line(k.(transit := None))| == |Line(k)| - 1
  {
    var k', t := k.(transit := None), k.transit.value.t;
    assert Line(k) == k.rtd + [t] + k.reqs && Line(k') == k.rtd + k.reqs;
    assert Line(k)[|k.rtd|] == t;
    SortedNoDup(Line(k));
    SplitAt(Line(k), |k.rtd|);
    assert Line(k') == Line(k)[..|k.rtd|] + Line(k)[|k.rtd| + 1..];
    RemoveSorted(Line(k), t);
    RemoveMembers(Line(k), t);
    forall j | 0 <= j < |Line(k')| ensures Line(k')[j] < |k.calls| && k.calls[Line(k')[j]].req in k.mem {
      assert Line(k')[j] in Line(k);
    }
  }

  /** The first match is found by the recursive search too. */
  lemma {:induction false} FirstMatch(k: Kernel, rtd: seq<nat>, id: int, j: nat)
    requires Readable(k, rtd) && j <= |rtd|
    requires forall i :: 0 <= i < j ==> k.mem[k.calls[rtd[i]].req].id != id
    ensures j < |rtd| && k.mem[k.calls[rtd[j]].req].id == id ==> FindRequest(k, rtd, id) == Some(rtd[j])
    ensures j == |rtd| ==> FindRequest(k, rtd, id) == None
  {
    if j > 0 {
      FirstMatch(k, rtd[1..], id, j - 1);
    }
  }

  lemma InvRtd(s: Sys, u: nat)
    requires SysInv(s) && u in s.k.rtd
    ensures u < s.l.c.nread && u < |s.k.calls| && s.k.calls[u].req in s.k.mem
  {
    InvInRange(s);
    assert u in s.l.c.items && s.k.writing != Delivered(u) by {
      HelperModel.Open(s.l);
      if !s.k.writing.Idle? {
        RemoveMembers(s.l.c.all, s.k.writing.t);
      }
    }
    assert Engaged(s.k, u);
  }

  lemma InvRtdSorted(s: Sys)
    requires SysInv(s)
    ensures Sorted(s.k.rtd)
  {
    HelperModel.Open(s.l);
    match s.k.writing
    case Idle =>
    case Found(t, _) => RemoveSorted(s.l.c.all, t);
    case Delivered(t) => RemoveSorted(s.l.c.all, t);
  }

  lemma InvTail(s: Sys, t: nat)
    requires SysInv(s) && s.l.c.nread <= t < |s.k.calls|
    ensures s.k.calls[t].req in s.k.mem
  {
    assert t !in s.k.completed by {
      InvInRange(s);
    }
    assert Engaged(s.k, t);
  }

  /** What the queues hold, oldest first, in terms of positions. */
  lemma LineAt(s: Sys, j: nat)
    requires SysInv(s) && j < |Line(s.k)|
    ensures j < |s.k.rtd| ==> Line(s.k)[j] == s.k.rtd[j]
    ensures j >= |s.k.rtd| ==> Line(s.k)[j] == s.l.c.nread + (j - |s.k.rtd|) && Line(s.k)[j] < |s.k.calls|
  {
  }

  /** In every reachable state `rtdreqs`, the item inside `kgpu_read` and `reqs`, one after the other, hold
      their requests in the order of the calls. */
  lemma QueuesInCallOrder(ss: seq<Sys>, acts: seq<Action>, n: nat)
    requires Behaviour(ss, acts) && n < |ss|
    ensures InLine(ss[n].k)
  {
    RunsKeepInv(ss, acts, n);
    LineHolds(ss[n]);
  }

  lemma LineHolds(s: Sys)
    requires SysInv(s)
    ensures InLine(s.k)
  {
    var line := Line(s.k);
    InvRtdSorted(s);
    forall j: nat | j < |line| ensures line[j] < |s.k.calls| && s.k.calls[line[j]].req in s.k.mem {
      LineAt(s, j);
      if j < |s.k.rtd| {
        InvRtd(s, line[j]);
      } else {
        InvTail(s, line[j]);
      }
    }
    forall i, j | 0 <= i && Before(i, j) && j < |line| ensures line[i] < line[j] {
      LineAt(s, i);
      LineAt(s, j);
      if i < |s.k.rtd| {
        InvRtd(s, line[i]);
      }
    }
  }

  class KgpuDev {
    const pool: KernelPool
    var terminated: bool
    var bufs: map<Ptr, Buffers>
    var mem: map<Ptr, KReq>
    var calls: seq<Call>
    var reqs: seq<nat>
    var transit: Option<Transit>
    var rtd: seq<nat>
    var writing: Writing
    var syncs: map<nat, SyncCall>
    var completed: map<nat, int>
    var ran: seq<nat>

    ghost function Abs(): Kernel
      reads this
    {
      Kernel(mem, calls, reqs, transit, rtd, writing, syncs, completed, ran)
    }

    ghost predicate Valid()
      reads this
    {
      InLine(Abs()) && (forall p :: p in mem ==> p in bufs)
    }

    constructor (pool: KernelPool)
      ensures Valid() && Abs() == FIRST.k && this.pool == pool && !terminated
    {
      this.pool := pool;
      terminated, bufs, mem, calls, reqs, transit := false, map[], map[], [], [], None;
      rtd, writing, syncs, completed, ran := [], Idle, map[], map[], [];
    }

    /** A client fills in a request of its own. */
    method ClientWrite(p: Ptr, r: KReq, b: Buffers)
      requires Valid()
      modifies this`mem, this`bufs
      ensures Valid() && Abs() == old(Abs()).(mem := old(mem)[p := r]) && bufs == old(bufs)[p := b]
    {
      mem := mem[p := r];
      bufs := bufs[p := b];
    }

    /** `kgpu_call_async`; `enough` says whether the slab allocation succeeds. */
    method KgpuCallAsync(p: Ptr, enough: bool) returns (ret: int)
      requires Valid() && p in mem
      modifies this`calls, this`reqs
      ensures Valid()
      ensures ret == if terminated then KGPU_TERMINATED else if !enough then -ENOMEM else 0
      ensures Abs() == if ret == 0 then Enqueue(old(Abs()), p, false) else old(Abs())
    {
      if terminated {
        return KGPU_TERMINATED;
      }
      if !enough {
        return -ENOMEM;
      }
      CallInLine(Abs(), p, false);
      var r := mem[p];
      reqs := reqs + [|calls|];
      calls := calls + [Call(p, r.id, false, r.kdata, r.callback)];
      return 0;
    }

    /** `kgpu_call_sync` up to its wait. */
    method KgpuCallSync(p: Ptr, enough: bool) returns (ret: int)
      requires Valid() && p in mem
      modifies this`calls, this`reqs, this`mem, this`syncs
      ensures Valid()
      ensures ret == if terminated then KGPU_TERMINATED else if !enough then -ENOMEM else 0
      ensures Abs() == if ret == 0 then EnqueueSync(old(Abs()), p) else old(Abs())
    {
      if terminated {
        return KGPU_TERMINATED;
      }
      if !enough {
        return -ENOMEM;
      }
      CallInLine(Abs(), p, true);
      var r, t := mem[p], |calls|;
      syncs := syncs[t := SyncCall(r.kdata, r.callback, false)];
      mem := mem[p := r.(kdata := SyncData(t), callback := SyncCallback)];
      reqs := reqs + [t];
      calls := calls + [Call(p, r.id, true, r.kdata, r.callback)];
      return 0;
    }

    /** `kgpu_call_sync` after its wait ended by completion. */
    method SyncReturn(t: nat)
      requires Valid() && t in syncs && t < |calls| && calls[t].req in mem
      modifies this`mem, this`syncs
      ensures Valid() && Abs() == ReturnSync(old(Abs()), t)
    {
      var p := calls[t].req;
      mem := mem[p := mem[p].(kdata := syncs[t].oldkdata, callback := syncs[t].oldcallback)];
      syncs := syncs - {t};
    }

    /** `find_request`. */
    method FindRequestItem(id: int, offlist: bool) returns (item: Option<nat>)
      requires Valid()
      modifies this`rtd
      ensures Readable(old(Abs()), old(rtd)) && item == FindRequest(old(Abs()), old(rtd), id)
      ensures item.Some? ==> item.value in old(rtd) && mem[calls[item.value].req].id == id
      ensures rtd == if offlist && item.Some? then Remove(old(rtd), item.value) else old(rtd)
      ensures Valid()
    {
      LineParts(Abs());
      var j := 0;
      while j < |rtd|
        invariant 0 <= j <= |rtd| && rtd == old(rtd)
        invariant forall i :: 0 <= i < j ==> mem[calls[rtd[i]].req].id != id
      {
        if mem[calls[rtd[j]].req].id == id {
          FirstMatch(Abs(), rtd, id, j);
          item := Some(rtd[j]);
          if offlist {
            SplitAt(rtd, j);
            LeaveInLine(Abs(), rtd[j]);
            rtd := rtd[..j] + rtd[j + 1..];
          }
          return;
        }
        j := j + 1;
      }
      FirstMatch(Abs(), rtd, id, j);
      item := None;
    }

    /** The first half of `kgpu_read`, under `reqlock`: the head of `reqs` is taken off and copied out. */
    method ReadTake() returns (kureq: KuRequest)
      requires Valid() && transit.None? && reqs != []
      modifies this`reqs, this`transit
      ensures Valid() && transit.Some? && old(reqs)[0] < |calls| && calls[old(reqs)[0]].req in mem
      ensures Abs() == old(Abs()).(reqs := old(reqs)[1..],
        transit := Some(Transit(old(reqs)[0], mem[calls[old(reqs)[0]].req].id)))
      ensures calls[old(reqs)[0]].req in bufs
      ensures kureq == KuRequest(transit.value.id, FillRequest(pool, bufs[calls[old(reqs)[0]].req]))
    {
      LineParts(Abs());
      var t := reqs[0];
      ghost var k := Abs();
      var p := calls[t].req;
      kureq := KuRequest(mem[p].id, FillRequest(pool, bufs[p]));
      transit := Some(Transit(t, mem[p].id));
      reqs := reqs[1..];
      assert Line(Abs()) == Line(k);
    }

    /** The second half, under `rtdreqlock`: the item joins `rtdreqs`. */
    method ReadReturn()
      requires Valid() && transit.Some?
      modifies this`rtd, this`transit
      ensures Valid()
      ensures Abs() == old(Abs()).(rtd := old(rtd) + [old(transit).value.t], transit := None)
    {
      ghost var k := Abs();
      rtd := rtd + [transit.value.t];
      transit := None;
      assert Line(Abs()) == Line(k);
    }

    /** `kgpu_read` when no other reader is inside it: what the wait for `reqs` comes to, then both halves.
        The second half is skipped for a read of zero bytes, so the line of tickets is the same before and
        after exactly when something is asked for or nothing is queued. */
    method KgpuRead(nonblock: bool, c: nat) returns (ret: int, kureq: Option<KuRequest>)
      requires Valid() && transit.None?
      modifies this`reqs, this`rtd, this`transit
      ensures Valid() && transit.None?
      ensures Line(Abs()) == old(Line(Abs())) <==> c > 0 || old(reqs) == []
      ensures old(reqs) == [] ==>
        ret == (if nonblock then -EAGAIN else -ERESTARTSYS) && kureq.None? && Abs() == old(Abs())
      ensures old(reqs) != [] ==>
        && ret == c && old(reqs)[0] < |calls| && calls[old(reqs)[0]].req in mem && calls[old(reqs)[0]].req in bufs
        && kureq == Some(KuRequest(mem[calls[old(reqs)[0]].req].id, FillRequest(pool, bufs[calls[old(reqs)[0]].req])))
        && rtd == old(rtd) + (if c > 0 then [old(reqs)[0]] else []) && reqs == old(reqs)[1..]
    {
      if reqs == [] {
        return (if nonblock then -EAGAIN else -ERESTARTSYS), None;
      }
      ghost var k0 := Abs();
      var k := ReadTake();
      ret := c;
      if ret > 0 {
        ReadReturn();
        assert Line(Abs()) == Line(k0);
      } else {
        LoseInLine(Abs());
        transit := None;
      }
      kureq := Some(k);
    }

    /** `item->r->callback(item->r)`: for a sync call, `sync_callback`. */
    method Callback(p: Ptr)
      requires p in mem
      modifies this`syncs
      ensures syncs == RunCallback(old(Abs()), p)
    {
      match mem[p].callback
      case UserCallback(_) =>
      case SyncCallback =>
        match mem[p].kdata
        case UserData(_) =>
        case SyncData(d) =>
          if d in syncs {
            syncs := syncs[d := syncs[d].(done := true)];
          }
    }

    /** `kgpu_write` when no other writer is inside it. */
    method KgpuWrite(id: int, errcode: int, count: nat) returns (ret: int)
      requires Valid() && writing.Idle?
      modifies this`rtd, this`mem, this`syncs, this`completed, this`ran, this`writing
      ensures Valid() && writing.Idle?
      ensures Readable(old(Abs()), old(rtd))
      ensures ret == if count < RESPONSE_SIZE then -EINVAL
                     else if FindRequest(old(Abs()), old(rtd), id).None? then -EFAULT else count
      ensures ret < 0 ==> Abs() == old(Abs())
      ensures ret >= 0 ==>
        var k, t := old(Abs()), FindRequest(old(Abs()), old(rtd), id).value;
        && t < |k.calls| && k.calls[t].req in k.mem && k.mem[k.calls[t].req].id == id
        && Abs() == Deliver(k.(rtd := Remove(k.rtd, t)), t, errcode).(writing := Idle)
        && mem == old(mem)[k.calls[t].req := old(mem)[k.calls[t].req].(errcode := errcode)]
    {
      LineParts(Abs());
      if count < RESPONSE_SIZE {
        return -EINVAL;
      }
      var item := FindRequestItem(id, true);
      if item.None? {
        return -EFAULT;
      }
      var t := item.value;
      DeliverItem(t, errcode);
      writing := Idle;
      return count;
    }

    /** The rest of `kgpu_write` once the item is off `rtdreqs`. */
    method DeliverItem(t: nat, errcode: int)
      requires Valid() && t < |calls| && calls[t].req in mem
      modifies this`mem, this`syncs, this`completed, this`ran, this`writing
      ensures Valid() && Abs() == Deliver(old(Abs()), t, errcode)
      ensures mem == old(mem)[calls[t].req := old(mem)[calls[t].req].(errcode := errcode)]
      ensures ran == old(ran) + [t] && completed == old(completed)[t := errcode]
    {
      var p := calls[t].req;
      mem := mem[p := mem[p].(errcode := errcode)];
      Callback(p);
      completed, ran, writing := completed[t := errcode], ran + [t], Delivered(t);
    }
  }

  /** A read of zero bytes from a queue with one entry: the call is in no queue and will never be answered. */
  method ZeroByteReadLoses(pool: KernelPool, r: KReq, b: Buffers) returns (dev: KgpuDev)
    ensures dev.Valid() && |dev.calls| == 1 && Line(dev.Abs()) == [] && 0 !in dev.completed
  {
    dev := new KgpuDev(pool);
    dev.ClientWrite(0, r, b);
    var accepted := dev.KgpuCallAsync(0, true);
    assert dev.reqs == [0];
    var ret, kureq := dev.KgpuRead(true, 0);
  }
}
