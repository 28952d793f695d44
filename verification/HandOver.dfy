/** `kgpu_read` with its two ends: the kernel device it takes a request from and the helper it gives it to. */
module HandOver {
  import opened Options
  import opened HelperModel
  import opened Liveness
  import opened Protocol
  import opened DeviceMemory
  import opened PinLedger
  import opened KernelDevice
  import opened Daemon

  /** The poll of the helper that finds a request queued and reads it.  The helper files it under the ticket the
      kernel knows it by, with its id and with the buffers of the caller's own request, each address rebased to
      the helper's view of the pool; `found` says whether the service lookup succeeds. */
  method ReadRequest(dev: KgpuDev, h: Helper, c: nat, found: bool, ghost m: Loop)
    requires dev.Valid() && dev.transit.None? && dev.reqs != [] && dev.reqs[0] == h.nread && c > 0
    requires h.Valid() && h.PinsSettled() && Walk(m, 6) && m.c == h.Abs()
    modifies dev, h, h.repr
    ensures dev.Valid() && h.Valid() && h.PinsSettled()
    ensures var t := old(h.nread);
      && t < |dev.calls| && dev.calls == old(dev.calls) && dev.bufs == old(dev.bufs) && dev.mem == old(dev.mem)
      && dev.calls[t].req in dev.bufs && dev.calls[t].req in dev.mem
      && t in h.items && h.items[t].id == dev.mem[dev.calls[t].req].id
      && t in h.args && h.args[t].bufs == FillRequest(dev.pool, dev.bufs[dev.calls[t].req])
      && t in h.history && h.history[t] == FillRequest(dev.pool, dev.bufs[dev.calls[t].req])
      && dev.rtd == old(dev.rtd) + [t] && dev.reqs == old(dev.reqs)[1..] && h.nread == t + 1
  {
    var ret, kureq := dev.KgpuRead(true, c);
    var k := kureq.value;
    ghost var t := h.nread;
    var timeout, r := h.KhGetNextServiceRequest(Some(Arrival(k.id, found)), k.buffers, m);
    PolledRecord(m, Arrival(k.id, found), h.Abs());
  }

  lemma PolledRecord(m: Loop, a: Arrival, c: Core)
    requires Polls(m, Some(a), c)
    ensures m.c.nread in c.items && c.items[m.c.nread].id == a.id
  {
    assert Mark(m, 0);
  }
}
