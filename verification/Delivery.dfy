/** What the owner of a request sees of it: what the callback reads, and what is left of the request when its
    call is over.  Everything is said about the states of a run, from the call to the callback. */
module Delivery {
  import opened HelperModel
  import opened HelperInvariants
  import opened Protocol

  /** A callback, of a sync or an async call, finds in its own request the code the helper's record of calls gives
      that call; nothing else in the request changes, and no other request does. */
  lemma CallbackReadsItsCode(ss: seq<Sys>, acts: seq<Action>, j: nat, t: nat)
    requires Behaviour(ss, acts) && j < |acts| && acts[j] == WriteDeliver
    requires ss[j].k.writing.Found? && ss[j].k.writing.t == t
    ensures t < |ss[j].k.calls| && t !in ss[j].k.completed && t in ss[j + 1].k.completed
    ensures var p := ss[j].k.calls[t].req;
      && p in ss[j].k.mem && p in ss[j + 1].k.mem
      && ss[j + 1].k.mem[p].errcode == ss[j + 1].k.completed[t] == Verdict(ss[j + 1].l.c.log, t)
      && ss[j + 1].k.mem[p].id == ss[j].k.mem[p].id
      && ss[j + 1].k.mem[p].kdata == ss[j].k.mem[p].kdata
      && ss[j + 1].k.mem[p].callback == ss[j].k.mem[p].callback
    ensures forall q :: q != ss[j].k.calls[t].req ==>
      (q in ss[j].k.mem <==> q in ss[j + 1].k.mem) && (q in ss[j].k.mem ==> ss[j + 1].k.mem[q] == ss[j].k.mem[q])
  {
    RunsKeepInv(ss, acts, j);
    RunsKeepInv(ss, acts, j + 1);
    assert Next(ss[j], acts[j], ss[j + 1]);
    CompletedCode(ss[j + 1], t);
  }

  // ----- the record of a call -----

  lemma StepKeepsCalls(s: Sys, a: Action, s': Sys)
    requires Next(s, a, s')
    ensures s.k.calls <= s'.k.calls
  {
  }

  /** An accepted call is never forgotten or altered. */
  lemma {:induction false} CallsStay(ss: seq<Sys>, acts: seq<Action>, i: nat, j: nat)
    requires Behaviour(ss, acts) && i <= j < |ss|
    ensures ss[i].k.calls <= ss[j].k.calls
  {
    if i < j {
      CallsStay(ss, acts, i, j - 1);
      assert Next(ss[j - 1], acts[j - 1], ss[j]);
      StepKeepsCalls(ss[j - 1], acts[j - 1], ss[j]);
    }
  }

  /** The action that makes a call on request `p`. */
  predicate Calls(a: Action, p: Ptr, sync: bool) {
    a == if sync then CallSync(p) else CallAsync(p)
  }

  /** What is recorded of a call is what its request held when the call was made. */
  lemma CallRecorded(ss: seq<Sys>, acts: seq<Action>, i: nat, j: nat, p: Ptr, sync: bool)
    requires Behaviour(ss, acts) && i < j < |ss| && Calls(acts[i], p, sync)
    ensures p in ss[i].k.mem && |ss[i].k.calls| < |ss[j].k.calls|
    ensures var r := ss[i].k.mem[p];
      ss[j].k.calls[|ss[i].k.calls|] == Call(p, r.id, sync, r.kdata, r.callback)
  {
    assert Next(ss[i], acts[i], ss[i + 1]);
    CallsStay(ss, acts, i + 1, j);
    assert ss[i + 1].k.calls[|ss[i].k.calls|] == ss[j].k.calls[|ss[i].k.calls|];
  }

  // ----- the request when the call is over -----

  /** An async call, from the call to its callback: the request is as the caller made it, with the error code of
      the answer and no other change. */
  lemma AsyncRoundTrip(ss: seq<Sys>, acts: seq<Action>, i: nat, j: nat, p: Ptr)
    requires Behaviour(ss, acts) && i < j < |acts| && acts[i] == CallAsync(p) && acts[j] == WriteDeliver
    requires ss[j].k.writing.Found? && ss[j].k.writing.t == |ss[i].k.calls|
    ensures p in ss[i].k.mem && p in ss[j + 1].k.mem
    ensures ss[j + 1].k.mem[p] == ss[i].k.mem[p].(errcode := Verdict(ss[j + 1].l.c.log, |ss[i].k.calls|))
  {
    var t := |ss[i].k.calls|;
    CallRecorded(ss, acts, i, j, p, false);
    CallbackReadsItsCode(ss, acts, j, t);
    RunsKeepInv(ss, acts, j);
    StillHeld(ss[j], t);
  }

  /** While an async call is outstanding its request holds what was recorded of it. */
  lemma StillHeld(s: Sys, t: nat)
    requires SysInv(s) && t < |s.k.calls| && t !in s.k.completed && !s.k.calls[t].sync
    ensures s.k.calls[t].req in s.k.mem
    ensures var r := s.k.mem[s.k.calls[t].req];
      r.id == s.k.calls[t].id && r.kdata == s.k.calls[t].kdata && r.callback == s.k.calls[t].callback
  {
    assert Engaged(s.k, t);
  }

  /** A sync call, from the call to its return: the request is as the caller made it, its own data and callback
      back in place, with the error code of the answer and no other change. */
  lemma SyncRoundTrip(ss: seq<Sys>, acts: seq<Action>, i: nat, j: nat, p: Ptr)
    requires Behaviour(ss, acts) && i < j < |acts| && acts[i] == CallSync(p) && acts[j] == SyncReturn(|ss[i].k.calls|)
    ensures p in ss[i].k.mem && p in ss[j + 1].k.mem
    ensures ss[j + 1].k.mem[p] == ss[i].k.mem[p].(errcode := Verdict(ss[j].l.c.log, |ss[i].k.calls|))
  {
    var t := |ss[i].k.calls|;
    CallRecorded(ss, acts, i, j, p, true);
    SyncCallReturns(ss, acts, j, t);
    RunsKeepInv(ss, acts, j);
    CompletedCode(ss[j], t);
  }
}
