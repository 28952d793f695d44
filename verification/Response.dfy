/** How soon the callback of an accepted call runs, in the interleaving of kernel, helper and clients.  Time is
    counted in polls, one at the end of each pass of the helper. */
module Response {
  import opened Options
  import opened Seqs
  import opened HelperModel
  import opened HelperInvariants
  import opened Liveness
  import opened Protocol

  /** The calls up to ticket `t` that the helper has not read. */
  function Unread(l: Loop, t: nat): nat {
    if t < l.c.nread then 0 else t + 1 - l.c.nread
  }

  /** What is still to be done before ticket `t` is answered: the ranks of the live requests up to it, and
      seven for each unread one, a poll to read it and six stages. */
  ghost function Debt(l: Loop, t: nat): nat
    requires Inv(l)
  {
    RankUpTo(l, t) + 7 * Unread(l, t)
  }

  /** This pass is bound to lower the debt. */
  ghost predicate Due(l: Loop, t: nat) {
    t >= l.c.nread || exists y: nat :: Bound(l, t, y)
  }

  /** The debt is at most `r`, and below it unless this pass is bound to lower it. */
  ghost predicate OnTime(l: Loop, t: nat, r: int)
    requires Inv(l)
  {
    Debt(l, t) <= r && (Debt(l, t) == r ==> Due(l, t))
  }

  // ----- the helper's steps -----

  lemma VisitOnTime(l: Loop, ch: Choice, t: nat, r: int)
    requires Inv(l) && l.todo != [] && ch.finished && OnTime(l, t, r)
    ensures Inv(Visit(l, ch)) && OnTime(Visit(l, ch), t, r)
  {
    VisitKeepsInv(l, ch);
    VisitRank(l, ch, t);
    assert Visit(l, ch).c.nread == l.c.nread by {
      TodoNoDup(l);
      OpMoves(l.phase, l.c, l.todo[0], ch);
    }
    if Debt(l, t) == r && t < l.c.nread {
      var y: nat :| Bound(l, t, y);
      if l.todo[0] <= t {
        NearVisit(l, ch, t, y);
      } else {
        FarVisit(l, ch, t, y);
      }
    }
  }

  lemma AdvanceOnTime(l: Loop, t: nat, r: int)
    requires Inv(l) && l.phase < 6 && l.todo == [] && OnTime(l, t, r)
    ensures Inv(Advance(l)) && OnTime(Advance(l), t, r)
  {
    AdvanceKeepsInv(l);
    if t < l.c.nread && Debt(l, t) == r {
      var y: nat :| Bound(l, t, y);
      BoundAdvances(l, t, y);
    }
  }

  /** Nothing is bound to move any more when the pass is at its poll. */
  lemma NotDueAtPoll(l: Loop, t: nat)
    requires l.phase == 6 && t < l.c.nread
    ensures !Due(l, t)
  {
  }

  /** A pass that starts with `t` live or unread is bound to lower the debt. */
  lemma DueAtStart(l: Loop, t: nat)
    requires Inv(l) && AtStart(l) && (t in l.c.items || t >= l.c.nread)
    ensures Due(l, t)
  {
    if t in l.c.items {
      var y := SomeoneBound(l, t, 0);
    }
  }

  lemma {:induction false} SumAppendIn(s: seq<nat>, items: map<nat, Sreq>, n: nat, q: Sreq, x: nat)
    requires n <= x && n !in s && forall j :: j in s ==> j in items
    ensures SumRanks(s + [n], items[n := q], x) == SumRanks(s, items, x) + Rank(q.state)
  {
    if s == [] {
      assert s + [n] == [n];
      assert [n][1..] == [];
    } else {
      assert (s + [n])[1..] == s[1..] + [n];
      SumAppendIn(s[1..], items, n, q, x);
    }
  }

  /** Reading a request up to `t` turns its seven into a rank of at most six. */
  lemma ReadLowersDebt(l: Loop, a: Arrival, t: nat)
    requires Inv(l) && l.phase == 6 && t >= l.c.nread && Inv(Poll(l, Some(a)))
    ensures Debt(Poll(l, Some(a)), t) < Debt(l, t)
  {
    Open(l);
    var d := Poll(l, Some(a)).c;
    SumAppendIn(l.c.all, l.c.items, l.c.nread, d.items[l.c.nread], t);
  }

  /** A poll that reads whenever something is queued takes one from the time left. */
  lemma PollOnTime(l: Loop, a: Option<Arrival>, t: nat, r: int)
    requires Inv(l) && l.phase == 6 && OnTime(l, t, r) && (t >= l.c.nread ==> a.Some?)
    requires t < l.c.nread ==> t in l.c.items
    ensures Inv(Poll(l, a)) && OnTime(Poll(l, a), t, r - 1)
  {
    PollKeepsInv(l, a);
    if t < l.c.nread {
      NotDueAtPoll(l, t);
      PollRank(l, a, t);
    } else {
      ReadLowersDebt(l, a.value, t);
    }
    StillThere(l, a, t);
    DueAtStart(Poll(l, a), t);
  }

  lemma StillThere(l: Loop, a: Option<Arrival>, t: nat)
    requires l.phase == 6 && (t in l.c.items || t >= l.c.nread)
    ensures t in Poll(l, a).c.items || t >= Poll(l, a).c.nread
    ensures t < l.c.nread ==> t < Poll(l, a).c.nread && AtStart(Poll(l, a))
    ensures AtStart(Poll(l, a))
  {
  }

  // ----- runs -----

  predicate IsPoll(a: Action) {
    a.ReadReturn? || a.PollNothing?
  }

  /** `kgpu_poll` reports a request whenever one is queued, and the GPU reports the streams it is asked about
      as finished. */
  predicate Prompt(s: Sys, a: Action) {
    (a.PollNothing? ==> s.k.reqs == []) && (a.HelperVisit? ==> a.ch.finished)
  }

  /** The callback of ticket `t` has run, or its time is not up. */
  ghost predicate InTime(s: Sys, t: nat, r: int)
    requires Inv(s.l)
  {
    t in s.k.completed || OnTime(s.l, t, r)
  }

  /** Where a ticket that is not completed is. */
  lemma Outstanding(s: Sys, t: nat)
    requires SysInv(s) && t < |s.k.calls| && t !in s.k.completed
    ensures t in s.l.c.items || t >= s.l.c.nread
  {
  }

  /** A step that leaves the helper alone, or no ticket uncompleted. */
  lemma OtherStep(s: Sys, a: Action, t: nat, r: int)
    requires SysInv(s) && Enabled(s, a) && InTime(s, t, r) && Step(s, a).l == s.l
    requires forall u: nat :: u in s.k.completed ==> u in Step(s, a).k.completed
    ensures Inv(Step(s, a).l) && InTime(Step(s, a), t, r)
  {
  }

  lemma CompletedStays(s: Sys, a: Action, u: nat)
    requires Enabled(s, a) && u in s.k.completed
    ensures u in Step(s, a).k.completed
  {
  }

  lemma PollStep(s: Sys, a: Action, t: nat, r: int)
    requires SysInv(s) && Enabled(s, a) && Prompt(s, a) && IsPoll(a) && t < |s.k.calls| && InTime(s, t, r)
    ensures Inv(Step(s, a).l) && InTime(Step(s, a), t, r - 1)
  {
    var x := if a.ReadReturn? then Some(Arrival(s.k.transit.value.id, a.found)) else None;
    assert Step(s, a).l == Poll(s.l, x);
    PollKeepsInv(s.l, x);
    if t in s.k.completed {
      CompletedStays(s, a, t);
    } else {
      Outstanding(s, t);
      assert a.PollNothing? ==> t < s.l.c.nread;
      PollOnTime(s.l, x, t, r);
    }
  }

  lemma HelperStep(s: Sys, a: Action, t: nat, r: int)
    requires SysInv(s) && Enabled(s, a) && Prompt(s, a) && InTime(s, t, r)
    requires a.HelperVisit? || a.HelperAdvance? || a.WriteReturn?
    ensures Inv(Step(s, a).l) && InTime(Step(s, a), t, r)
  {
    if a.HelperAdvance? {
      AdvanceKeepsInv(s.l);
      if t !in s.k.completed {
        AdvanceOnTime(s.l, t, r);
      }
    } else {
      var ch := if a.HelperVisit? then a.ch else Choice(true, 0);
      assert Step(s, a).l == Visit(s.l, ch);
      VisitKeepsInv(s.l, ch);
      if t !in s.k.completed {
        VisitOnTime(s.l, ch, t, r);
      }
    }
    if t in s.k.completed {
      CompletedStays(s, a, t);
    }
  }

  lemma StepInTime(s: Sys, a: Action, t: nat, r: int)
    requires SysInv(s) && Enabled(s, a) && Prompt(s, a) && t < |s.k.calls| && InTime(s, t, r)
    ensures Inv(Step(s, a).l) && InTime(Step(s, a), t, if IsPoll(a) then r - 1 else r)
  {
    if IsPoll(a) {
      PollStep(s, a, t, r);
    } else if a.HelperVisit? || a.HelperAdvance? || a.WriteReturn? {
      HelperStep(s, a, t, r);
    } else {
      forall u: nat | u in s.k.completed ensures u in Step(s, a).k.completed {
        CompletedStays(s, a, u);
      }
      OtherStep(s, a, t, r);
    }
  }

  /** How many of the steps from `j` to `n` are polls. */
  function PollsBetween(acts: seq<Action>, j: nat, n: nat): nat
    requires j <= n <= |acts|
  {
    if j == n then 0 else PollsBetween(acts, j, n - 1) + (if IsPoll(acts[n - 1]) then 1 else 0)
  }

  ghost predicate PromptBetween(ss: seq<Sys>, acts: seq<Action>, j: nat, n: nat)
    requires j <= n <= |acts| <= |ss|
  {
    forall i :: j <= i < n ==> Prompt(ss[i], acts[i])
  }

  lemma CallsGrow(s: Sys, a: Action)
    requires Enabled(s, a)
    ensures |Step(s, a).k.calls| >= |s.k.calls|
  {
  }

  predicate SysMark(s: Sys, u: int) {
    true
  }

  /** `InTime`, unfolded only where the mark of the state is mentioned. */
  ghost predicate Timely(s: Sys, t: nat, r: int) {
    forall u {:trigger SysMark(s, u)} :: SysMark(s, u) ==> t < |s.k.calls| && Inv(s.l) && InTime(s, t, r)
  }

  lemma TimelyStep(s: Sys, a: Action, s': Sys, t: nat, r: int, r': int)
    requires SysInv(s) && Next(s, a, s') && Prompt(s, a) && Timely(s, t, r)
    requires r' == if IsPoll(a) then r - 1 else r
    ensures Timely(s', t, r')
  {
    assert SysMark(s, 0);
    CallsGrow(s, a);
    StepInTime(s, a, t, r);
  }

  lemma {:induction false} RunInTime(ss: seq<Sys>, acts: seq<Action>, j: nat, n: nat, t: nat, r: int) returns (r': int)
    requires Behaviour(ss, acts) && j <= n <= |acts| && PromptBetween(ss, acts, j, n) && Timely(ss[j], t, r)
    ensures r' == r - PollsBetween(acts, j, n) && Timely(ss[n], t, r')
  {
    if j == n {
      r' := r;
    } else {
      var q := RunInTime(ss, acts, j, n - 1, t, r);
      RunsKeepInv(ss, acts, n - 1);
      assert Next(ss[n - 1], acts[n - 1], ss[n]) && Prompt(ss[n - 1], acts[n - 1]);
      r' := if IsPoll(acts[n - 1]) then q - 1 else q;
      TimelyStep(ss[n - 1], acts[n - 1], ss[n], t, q, r');
    }
  }

  lemma DebtAtMost(l: Loop, t: nat)
    requires Inv(l)
    ensures Debt(l, t) <= 6 * Arrived(l.c.all, t) + 7 * Unread(l, t)
  {
    Open(l);
    SumAtMost(l.c.all, l.c.items, t);
  }

  lemma DebtAtLeast(l: Loop, t: nat)
    requires Inv(l) && (t in l.c.items || t >= l.c.nread)
    ensures Debt(l, t) >= 1
  {
    Open(l);
    if t in l.c.items {
      SumAtLeast(l.c.all, l.c.items, t);
    }
  }

  /** Bounded response, end to end: whatever else is called meanwhile and whichever service calls fail, the
      callback of an accepted call has run once the helper has polled more than six times for each live request
      up to it and seven times for each unread one. */
  lemma CallbackBounded(ss: seq<Sys>, acts: seq<Action>, j: nat, n: nat, t: nat)
    requires Behaviour(ss, acts) && j <= n <= |acts| && PromptBetween(ss, acts, j, n) && t < |ss[j].k.calls|
    requires PollsBetween(acts, j, n) > 6 * Arrived(ss[j].l.c.all, t) + 7 * Unread(ss[j].l, t)
    ensures t in ss[n].k.completed && t in ss[n].k.ran
  {
    RunsKeepInv(ss, acts, j);
    RunsKeepInv(ss, acts, n);
    DebtAtMost(ss[j].l, t);
    var r := RunInTime(ss, acts, j, n, t, Debt(ss[j].l, t) + 1);
    TimeIsUp(ss[n], t, r);
  }

  lemma TimeIsUp(s: Sys, t: nat, r: int)
    requires SysInv(s) && Timely(s, t, r) && r <= 0
    ensures t in s.k.completed && t in s.k.ran
  {
    assert SysMark(s, 0);
    if t !in s.k.completed {
      Outstanding(s, t);
      DebtAtLeast(s.l, t);
    }
  }
}
