/** Whole passes of the helper's main loop: what one pass can do to a request, and how soon every request
    is answered, however many arrive behind it. */
module Liveness {
  import opened Options
  import opened Seqs
  import opened HelperModel
  import opened HelperInvariants

  /** What the GPU and the services answer during one pass, by phase and request. */
  type Oracle = (nat, nat) -> Choice

  /** The GPU reports every stream it is asked about as finished; the service codes are arbitrary. */
  ghost predicate Cooperative(o: Oracle) {
    forall p: nat, i: nat :: o(p, i).finished
  }

  ghost predicate AtStart(l: Loop) {
    l.phase == 0 && l.kept == []
  }

  /** The rest of the pass, up to the poll. */
  ghost function RunToPoll(l: Loop, o: Oracle): (r: Loop)
    requires Inv(l)
    ensures Inv(r) && r.phase == 6
    decreases 6 - l.phase, |l.todo|
  {
    if l.todo != [] then
      VisitKeepsInv(l, o(l.phase, l.todo[0]));
      RunToPoll(Visit(l, o(l.phase, l.todo[0])), o)
    else if l.phase < 6 then
      AdvanceKeepsInv(l);
      RunToPoll(Advance(l), o)
    else l
  }

  /** One walk of `__kh_process_request` over what is left of the list. */
  ghost function RunPhase(l: Loop, o: Oracle): (r: Loop)
    requires Inv(l)
    ensures Inv(r) && r.phase == l.phase && r.todo == []
    decreases |l.todo|
  {
    if l.todo == [] then l
    else
      VisitKeepsInv(l, o(l.phase, l.todo[0]));
      RunPhase(Visit(l, o(l.phase, l.todo[0])), o)
  }

  /** What `__kh_process_request` returns: the code of the last operation it called, `r` if it called none. */
  ghost function WalkCode(l: Loop, o: Oracle, r: int): int
    requires Inv(l)
    decreases |l.todo|
  {
    if l.todo == [] then r
    else
      VisitKeepsInv(l, o(l.phase, l.todo[0]));
      WalkCode(Visit(l, o(l.phase, l.todo[0])), o, Op(l.phase, l.c, l.todo[0], o(l.phase, l.todo[0])).r)
  }

  /** A pass is its walks in turn. */
  lemma {:induction false} PassByPhases(l: Loop, o: Oracle)
    requires Inv(l) && l.phase < 6
    ensures Inv(Advance(RunPhase(l, o)))
    ensures RunToPoll(l, o) == RunToPoll(Advance(RunPhase(l, o)), o)
    decreases |l.todo|
  {
    if l.todo == [] {
      AdvanceKeepsInv(l);
    } else {
      VisitKeepsInv(l, o(l.phase, l.todo[0]));
      PassByPhases(Visit(l, o(l.phase, l.todo[0])), o);
    }
  }

  datatype PassEnv = PassEnv(oracle: Oracle, arrival: Option<Arrival>)

  /** One iteration of `kh_main_loop`. */
  ghost function Pass(l: Loop, e: PassEnv): (r: Loop)
    requires Inv(l)
    ensures Inv(r) && AtStart(r)
  {
    var m := RunToPoll(l, e.oracle);
    PollKeepsInv(m, e.arrival);
    Poll(m, e.arrival)
  }

  ghost function Passes(l: Loop, env: nat -> PassEnv, n: nat): (r: Loop)
    requires Inv(l) && AtStart(l)
    ensures Inv(r) && AtStart(r)
  {
    if n == 0 then l else Pass(Passes(l, env, n - 1), env(n - 1))
  }

  /** Mentioning the mark of a loop opens the predicates below for it; a proof that only chains passes
      never unfolds one. */
  predicate Mark(l: Loop, u: int) {
    true
  }

  /** The pass that is at `l` ends in state `next`. */
  ghost predicate Leads(l: Loop, e: PassEnv, next: Loop) {
    forall u {:trigger Mark(l, u)} :: Mark(l, u) ==> Inv(l) && next == Pass(l, e)
  }

  lemma LeadsTo(l: Loop, e: PassEnv, next: Loop)
    requires Leads(l, e, next)
    ensures Inv(l) && next == Pass(l, e) && Inv(next) && AtStart(next)
  {
    assert Mark(l, 0);
  }

  lemma NextState(l: Loop, e: PassEnv) returns (next: Loop)
    requires Inv(l)
    ensures Leads(l, e, next) && Inv(next) && AtStart(next)
  {
    next := Pass(l, e);
  }

  /** After `n` passes from `l` the loop is at `q`. */
  ghost predicate After(l: Loop, env: nat -> PassEnv, n: nat, q: Loop) {
    forall u {:trigger Mark(l, u)} :: Mark(l, u) ==> Inv(l) && AtStart(l) && q == Passes(l, env, n)
  }

  lemma AfterNone(l: Loop, env: nat -> PassEnv)
    requires Inv(l) && AtStart(l)
    ensures After(l, env, 0, l)
  {
  }

  lemma AfterOneMore(l: Loop, env: nat -> PassEnv, n: nat, m: Loop, q: Loop)
    requires n > 0 && After(l, env, n - 1, m) && Leads(m, env(n - 1), q)
    ensures After(l, env, n, q)
  {
    assert Mark(l, 0);
    LeadsTo(m, env(n - 1), q);
  }

  lemma AfterIs(l: Loop, env: nat -> PassEnv, n: nat, q: Loop)
    requires After(l, env, n, q)
    ensures Inv(l) && AtStart(l) && q == Passes(l, env, n) && Inv(q) && AtStart(q)
  {
    assert Mark(l, 0);
  }

  // ----- one stage per pass -----

  /** The moves the stage operations make. */
  predicate Hop(a: Stage, b: Stage) {
    match a
    case Init => b.MemDone?
    case MemDone => b.Prepared? || b.Done?
    case Prepared => b.Running? || b.Done?
    case Running => b.PostExec? || b.Done?
    case PostExec => b.Done?
    case Done => false
  }

  lemma OpMoves(phase: nat, c: Core, i: nat, ch: Choice)
    requires phase < 6 && i in c.items && c.items[i].state == StageOf(phase)
    ensures var d := Op(phase, c, i, ch).c;
      && (forall x: nat :: x != i ==> (x in d.items <==> x in c.items) && (x in c.items ==> d.items[x] == c.items[x]))
      && (i in d.items ==> d.items[i].state == c.items[i].state || Hop(c.items[i].state, d.items[i].state))
      && (i !in d.items <==> phase == 0)
      && d.nread == c.nread
  {
  }

  /** The visit of request `y` in this pass is still to come. */
  ghost predicate StillAhead(l: Loop, y: nat) {
    y in l.c.items &&
      (PhaseOf(l.c.items[y].state) > l.phase || (PhaseOf(l.c.items[y].state) == l.phase && y in l.todo))
  }

  lemma TodoNoDup(l: Loop)
    requires Inv(l) && l.todo != []
    ensures l.todo[0] in l.c.items && l.c.items[l.todo[0]].state == StageOf(l.phase)
    ensures l.todo[0] !in l.todo[1..] && forall y :: y in l.todo <==> y == l.todo[0] || y in l.todo[1..]
  {
    Open(l);
    StepAtNode(l);
    var list := l.c.lists.At(StageOf(l.phase));
    assert list == l.kept + l.todo;
    assert list[|l.kept|] == l.todo[0];
    SplitAt(list, |l.kept|);
    assert list[|l.kept| + 1..] == l.todo[1..];
    assert l.todo == [l.todo[0]] + l.todo[1..];
  }

  lemma AloneStep(l: Loop, ch: Choice, y: nat)
    requires Inv(l) && l.todo != [] && y in l.c.items && !StillAhead(l, y)
    ensures var m := Visit(l, ch); y in m.c.items && m.c.items[y] == l.c.items[y] && !StillAhead(m, y)
  {
    TodoNoDup(l);
    OpMoves(l.phase, l.c, l.todo[0], ch);
  }

  /** A request already visited, or moved to a list already walked, is left alone until the poll. */
  lemma {:induction false} LeftAlone(l: Loop, o: Oracle, y: nat)
    requires Inv(l) && y in l.c.items && !StillAhead(l, y)
    ensures y in RunToPoll(l, o).c.items && RunToPoll(l, o).c.items[y] == l.c.items[y]
    decreases 6 - l.phase, |l.todo|
  {
    if l.todo != [] {
      var ch := o(l.phase, l.todo[0]);
      VisitKeepsInv(l, ch);
      AloneStep(l, ch, y);
      LeftAlone(Visit(l, ch), o, y);
    } else if l.phase < 6 {
      AdvanceKeepsInv(l);
      LeftAlone(Advance(l), o, y);
    }
  }

  /** Within one pass a request leaves at most one stage list, and only an answered one disappears. */
  lemma {:induction false} OneStagePerPass(l: Loop, o: Oracle, y: nat)
    requires Inv(l) && StillAhead(l, y)
    ensures var d := RunToPoll(l, o).c;
      if y in d.items then d.items[y].state == l.c.items[y].state || Hop(l.c.items[y].state, d.items[y].state)
      else l.c.items[y].state.Done?
    decreases 6 - l.phase, |l.todo|
  {
    if l.todo != [] {
      var i := l.todo[0];
      var ch := o(l.phase, i);
      VisitKeepsInv(l, ch);
      TodoNoDup(l);
      OpMoves(l.phase, l.c, i, ch);
      var m := Visit(l, ch);
      if i != y && StillAhead(m, y) {
        OneStagePerPass(m, o, y);
      } else if y in m.c.items {
        VisitedOnce(l, ch);
        LeftAlone(m, o, y);
      } else {
        GoneForGood(m, o, y);
      }
    } else if l.phase < 6 {
      AdvanceKeepsInv(l);
      AdvanceAhead(l, y);
      OneStagePerPass(Advance(l), o, y);
    }
  }

  lemma AdvanceAhead(l: Loop, y: nat)
    requires Inv(l) && l.phase < 6 && l.todo == [] && StillAhead(l, y)
    ensures StillAhead(Advance(l), y)
  {
    Open(l);
    assert y in l.c.lists.At(l.c.items[y].state);
  }

  /** The request just visited is not visited again. */
  lemma VisitedOnce(l: Loop, ch: Choice)
    requires Inv(l) && l.todo != []
    ensures l.todo[0] in l.c.items && !StillAhead(Visit(l, ch), l.todo[0])
  {
    TodoNoDup(l);
    OpMoves(l.phase, l.c, l.todo[0], ch);
  }

  lemma {:induction false} GoneForGood(l: Loop, o: Oracle, y: nat)
    requires Inv(l) && y !in l.c.items
    ensures y !in RunToPoll(l, o).c.items && RunToPoll(l, o).c.nread == l.c.nread
    decreases 6 - l.phase, |l.todo|
  {
    if l.todo != [] {
      var ch := o(l.phase, l.todo[0]);
      VisitKeepsInv(l, ch);
      TodoNoDup(l);
      OpMoves(l.phase, l.c, l.todo[0], ch);
      GoneForGood(Visit(l, ch), o, y);
    } else if l.phase < 6 {
      AdvanceKeepsInv(l);
      GoneForGood(Advance(l), o, y);
    }
  }

  // ----- ranks -----

  /** Stages still to go: 6 for init down to 1 for done. */
  function Rank(st: Stage): nat {
    PhaseOf(st) + 1
  }

  ghost function SumRanks(s: seq<nat>, items: map<nat, Sreq>, x: nat): nat
    requires forall i :: i in s ==> i in items
  {
    if s == [] then 0
    else (if s[0] <= x then Rank(items[s[0]].state) else 0) + SumRanks(s[1..], items, x)
  }

  /** The ranks of the live requests that arrived no later than `x`, added up. */
  ghost function RankUpTo(l: Loop, x: nat): nat
    requires Inv(l)
  {
    Open(l);
    SumRanks(l.c.all, l.c.items, x)
  }

  lemma {:induction false} SumSame(s: seq<nat>, a: map<nat, Sreq>, b: map<nat, Sreq>, x: nat)
    requires forall i :: i in s ==> i in a && i in b && a[i].state == b[i].state
    ensures SumRanks(s, a, x) == SumRanks(s, b, x)
  {
    if s != [] {
      SumSame(s[1..], a, b, x);
    }
  }

  lemma {:induction false} SumUpdate(s: seq<nat>, items: map<nat, Sreq>, i: nat, r: Sreq, x: nat)
    requires NoDup(s) && i in s && forall j :: j in s ==> j in items
    ensures SumRanks(s, items[i := r], x)
         == SumRanks(s, items, x) + (if i <= x then Rank(r.state) - Rank(items[i].state) else 0)
  {
    NoDupTail(s);
    if s[0] == i {
      SumSame(s[1..], items, items[i := r], x);
    } else {
      SumUpdate(s[1..], items, i, r, x);
    }
  }

  lemma {:induction false} SumRemove(s: seq<nat>, items: map<nat, Sreq>, i: nat, x: nat)
    requires NoDup(s) && i in s && forall j :: j in s ==> j in items
    ensures forall j :: j in Remove(s, i) ==> j in items - {i}
    ensures SumRanks(Remove(s, i), items - {i}, x)
         == SumRanks(s, items, x) - (if i <= x then Rank(items[i].state) else 0)
  {
    RemoveMembers(s, i);
    NoDupTail(s);
    if s[0] == i {
      RemoveAbsent(s[1..], i);
      SumSame(s[1..], items, items - {i}, x);
    } else {
      RemoveMembers(s[1..], i);
      SumRemove(s[1..], items, i, x);
      assert Remove(s, i)[1..] == Remove(s[1..], i);
    }
  }

  lemma {:induction false} SumAppend(s: seq<nat>, items: map<nat, Sreq>, t: nat, r: Sreq, x: nat)
    requires x < t && t !in s && forall j :: j in s ==> j in items
    ensures SumRanks(s + [t], items[t := r], x) == SumRanks(s, items, x)
  {
    if s == [] {
      assert s + [t] == [t];
      assert [t][1..] == [];
    } else {
      assert (s + [t])[1..] == s[1..] + [t];
      SumAppend(s[1..], items, t, r, x);
    }
  }

  lemma {:induction false} SumAtLeast(s: seq<nat>, items: map<nat, Sreq>, x: nat)
    requires x in s && forall j :: j in s ==> j in items
    ensures SumRanks(s, items, x) >= 1
  {
    if s[0] != x {
      SumAtLeast(s[1..], items, x);
    }
  }

  lemma {:induction false} SumAtMost(s: seq<nat>, items: map<nat, Sreq>, x: nat)
    requires forall j :: j in s ==> j in items
    ensures SumRanks(s, items, x) <= 6 * Arrived(s, x)
  {
    if s != [] {
      SumAtMost(s[1..], items, x);
    }
  }

  /** How many of `s` arrived no later than `x`. */
  function Arrived(s: seq<nat>, x: nat): nat {
    if s == [] then 0 else (if s[0] <= x then 1 else 0) + Arrived(s[1..], x)
  }

  lemma {:induction false} ArrivedAtMost(s: seq<nat>, x: nat)
    ensures Arrived(s, x) <= |s|
  {
    if s != [] {
      ArrivedAtMost(s[1..], x);
    }
  }

  /** A visit lowers the rank of a request that leaves its list and changes no other rank. */
  lemma VisitRank(l: Loop, ch: Choice, x: nat)
    requires Inv(l) && l.todo != [] && Inv(Visit(l, ch))
    ensures l.todo[0] in l.c.items
    ensures RankUpTo(Visit(l, ch), x) <= RankUpTo(l, x)
    ensures l.todo[0] > x ==> RankUpTo(Visit(l, ch), x) == RankUpTo(l, x)
    ensures Leaves(l, ch) && l.todo[0] <= x ==> RankUpTo(Visit(l, ch), x) < RankUpTo(l, x)
  {
    TodoNoDup(l);
    var i := l.todo[0];
    var c, d := l.c, Op(l.phase, l.c, i, ch).c;
    Open(l);
    SortedNoDup(c.all);
    OpItems(l, ch);
    if l.phase == 0 {
      SumRemove(c.all, c.items, i, x);
    } else {
      SumUpdate(c.all, c.items, i, d.items[i], x);
    }
  }

  lemma OpItems(l: Loop, ch: Choice)
    requires l.phase < 6 && l.todo != [] && l.todo[0] in l.c.items && l.c.items[l.todo[0]].state == StageOf(l.phase)
    ensures var i := l.todo[0];
      var d := Op(l.phase, l.c, i, ch).c;
      if l.phase == 0 then d.items == l.c.items - {i} && d.all == Remove(l.c.all, i)
      else
        && i in d.items && d.items == l.c.items[i := d.items[i]] && d.all == l.c.all
        && (if Leaves(l, ch) then Rank(d.items[i].state) < Rank(l.c.items[i].state) else d == l.c)
  {
    FirstFreeSound(l.c.streams, 0);
  }

  lemma {:induction false} RankNeverRises(l: Loop, o: Oracle, x: nat)
    requires Inv(l)
    ensures RankUpTo(RunToPoll(l, o), x) <= RankUpTo(l, x)
    decreases 6 - l.phase, |l.todo|
  {
    if l.todo != [] {
      var ch := o(l.phase, l.todo[0]);
      VisitKeepsInv(l, ch);
      VisitRank(l, ch, x);
      RankNeverRises(Visit(l, ch), o, x);
    } else if l.phase < 6 {
      AdvanceKeepsInv(l);
      RankNeverRises(Advance(l), o, x);
    }
  }

  // ----- progress -----

  /** `y` is the request, among those up to `x`, that this pass is bound to move: none of them is further
      along, and the walk has not yet passed it. */
  ghost predicate Bound(l: Loop, x: nat, y: nat) {
    && y in l.c.items && y <= x && StillAhead(l, y)
    && (forall z: nat :: z in l.c.items && z <= x ==> PhaseOf(l.c.items[z].state) >= PhaseOf(l.c.items[y].state))
    && (PhaseOf(l.c.items[y].state) >= 2 ==> First(l.c, y))
    && (PhaseOf(l.c.items[y].state) == l.phase && l.phase >= 2 ==> l.kept == [])
  }

  ghost predicate First(c: Core, y: nat)
    requires y in c.items
  {
    var list := c.lists.At(c.items[y].state);
    list != [] && list[0] == y
  }

  /** With nothing ahead of the first waiting request, every stream is free. */
  lemma StreamFree(c: Core, x: nat, y: nat)
    requires Shape(c) && StreamsOwned(c) && InOrder(c) && y in c.items && y <= x && c.items[y].state.MemDone?
    requires forall z: nat :: z in c.items && z <= x ==> PhaseOf(c.items[z].state) >= 4
    ensures FirstFree(c.streams, 0).Some?
  {
    FirstFreeSound(c.streams, 0);
    if FirstFree(c.streams, 0).None? {
      assert c.streams[0];
      var h: nat :| HoldsStream(c, h, 0);
      assert Waiting(c, y);
    }
  }

  /** Visiting a request beyond `x` leaves `y` bound to move. */
  lemma BoundKept(l: Loop, m: Loop, x: nat, y: nat)
    requires Bound(l, x, y) && m.phase == l.phase && StillAhead(m, y)
    requires forall z: nat :: z <= x ==> (z in m.c.items <==> z in l.c.items)
    requires forall z: nat :: z <= x && z in l.c.items ==> m.c.items[z] == l.c.items[z]
    requires PhaseOf(l.c.items[y].state) >= 2 ==>
      PhaseOf(l.c.items[y].state) > l.phase
      && m.c.lists.At(l.c.items[y].state) == l.c.lists.At(l.c.items[y].state)
    ensures Bound(m, x, y)
  {
  }

  lemma FarVisit(l: Loop, ch: Choice, x: nat, y: nat)
    requires Inv(l) && l.todo != [] && Bound(l, x, y) && l.todo[0] > x
    ensures l.todo[0] in l.c.items && Bound(Visit(l, ch), x, y)
  {
    TodoNoDup(l);
    var i := l.todo[0];
    var p := PhaseOf(l.c.items[y].state);
    OpMoves(l.phase, l.c, i, ch);
    if p == l.phase && p >= 2 {
      VisitedIsFirst(l, y);
    }
    if p > l.phase {
      OtherList(l, ch, l.c.items[y].state);
    }
    BoundKept(l, Visit(l, ch), x, y);
  }

  /** Visiting a request up to `x` moves it: it is the bound one, or as far along. */
  lemma NearVisit(l: Loop, ch: Choice, x: nat, y: nat)
    requires Inv(l) && l.todo != [] && Bound(l, x, y) && l.todo[0] <= x && ch.finished
    ensures Leaves(l, ch)
  {
    TodoNoDup(l);
    assert PhaseOf(l.c.items[y].state) == l.phase;
    if l.phase == 4 {
      VisitedIsFirst(l, y);
      Open(l);
      StreamFree(l.c, x, y);
    }
  }

  /** An operation touches only its own list and lists already walked. */
  lemma OtherList(l: Loop, ch: Choice, st: Stage)
    requires l.phase < 6 && l.todo != [] && l.todo[0] in l.c.items && l.c.items[l.todo[0]].state == StageOf(l.phase)
    requires PhaseOf(st) > l.phase
    ensures Op(l.phase, l.c, l.todo[0], ch).c.lists.At(st) == l.c.lists.At(st)
  {
  }

  lemma {:induction false} BoundMoves(l: Loop, o: Oracle, x: nat, y: nat)
    requires Inv(l) && Cooperative(o) && Bound(l, x, y)
    ensures RankUpTo(RunToPoll(l, o), x) < RankUpTo(l, x)
    decreases 6 - l.phase, |l.todo|
  {
    if l.todo == [] {
      BoundAdvances(l, x, y);
      AdvanceKeepsInv(l);
      BoundMoves(Advance(l), o, x, y);
    } else {
      var ch := o(l.phase, l.todo[0]);
      VisitKeepsInv(l, ch);
      VisitRank(l, ch, x);
      if l.todo[0] <= x {
        NearVisit(l, ch, x, y);
        RankNeverRises(Visit(l, ch), o, x);
      } else {
        FarVisit(l, ch, x, y);
        BoundMoves(Visit(l, ch), o, x, y);
      }
    }
  }

  lemma BoundAdvances(l: Loop, x: nat, y: nat)
    requires Inv(l) && l.todo == [] && Bound(l, x, y)
    ensures l.phase < 6 && Bound(Advance(l), x, y)
  {
    AdvanceAhead(l, y);
  }

  lemma VisitedIsFirst(l: Loop, y: nat)
    requires Inv(l) && l.todo != [] && l.kept == []
    requires y in l.c.items && PhaseOf(l.c.items[y].state) == l.phase && First(l.c, y)
    ensures l.todo[0] == y
  {
    Open(l);
    assert l.kept + l.todo == l.todo;
  }

  /** Some request up to `x` is bound to move in a pass that starts with `x` live. */
  lemma {:induction false} SomeoneBound(l: Loop, x: nat, p: nat) returns (y: nat)
    requires Inv(l) && AtStart(l) && x in l.c.items && p <= PhaseOf(l.c.items[x].state)
    requires forall z: nat :: z in l.c.items && z <= x ==> PhaseOf(l.c.items[z].state) >= p
    ensures Bound(l, x, y)
    decreases 6 - p
  {
    if z: nat :| z in l.c.items && z <= x && PhaseOf(l.c.items[z].state) == p {
      Open(l);
      if p < 2 {
        y := z;
      } else {
        y := HeadOf(l.c, z);
      }
      assert l.kept + l.todo == l.todo;
    } else {
      y := SomeoneBound(l, x, p + 1);
    }
  }

  /** The head of a pipe list arrived no later than its other members. */
  lemma HeadOf(c: Core, z: nat) returns (y: nat)
    requires Shape(c) && InOrder(c) && z in c.items && PhaseOf(c.items[z].state) >= 2
    ensures y in c.items && y <= z && c.items[y].state == c.items[z].state && First(c, y)
  {
    var ls := c.lists;
    var list := ls.At(c.items[z].state);
    assert z in list;
    y := list[0];
    assert PipeOf(ls) == ls.running + (ls.prepared + (ls.memdone + ls.init));
    SortedParts(ls.running, ls.prepared + (ls.memdone + ls.init));
    SortedParts(ls.prepared, ls.memdone + ls.init);
    SortedParts(ls.memdone, ls.init);
    SortedHead(list, z);
  }

  /** An arrival has no rank up to an earlier request. */
  lemma PollRank(m: Loop, a: Option<Arrival>, x: nat)
    requires Inv(m) && m.phase == 6 && Inv(Poll(m, a))
    ensures x < m.c.nread ==> RankUpTo(Poll(m, a), x) == RankUpTo(m, x)
  {
    if a.Some? && x < m.c.nread {
      Open(m);
      var d := Poll(m, a).c;
      SumAppend(m.c.all, m.c.items, m.c.nread, d.items[m.c.nread], x);
    }
  }

  lemma {:induction false} SameReads(l: Loop, o: Oracle)
    requires Inv(l)
    ensures RunToPoll(l, o).c.nread == l.c.nread
    decreases 6 - l.phase, |l.todo|
  {
    if l.todo != [] {
      var ch := o(l.phase, l.todo[0]);
      VisitKeepsInv(l, ch);
      TodoNoDup(l);
      OpMoves(l.phase, l.c, l.todo[0], ch);
      SameReads(Visit(l, ch), o);
    } else if l.phase < 6 {
      AdvanceKeepsInv(l);
      SameReads(Advance(l), o);
    }
  }

  /** The poll at the end of a pass changes no rank up to an earlier request. */
  lemma PassRank(l: Loop, e: PassEnv, x: nat)
    requires Inv(l) && x < l.c.nread
    ensures RankUpTo(Pass(l, e), x) == RankUpTo(RunToPoll(l, e.oracle), x)
  {
    SameReads(l, e.oracle);
    var m := RunToPoll(l, e.oracle);
    PollKeepsInv(m, e.arrival);
    PollRank(m, e.arrival, x);
  }

  /** One pass with a live request lowers the ranks up to it, whatever the services answer. */
  lemma PassProgress(l: Loop, e: PassEnv, x: nat)
    requires Inv(l) && AtStart(l) && Cooperative(e.oracle) && x in l.c.items
    ensures RankUpTo(Pass(l, e), x) < RankUpTo(l, x)
  {
    Open(l);
    var y := SomeoneBound(l, x, 0);
    BoundMoves(l, e.oracle, x, y);
    PassRank(l, e, x);
  }

  lemma PollReads(m: Loop, a: Option<Arrival>, x: nat)
    requires m.phase == 6
    ensures Poll(m, a).c.nread >= m.c.nread
    ensures x < m.c.nread && x !in m.c.items ==> x !in Poll(m, a).c.items
  {
  }

  /** A request number once used never names a new request. */
  lemma PassReads(l: Loop, e: PassEnv, x: nat)
    requires Inv(l)
    ensures Pass(l, e).c.nread >= l.c.nread
    ensures x < l.c.nread && x !in l.c.items ==> x !in Pass(l, e).c.items
  {
    SameReads(l, e.oracle);
    if x !in l.c.items {
      GoneForGood(l, e.oracle, x);
    }
    PollReads(RunToPoll(l, e.oracle), e.arrival, x);
  }

  /** While `x` is live the ranks up to it are at most `r`. */
  ghost predicate RankWithin(q: Loop, x: nat, r: int) {
    forall u {:trigger Mark(q, u)} :: Mark(q, u) ==> Inv(q) && (x in q.c.items ==> RankUpTo(q, x) <= r)
  }

  /** What one more pass does to the bound on `x`. */
  lemma PassStep(m: Loop, e: PassEnv, x: nat, q: Loop, r: int)
    requires Inv(m) && AtStart(m) && Cooperative(e.oracle) && x < m.c.nread && Leads(m, e, q) && RankWithin(m, x, r)
    ensures q.c.nread >= m.c.nread && RankWithin(q, x, r - 1)
  {
    assert Mark(m, 0);
    LeadsTo(m, e, q);
    PassReads(m, e, x);
    if x in m.c.items {
      PassProgress(m, e, x);
    }
  }

  lemma {:induction false} RankAfter(l: Loop, env: nat -> PassEnv, x: nat, n: nat, r: int) returns (q: Loop)
    requires Inv(l) && AtStart(l) && x < l.c.nread && RankWithin(l, x, r)
    requires forall k: nat :: Cooperative(env(k).oracle)
    ensures After(l, env, n, q) && Inv(q) && AtStart(q) && q.c.nread >= l.c.nread && RankWithin(q, x, r - n)
  {
    if n == 0 {
      q := l;
      AfterNone(l, env);
      assert After(l, env, n, q);
    } else {
      var m := RankAfter(l, env, x, n - 1, r);
      q := NextState(m, env(n - 1));
      PassStep(m, env(n - 1), x, q, r - n + 1);
      AfterOneMore(l, env, n, m, q);
    }
  }

  lemma RankAtMost(l: Loop, x: nat)
    requires Inv(l)
    ensures RankWithin(l, x, 6 * Arrived(l.c.all, x))
  {
    Open(l);
    SumAtMost(l.c.all, l.c.items, x);
  }

  /** A request whose rank is used up has been answered. */
  lemma NoRankLeft(q: Loop, x: nat, r: int)
    requires Inv(q) && x < q.c.nread && RankWithin(q, x, r) && r <= 0
    ensures x !in q.c.items && x in Responses(q.c.log)
  {
    Open(q);
    assert Mark(q, 0);
    if x in q.c.items {
      SumAtLeast(q.c.all, q.c.items, x);
    }
  }

  /** Bounded response: a live request is answered within six passes for each live request that arrived
      no later, itself included, whatever arrives behind it and whichever service calls fail. */
  lemma BoundedResponse(l: Loop, env: nat -> PassEnv, x: nat, n: nat)
    requires Inv(l) && AtStart(l) && x in l.c.items
    requires forall k: nat :: Cooperative(env(k).oracle)
    requires n >= 6 * Arrived(l.c.all, x)
    ensures x !in Passes(l, env, n).c.items
    ensures x in Responses(Passes(l, env, n).c.log)
  {
    assert x < l.c.nread by {
      Open(l);
    }
    var r := 6 * Arrived(l.c.all, x);
    RankAtMost(l, x);
    var q := RankAfter(l, env, x, n, r);
    NoRankLeft(q, x, r - n);
    AfterIs(l, env, n, q);
  }

  /** Draining: all live requests are answered within six passes each, so a shortage of streams never
      stops the loop. */
  lemma Drained(l: Loop, env: nat -> PassEnv, x: nat)
    requires Inv(l) && AtStart(l) && x in l.c.items
    requires forall k: nat :: Cooperative(env(k).oracle)
    ensures x in Responses(Passes(l, env, 6 * |l.c.all|).c.log)
  {
    ArrivedAtMost(l.c.all, x);
    BoundedResponse(l, env, x, 6 * |l.c.all|);
  }
}
