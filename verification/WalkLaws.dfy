/** What each of the six walks of a pass does, said of the list as it is when the walk starts and of what the GPU
    and the services answer: which requests the walk reaches, what becomes of each of them, and that the
    others are left as they are. */
module WalkLaws {
  import opened Options
  import opened Seqs
  import opened HelperModel
  import opened HelperInvariants
  import opened Liveness

  /** Request `x` is as it was. */
  ghost predicate Untouched(c: Core, d: Core, x: nat) {
    (x in d.items <==> x in c.items) && (x in c.items ==> d.items[x] == c.items[x])
  }

  ghost predicate OthersUntouched(c: Core, d: Core, s: seq<nat>) {
    forall x: nat :: x !in s ==> Untouched(c, d, x)
  }

  /** The walk after the first of its visits. */
  lemma FirstVisit(l: Loop, o: Oracle) returns (m: Loop)
    requires Inv(l) && l.todo != []
    ensures Inv(m) && m == Visit(l, o(l.phase, l.todo[0])) && RunPhase(l, o) == RunPhase(m, o) && m.phase == l.phase
    ensures l.todo[0] in l.c.items && l.c.items[l.todo[0]].state == StageOf(l.phase)
    ensures l.todo[0] !in l.todo[1..] && forall y :: y in l.todo <==> y == l.todo[0] || y in l.todo[1..]
  {
    VisitKeepsInv(l, o(l.phase, l.todo[0]));
    TodoNoDup(l);
    m := Visit(l, o(l.phase, l.todo[0]));
  }

  // ----- done -----

  /** The answers to the requests `s`, in order. */
  function Answers(items: map<nat, Sreq>, s: seq<nat>): seq<Event>
    requires forall i :: i in s ==> i in items
  {
    if s == [] then [] else [Respond(s[0], items[s[0]].id, items[s[0]].errcode)] + Answers(items, s[1..])
  }

  lemma {:induction false} AnswersSame(a: map<nat, Sreq>, b: map<nat, Sreq>, s: seq<nat>)
    requires forall i :: i in s ==> i in a && i in b && a[i] == b[i]
    ensures Answers(a, s) == Answers(b, s)
  {
    if s != [] {
      AnswersSame(a, b, s[1..]);
    }
  }

  lemma DoneVisit(l: Loop, ch: Choice)
    requires l.phase == 0 && l.todo != [] && l.todo[0] in l.c.items
    ensures var m, i := Visit(l, ch), l.todo[0];
      && m.c.items == l.c.items - {i} && m.todo == l.todo[1..]
      && m.c.streams == FreeStream(l.c.streams, l.c.items[i].streamId)
      && m.c.log == l.c.log + [Respond(i, l.c.items[i].id, l.c.items[i].errcode)]
  {
  }

  /** Some request of `s` holds stream `k`. */
  ghost predicate HeldByOne(items: map<nat, Sreq>, s: seq<nat>, k: int) {
    exists i: nat :: i in s && i in items && items[i].streamId == k
  }

  /** Every request of `s` has been answered, in order, and its stream freed. */
  ghost predicate AllAnswered(c: Core, d: Core, s: seq<nat>) {
    && (forall i :: i in s ==> i in c.items && i !in d.items)
    && OthersUntouched(c, d, s)
    && d.log == c.log + Answers(c.items, s)
    && |d.streams| == |c.streams|
    && forall k :: 0 <= k < |d.streams| ==> d.streams[k] == (c.streams[k] && !HeldByOne(c.items, s, k))
  }

  /** The answer to one request and the answers to the rest. */
  lemma AnsweredMore(c: Core, m: Core, d: Core, s: seq<nat>)
    requires s != [] && s[0] in c.items && s[0] !in s[1..] && AllAnswered(m, d, s[1..])
    requires m.items == c.items - {s[0]} && m.streams == FreeStream(c.streams, c.items[s[0]].streamId)
    requires m.log == c.log + [Respond(s[0], c.items[s[0]].id, c.items[s[0]].errcode)]
    ensures AllAnswered(c, d, s)
  {
    assert forall i :: i in s ==> i == s[0] || i in s[1..];
    AnswersSame(m.items, c.items, s[1..]);
    forall x: nat | x !in s ensures Untouched(c, d, x) {
      assert Untouched(m, d, x);
    }
    forall k | 0 <= k < |d.streams| ensures d.streams[k] == (c.streams[k] && !HeldByOne(c.items, s, k)) {
      HeldSplit(c.items, s, k);
    }
  }

  /** The done walk answers every request on the list, in order, with its id and code, and frees their streams. */
  lemma {:induction false} DoneWalk(l: Loop, o: Oracle)
    requires Inv(l) && l.phase == 0
    ensures AllAnswered(l.c, RunPhase(l, o).c, l.todo)
    decreases |l.todo|
  {
    if l.todo != [] {
      DoneVisit(l, o(l.phase, l.todo[0]));
      var m := FirstVisit(l, o);
      DoneWalk(m, o);
      AnsweredMore(l.c, m.c, RunPhase(m, o).c, l.todo);
    }
  }

  lemma HeldSplit(items: map<nat, Sreq>, s: seq<nat>, k: int)
    requires s != [] && s[0] in items && s[0] !in s[1..]
    ensures HeldByOne(items, s, k) <==> items[s[0]].streamId == k || HeldByOne(items - {s[0]}, s[1..], k)
  {
    if i: nat :| i in s && i in items && items[i].streamId == k && i != s[0] {
      assert i in s[1..] && i in items - {s[0]};
    }
    if i: nat :| i in s[1..] && i in items - {s[0]} && items[i].streamId == k {
      assert i in s;
    }
    assert s[0] in s;
  }

  // ----- post_exec and init -----

  lemma FinishVisit(l: Loop, ch: Choice)
    requires l.phase == 1 && l.todo != [] && l.todo[0] in l.c.items
    ensures var m, i := Visit(l, ch), l.todo[0];
      && m.c.items == l.c.items[i := if ch.finished then l.c.items[i].(state := Done) else l.c.items[i]]
      && m.todo == l.todo[1..] && m.c.streams == l.c.streams && m.c.log == l.c.log
  {
  }

  /** The post_exec walk reaches every request on the list; the finished ones are done, the others stay. */
  lemma {:induction false} FinishWalk(l: Loop, o: Oracle)
    requires Inv(l) && l.phase == 1
    ensures var d := RunPhase(l, o).c;
      && (forall i :: i in l.todo ==>
            && i in l.c.items && i in d.items
            && d.items[i] == if o(1, i).finished then l.c.items[i].(state := Done) else l.c.items[i])
      && OthersUntouched(l.c, d, l.todo) && d.streams == l.c.streams && d.log == l.c.log
    decreases |l.todo|
  {
    if l.todo != [] {
      FinishVisit(l, o(l.phase, l.todo[0]));
      var m := FirstVisit(l, o);
      FinishWalk(m, o);
    }
  }

  lemma AllocVisit(l: Loop, ch: Choice)
    requires l.phase == 5 && l.todo != [] && l.todo[0] in l.c.items
    ensures var m, i := Visit(l, ch), l.todo[0];
      && m.c.items == l.c.items[i := l.c.items[i].(state := MemDone)]
      && m.todo == l.todo[1..] && m.c.streams == l.c.streams && m.c.log == l.c.log
  {
  }

  /** The init walk allocates memory for every request on the list. */
  lemma {:induction false} AllocWalk(l: Loop, o: Oracle)
    requires Inv(l) && l.phase == 5
    ensures var d := RunPhase(l, o).c;
      && (forall i :: i in l.todo ==>
            i in l.c.items && i in d.items && d.items[i] == l.c.items[i].(state := MemDone))
      && OthersUntouched(l.c, d, l.todo) && d.streams == l.c.streams && d.log == l.c.log
    decreases |l.todo|
  {
    if l.todo != [] {
      AllocVisit(l, o(l.phase, l.todo[0]));
      var m := FirstVisit(l, o);
      AllocWalk(m, o);
    }
  }

  // ----- prepared -----

  /** The prepared walk asks for one launch, of the head of the list; its code decides between running and done,
      and nothing else changes. */
  lemma LaunchWalk(l: Loop, o: Oracle)
    requires Inv(l) && l.phase == 3
    ensures l.todo == [] ==> RunPhase(l, o).c == l.c
    ensures l.todo != [] ==>
      var d, i := RunPhase(l, o).c, l.todo[0];
      var code := o(3, i).code;
      && i in l.c.items && i in d.items && d.log == l.c.log + [Launch(i, code)] && d.streams == l.c.streams
      && d.items[i] == (if code != 0 then l.c.items[i].(state := Done, errcode := code)
                        else l.c.items[i].(state := Running))
      && OthersUntouched(l.c, d, [i])
  {
    if l.todo != [] {
      var m := FirstVisit(l, o);
      assert m.todo == [];
    }
  }

  // ----- running -----

  /** Request `i` is finished and its post succeeds. */
  predicate Posts(o: Oracle, i: nat) {
    o(2, i).finished && o(2, i).code == 0
  }

  /** `k` is the first position of a request that posts, or the length of the list. */
  ghost predicate FirstPost(s: seq<nat>, o: Oracle, k: nat) {
    k <= |s| && (forall j :: 0 <= j < k ==> !Posts(o, s[j])) && (k < |s| ==> Posts(o, s[k]))
  }

  lemma {:induction false} FirstPostExists(s: seq<nat>, o: Oracle) returns (k: nat)
    ensures FirstPost(s, o, k)
  {
    if s == [] || Posts(o, s[0]) {
      k := 0;
    } else {
      var n := FirstPostExists(s[1..], o);
      k := n + 1;
      forall j | 0 <= j < k ensures !Posts(o, s[j]) {
        assert j > 0 ==> s[j] == s[1..][j - 1];
      }
      assert k < |s| ==> s[k] == s[1..][n];
    }
  }

  /** What becomes of a running request, given whether the walk reaches it. */
  function PostedRecord(sr: Sreq, ch: Choice, reached: bool): Sreq {
    if !reached || !ch.finished then sr
    else if ch.code != 0 then sr.(state := Done, errcode := ch.code)
    else sr.(state := PostExec)
  }

  lemma PostVisit(l: Loop, ch: Choice)
    requires l.phase == 2 && l.todo != [] && l.todo[0] in l.c.items
    ensures var m, i := Visit(l, ch), l.todo[0];
      && m.c.items == l.c.items[i := PostedRecord(l.c.items[i], ch, true)] && m.c.streams == l.c.streams
      && m.c.log == l.c.log + (if ch.finished then [Post(i, ch.code)] else [])
      && m.todo == if ch.finished && ch.code == 0 then [] else l.todo[1..]
  {
  }

  /** The running walk passes over the requests that are not finished, fails those whose post fails, and ends
      with the first whose post succeeds; with none such it reaches them all. */
  lemma {:induction false} PostWalk(l: Loop, o: Oracle, k: nat)
    requires Inv(l) && l.phase == 2 && FirstPost(l.todo, o, k)
    ensures var d := RunPhase(l, o).c;
      && (forall j :: 0 <= j < |l.todo| ==>
            && l.todo[j] in l.c.items && l.todo[j] in d.items
            && d.items[l.todo[j]] == PostedRecord(l.c.items[l.todo[j]], o(2, l.todo[j]), j <= k))
      && OthersUntouched(l.c, d, l.todo) && d.streams == l.c.streams
    decreases |l.todo|
  {
    if l.todo != [] {
      var i := l.todo[0];
      PostVisit(l, o(l.phase, i));
      var m := FirstVisit(l, o);
      if k == 0 {
        StopsHere(l, m, o);
      } else {
        forall j | 0 <= j < k - 1 ensures !Posts(o, m.todo[j]) {
          assert m.todo[j] == l.todo[j + 1];
        }
        PostWalk(m, o, k - 1);
        PostShift(l, m, RunPhase(m, o).c, o, k);
      }
    }
  }

  /** The first request posts and ends the walk. */
  lemma StopsHere(l: Loop, m: Loop, o: Oracle)
    requires Inv(l) && Inv(m) && l.phase == 2 && l.todo != [] && m.todo == [] && l.todo[0] in l.c.items
    requires m.c.items == l.c.items[l.todo[0] := PostedRecord(l.c.items[l.todo[0]], o(2, l.todo[0]), true)]
    requires l.todo[0] !in l.todo[1..]
    ensures RunPhase(m, o) == m
    ensures forall j :: 0 <= j < |l.todo| ==>
      && l.todo[j] in l.c.items && l.todo[j] in m.c.items
      && m.c.items[l.todo[j]] == PostedRecord(l.c.items[l.todo[j]], o(2, l.todo[j]), j <= 0)
    ensures OthersUntouched(l.c, m.c, l.todo)
  {
    TodoLive(l);
    forall j | 0 < j < |l.todo| ensures l.todo[j] != l.todo[0] {
      assert l.todo[j] == l.todo[1..][j - 1];
    }
  }

  lemma TodoLive(l: Loop)
    requires Inv(l) && l.phase < 6
    ensures forall j :: 0 <= j < |l.todo| ==> l.todo[j] in l.c.items
  {
    Open(l);
    forall j | 0 <= j < |l.todo| ensures l.todo[j] in l.c.items {
      assert (l.kept + l.todo)[|l.kept| + j] == l.todo[j];
    }
  }

  /** The outcome of the rest of the walk, counted from the request before it. */
  lemma PostShift(l: Loop, m: Loop, d: Core, o: Oracle, k: nat)
    requires l.todo != [] && l.todo[0] in l.c.items && l.todo[0] !in l.todo[1..] && m.todo == l.todo[1..] && k > 0
    requires m.c.items == l.c.items[l.todo[0] := PostedRecord(l.c.items[l.todo[0]], o(2, l.todo[0]), true)]
    requires forall j :: 0 <= j < |m.todo| ==>
      && m.todo[j] in m.c.items && m.todo[j] in d.items
      && d.items[m.todo[j]] == PostedRecord(m.c.items[m.todo[j]], o(2, m.todo[j]), j <= k - 1)
    requires OthersUntouched(m.c, d, m.todo)
    ensures forall j :: 0 <= j < |l.todo| ==>
      && l.todo[j] in l.c.items && l.todo[j] in d.items
      && d.items[l.todo[j]] == PostedRecord(l.c.items[l.todo[j]], o(2, l.todo[j]), j <= k)
    ensures OthersUntouched(l.c, d, l.todo)
  {
    forall j | 0 <= j < |l.todo|
      ensures l.todo[j] in l.c.items && l.todo[j] in d.items
      ensures d.items[l.todo[j]] == PostedRecord(l.c.items[l.todo[j]], o(2, l.todo[j]), j <= k)
    {
      if j > 0 {
        assert m.todo[j - 1] == l.todo[j] && l.todo[j] in m.todo;
      }
    }
    forall x: nat | x !in l.todo ensures Untouched(l.c, d, x) {
      assert x !in m.todo && x != l.todo[0];
    }
  }

  // ----- memdone -----

  /** How many of the first `n` streams are free. */
  function FreeBelow(streams: seq<bool>, n: nat): (f: nat)
    requires n <= |streams|
    ensures f <= n
  {
    if n == 0 then 0 else FreeBelow(streams, n - 1) + (if streams[n - 1] then 0 else 1)
  }

  lemma {:induction false} FreeBelowZero(streams: seq<bool>, n: nat)
    requires n <= |streams|
    ensures FreeBelow(streams, n) == 0 <==> forall k :: 0 <= k < n ==> streams[k]
  {
    if n > 0 {
      FreeBelowZero(streams, n - 1);
    }
  }

  lemma {:induction false} FreeBelowTaken(streams: seq<bool>, k: nat, n: nat)
    requires k < |streams| && n <= |streams| && !streams[k]
    ensures FreeBelow(streams[k := true], n) == FreeBelow(streams, n) - (if k < n then 1 else 0)
  {
    if n > 0 {
      FreeBelowTaken(streams, k, n - 1);
    }
  }

  /** `m` requests at the head of `s` get one of `f` streams: up to the first whose prepare succeeds, or the end of
      the list, or of the streams. */
  ghost predicate ServedUpTo(s: seq<nat>, o: Oracle, f: nat, m: nat) {
    && m <= |s| && m <= f
    && (forall j :: 0 <= j < m - 1 ==> o(4, s[j]).code != 0)
    && (m == |s| || m == f || (m > 0 && o(4, s[m - 1]).code == 0))
  }

  lemma {:induction false} ServedExists(s: seq<nat>, o: Oracle, f: nat) returns (m: nat)
    ensures ServedUpTo(s, o, f, m)
  {
    if s == [] || f == 0 {
      m := 0;
    } else if o(4, s[0]).code == 0 {
      m := 1;
    } else {
      var n := ServedExists(s[1..], o, f - 1);
      m := n + 1;
      forall j | 0 <= j < m - 1 ensures o(4, s[j]).code != 0 {
        assert j > 0 ==> s[j] == s[1..][j - 1];
      }
      assert n > 0 ==> s[m - 1] == s[1..][n - 1];
    }
  }

  /** A prepared request: on stream `k`, failed or ready to launch. */
  function PreparedRecord(sr: Sreq, code: int, k: nat): Sreq {
    if code != 0 then sr.(streamId := k, state := Done, errcode := code) else sr.(streamId := k, state := Prepared)
  }

  /** Request `i` has been given the stream that had `j` free ones below it, and its prepare has been called. */
  ghost predicate Served(c: Core, d: Core, o: Oracle, i: nat, j: nat) {
    && i in c.items && i in d.items && 0 <= d.items[i].streamId < |c.streams|
    && !c.streams[d.items[i].streamId] && FreeBelow(c.streams, d.items[i].streamId) == j
    && d.items[i] == PreparedRecord(c.items[i], o(4, i).code, d.items[i].streamId)
  }

  /** The first `m` requests of `s` are served, in order, with the lowest free streams; the others wait. */
  ghost predicate AllServed(c: Core, d: Core, o: Oracle, s: seq<nat>, m: nat) {
    && (forall j :: 0 <= j < |s| ==> if j < m then Served(c, d, o, s[j], j) else Untouched(c, d, s[j]))
    && OthersUntouched(c, d, s)
    && |d.streams| == |c.streams|
    && forall k :: 0 <= k < |d.streams| ==> d.streams[k] == (c.streams[k] || FreeBelow(c.streams, k) < m)
  }

  lemma PrepareVisit(l: Loop, ch: Choice)
    requires l.phase == 4 && l.todo != [] && l.todo[0] in l.c.items
    ensures FirstFree(l.c.streams, 0).None? ==> Visit(l, ch).c == l.c && Visit(l, ch).todo == l.todo[1..]
    ensures FirstFree(l.c.streams, 0).Some? ==>
      var m, i, k := Visit(l, ch), l.todo[0], FirstFree(l.c.streams, 0).value;
      && k < |l.c.streams| && m.c.streams == l.c.streams[k := true]
      && m.c.items == l.c.items[i := PreparedRecord(l.c.items[i], ch.code, k)]
      && m.todo == if ch.code == 0 then [] else l.todo[1..]
  {
    FirstFreeSound(l.c.streams, 0);
  }

  /** The lowest free stream has none below it. */
  lemma LowestFree(streams: seq<bool>)
    ensures FirstFree(streams, 0).None? <==> FreeBelow(streams, |streams|) == 0
    ensures FirstFree(streams, 0).Some? ==>
      var k := FirstFree(streams, 0).value;
      k < |streams| && !streams[k] && FreeBelow(streams, k) == 0 && forall j :: 0 <= j < k ==> streams[j]
  {
    FirstFreeSound(streams, 0);
    FreeBelowZero(streams, |streams|);
    if FirstFree(streams, 0).Some? {
      FreeBelowZero(streams, FirstFree(streams, 0).value);
    }
  }

  /** `b` is `c` with stream `k`, the lowest free one, given to request `i`. */
  ghost predicate GaveLowest(c: Core, b: Core, o: Oracle, i: nat, k: nat) {
    && i in c.items && k < |c.streams| && !c.streams[k] && (forall j :: 0 <= j < k ==> c.streams[j])
    && b.streams == c.streams[k := true]
    && b.items == c.items[i := PreparedRecord(c.items[i], o(4, i).code, k)]
  }

  lemma GaveBelow(c: Core, b: Core, o: Oracle, i: nat, k: nat, x: nat)
    requires GaveLowest(c, b, o, i, k) && x <= |c.streams|
    ensures FreeBelow(b.streams, x) == FreeBelow(c.streams, x) - (if k < x then 1 else 0)
    ensures x <= k ==> FreeBelow(c.streams, x) == 0
  {
    FreeBelowTaken(c.streams, k, x);
    FreeBelowZero(c.streams, x);
  }

  lemma ServedFirst(c: Core, b: Core, d: Core, o: Oracle, i: nat, k: nat)
    requires GaveLowest(c, b, o, i, k) && Untouched(b, d, i)
    ensures Served(c, d, o, i, 0)
  {
    GaveBelow(c, b, o, i, k, k);
  }

  lemma ServedLater(c: Core, b: Core, d: Core, o: Oracle, i: nat, k: nat, x: nat, j: nat)
    requires GaveLowest(c, b, o, i, k) && x != i && j > 0 && Served(b, d, o, x, j - 1)
    ensures Served(c, d, o, x, j)
  {
    GaveBelow(c, b, o, i, k, d.items[x].streamId);
  }

  lemma StreamsGiven(c: Core, b: Core, d: Core, o: Oracle, i: nat, k: nat, m: nat, x: nat)
    requires GaveLowest(c, b, o, i, k) && m > 0 && x < |c.streams| == |d.streams|
    requires d.streams[x] == (b.streams[x] || FreeBelow(b.streams, x) < m - 1)
    ensures d.streams[x] == (c.streams[x] || FreeBelow(c.streams, x) < m)
  {
    GaveBelow(c, b, o, i, k, x);
  }

  /** One request served, with the lowest free stream `k`, and `m - 1` of the rest. */
  lemma ServedMore(c: Core, b: Core, d: Core, o: Oracle, s: seq<nat>, m: nat, k: nat)
    requires s != [] && s[0] !in s[1..] && m > 0 && AllServed(b, d, o, s[1..], m - 1)
    requires GaveLowest(c, b, o, s[0], k)
    ensures AllServed(c, d, o, s, m)
  {
    assert Untouched(b, d, s[0]);
    forall j | 0 <= j < |s| ensures if j < m then Served(c, d, o, s[j], j) else Untouched(c, d, s[j]) {
      if j == 0 {
        ServedFirst(c, b, d, o, s[0], k);
      } else {
        assert s[j] == s[1..][j - 1] && s[j] in s[1..];
        assert if j - 1 < m - 1 then Served(b, d, o, s[1..][j - 1], j - 1) else Untouched(b, d, s[1..][j - 1]);
        if j < m {
          ServedLater(c, b, d, o, s[0], k, s[j], j);
        }
      }
    }
    forall x: nat | x !in s ensures Untouched(c, d, x) {
      assert x !in s[1..] && x != s[0];
      assert Untouched(b, d, x);
    }
    forall x: nat | x < |d.streams| ensures d.streams[x] == (c.streams[x] || FreeBelow(c.streams, x) < m) {
      StreamsGiven(c, b, d, o, s[0], k, m, x);
    }
  }

  lemma NoneServed(c: Core, o: Oracle, s: seq<nat>)
    ensures AllServed(c, c, o, s, 0)
  {
  }

  /** The memdone walk gives the lowest free streams to the requests at the head of the list, in order, and calls
      their prepare: it passes over those that fail and ends with the first that succeeds, or when there
      is no stream left.  A failed request keeps its stream. */
  lemma {:induction false} PrepareWalk(l: Loop, o: Oracle, m: nat)
    requires Inv(l) && l.phase == 4 && ServedUpTo(l.todo, o, FreeBelow(l.c.streams, |l.c.streams|), m)
    ensures AllServed(l.c, RunPhase(l, o).c, o, l.todo, m)
    decreases |l.todo|
  {
    NoneServed(l.c, o, l.todo);
    if l.todo != [] {
      var i := l.todo[0];
      PrepareVisit(l, o(l.phase, i));
      LowestFree(l.c.streams);
      var n := FirstVisit(l, o);
      if FirstFree(l.c.streams, 0).None? {
        PrepareWalk(n, o, 0);
        NothingToGive(l.c, RunPhase(n, o).c, o, l.todo);
      } else {
        var k := FirstFree(l.c.streams, 0).value;
        FreeBelowTaken(l.c.streams, k, |l.c.streams|);
        if o(4, i).code == 0 {
          NoneServed(n.c, o, l.todo[1..]);
        } else {
          ServedRest(l.todo, o, FreeBelow(l.c.streams, |l.c.streams|), m);
          PrepareWalk(n, o, m - 1);
        }
        ServedMore(l.c, n.c, RunPhase(n, o).c, o, l.todo, m, k);
      }
    }
  }

  lemma ServedRest(s: seq<nat>, o: Oracle, f: nat, m: nat)
    requires s != [] && f > 0 && ServedUpTo(s, o, f, m) && o(4, s[0]).code != 0
    ensures m > 0 && ServedUpTo(s[1..], o, f - 1, m - 1)
  {
    forall j | 0 <= j < m - 2 ensures o(4, s[1..][j]).code != 0 {
      assert s[1..][j] == s[j + 1];
    }
    assert m > 1 ==> s[1..][m - 2] == s[m - 1];
  }

  lemma NothingToGive(c: Core, d: Core, o: Oracle, s: seq<nat>)
    requires s != [] && AllServed(c, d, o, s[1..], 0)
    ensures AllServed(c, d, o, s, 0)
  {
    forall x: nat ensures Untouched(c, d, x) {
      if x in s[1..] {
        var j :| 0 <= j < |s[1..]| && s[1..][j] == x;
        assert Untouched(c, d, s[1..][j]);
      }
    }
  }
}
