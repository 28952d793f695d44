/** Every step of the helper's main loop keeps the invariants of `HelperModel`. */
module HelperInvariants {
  import opened Options
  import opened Seqs
  import opened HelperModel

  // ----- list partition -----

  lemma WithAt(ls: Lists, st: Stage, s: seq<nat>, q: Stage)
    ensures ls.With(st, s).At(q) == if q == st then s else ls.At(q)
  {
  }

  lemma RelinkAt(ls: Lists, i: nat, from: Stage, dest: Stage, st: Stage)
    requires from != dest && NoDup(ls.At(st)) && (i in ls.At(st) ==> st == from)
    ensures var list := Relink(ls, i, from, dest).At(st);
      && NoDup(list)
      && forall x: nat :: x in list <==> if x == i then st == dest else x in ls.At(st)
  {
    var off := ls.With(from, Remove(ls.At(from), i));
    WithAt(ls, from, Remove(ls.At(from), i), st);
    WithAt(ls, from, Remove(ls.At(from), i), dest);
    WithAt(off, dest, off.At(dest) + [i], st);
    if st == from {
      RemoveMembers(ls.At(from), i);
      RemoveNoDup(ls.At(from), i);
    } else if st == dest {
      NoDupSnoc(ls.At(dest), i);
    }
  }

  /** The lists of `d` are those of `c` with request `i` on the list of `at` only, or on none. */
  ghost predicate Rehung(c: Core, d: Core, i: nat, at: Option<Stage>) {
    forall st: Stage ::
      && NoDup(d.lists.At(st))
      && forall x: nat :: x in d.lists.At(st) <==> if x == i then at == Some(st) else x in c.lists.At(st)
  }

  lemma ShapeFrom(c: Core, d: Core, i: nat, r: Sreq)
    requires Shape(c) && Rehung(c, d, i, Some(r.state))
    requires d.items == c.items[i := r] && d.nread >= c.nread && i < d.nread
    requires (i in c.items && d.all == c.all) || (i == c.nread && d.all == c.all + [i])
    ensures Shape(d)
  {
    if i == c.nread {
      SortedSnoc(c.all, i);
    }
  }

  lemma MoveShape(c: Core, i: nat, r: Sreq)
    requires Shape(c) && i in c.items && r.state != c.items[i].state
    ensures Shape(Move(c, i, r))
  {
    var d := Move(c, i, r);
    forall st: Stage
      ensures NoDup(d.lists.At(st))
      ensures forall x: nat ::
        x in d.lists.At(st) <==> if x == i then Some(r.state) == Some(st) else x in c.lists.At(st)
    {
      RelinkAt(c.lists, i, c.items[i].state, r.state, st);
    }
    ShapeFrom(c, d, i, r);
  }

  lemma ShapeWithout(c: Core, d: Core, i: nat)
    requires Shape(c) && Rehung(c, d, i, None)
    requires d.items == c.items - {i} && d.nread == c.nread && d.all == Remove(c.all, i)
    ensures Shape(d)
  {
    RemoveMembers(c.all, i);
    RemoveSorted(c.all, i);
  }

  lemma DropShape(c: Core, i: nat)
    requires Shape(c) && i in c.items
    ensures Shape(ServiceDone(c, i).c)
  {
    var d := ServiceDone(c, i).c;
    var from := c.items[i].state;
    forall st: Stage
      ensures NoDup(d.lists.At(st))
      ensures forall x: nat :: x in d.lists.At(st) <==> x != i && x in c.lists.At(st)
    {
      WithAt(c.lists, from, Remove(c.lists.At(from), i), st);
      RemoveMembers(c.lists.At(from), i);
      RemoveNoDup(c.lists.At(from), i);
    }
    ShapeWithout(c, d, i);
  }

  lemma AddShape(c: Core, id: int, found: bool)
    requires Shape(c)
    ensures Shape(InitServiceRequest(c, id, found))
  {
    var t := c.nread;
    var d := InitServiceRequest(c, id, found);
    var dest := if found then Init else Done;
    assert t !in c.items;
    forall st: Stage
      ensures NoDup(d.lists.At(st))
      ensures forall x: nat :: x in d.lists.At(st) <==> if x == t then Some(dest) == Some(st) else x in c.lists.At(st)
    {
      WithAt(c.lists, dest, c.lists.At(dest) + [t], st);
      assert t !in c.lists.At(st);
      NoDupSnoc(c.lists.At(st), t);
    }
    ShapeFrom(c, d, t, d.items[t]);
  }

  lemma LogShape(c: Core, e: Event)
    requires Shape(c)
    ensures Shape(c.(log := c.log + [e]))
  {
  }

  /** The next request to visit is on the list of the phase. */
  ghost predicate AtNode(l: Loop) {
    l.phase < 6 && l.todo != [] && l.todo[0] in l.c.lists.At(StageOf(l.phase))
  }

  lemma RecordedShape(c: Core, d: Core, i: nat, r: Sreq)
    requires Shape(c) && i in c.items && r.state == c.items[i].state
    requires d.items == c.items[i := r] && d.lists == c.lists && d.all == c.all && d.nread == c.nread
    ensures Shape(d)
  {
  }

  /** `kh_prepare_exec` once it has its stream. */
  lemma PreparedShape(c1: Core, i: nat, code: int)
    requires Shape(c1) && i in c1.items && c1.items[i].state.MemDone?
    ensures Shape(FailRequest(c1, i, code)) && Shape(Move(c1, i, c1.items[i].(state := Prepared)))
  {
    MoveShape(c1, i, c1.items[i].(state := Done, errcode := code));
    MoveShape(c1, i, c1.items[i].(state := Prepared));
  }

  lemma PrepareShape(c: Core, i: nat, code: int)
    requires Shape(c) && i in c.items && c.items[i].state.MemDone?
    ensures Shape(PrepareExec(c, i, code).c)
  {
    FirstFreeSound(c.streams, 0);
    if FirstFree(c.streams, 0).Some? {
      var c1 := TakeStream(c, i, FirstFree(c.streams, 0).value, code);
      RecordedShape(c, c1, i, c1.items[i]);
      PreparedShape(c1, i, code);
    }
  }

  lemma OpShape(phase: nat, c: Core, i: nat, ch: Choice)
    requires Shape(c) && phase < 6 && i in c.lists.At(StageOf(phase))
    ensures Shape(Op(phase, c, i, ch).c)
  {
    var sr := c.items[i];
    match StageOf(phase) {
      case Done => DropShape(c, i);
      case PostExec => MoveShape(c, i, sr.(state := Done));
      case Running =>
        var c1 := c.(log := c.log + [Post(i, ch.code)]);
        LogShape(c, Post(i, ch.code));
        MoveShape(c1, i, sr.(state := Done, errcode := ch.code));
        MoveShape(c1, i, sr.(state := PostExec));
      case Prepared =>
        var c1 := c.(log := c.log + [Launch(i, ch.code)]);
        LogShape(c, Launch(i, ch.code));
        MoveShape(c1, i, sr.(state := Done, errcode := ch.code));
        MoveShape(c1, i, sr.(state := Running));
      case MemDone => PrepareShape(c, i, ch.code);
      case Init => MoveShape(c, i, sr.(state := MemDone));
    }
  }

  // ----- stream ownership -----

  /** Changing a record but not its stream keeps ownership, as long as the stage fits the stream. */
  lemma RecordStreams(c: Core, d: Core, i: nat, r: Sreq)
    requires StreamsOwned(c) && i in c.items
    requires d.items == c.items[i := r] && d.streams == c.streams
    requires r.streamId == c.items[i].streamId && StreamFits(r)
    ensures StreamsOwned(d)
  {
    forall x: nat, k ensures HoldsStream(d, x, k) <==> HoldsStream(c, x, k) {
    }
  }

  lemma TakeStreamOwned(c: Core, d: Core, i: nat, k: nat, r: Sreq)
    requires StreamsOwned(c) && i in c.items && c.items[i].streamId == -1
    requires k < MAX_STREAM_NR && !c.streams[k]
    requires d.items == c.items[i := r] && d.streams == c.streams[k := true]
    requires r.streamId == k && StreamFits(r)
    ensures StreamsOwned(d)
  {
    forall x: nat, m ensures HoldsStream(d, x, m) <==> if x == i then m == k else HoldsStream(c, x, m) {
    }
    forall m | 0 <= m < MAX_STREAM_NR && d.streams[m] ensures exists x: nat :: HoldsStream(d, x, m) {
      if m == k {
        assert HoldsStream(d, i, m);
      } else {
        var x: nat :| HoldsStream(c, x, m);
        assert HoldsStream(d, x, m);
      }
    }
  }

  lemma DropOwned(c: Core, i: nat)
    requires StreamsOwned(c) && i in c.items
    ensures StreamsOwned(ServiceDone(c, i).c)
  {
    var d := ServiceDone(c, i).c;
    forall x: nat, m ensures HoldsStream(d, x, m) <==> x != i && HoldsStream(c, x, m) {
    }
    assert HoldsStream(c, i, c.items[i].streamId);
    forall m | 0 <= m < MAX_STREAM_NR && d.streams[m] ensures exists x: nat :: HoldsStream(d, x, m) {
      var x: nat :| HoldsStream(c, x, m);
      assert HoldsStream(d, x, m);
    }
  }

  lemma AddOwned(c: Core, id: int, found: bool)
    requires StreamsOwned(c) && Shape(c)
    ensures StreamsOwned(InitServiceRequest(c, id, found))
  {
    var d := InitServiceRequest(c, id, found);
    assert c.nread !in c.items;
    forall x: nat, m | m >= 0 ensures HoldsStream(d, x, m) <==> HoldsStream(c, x, m) {
    }
    forall m | 0 <= m < MAX_STREAM_NR && d.streams[m] ensures exists x: nat :: HoldsStream(d, x, m) {
      var x: nat :| HoldsStream(c, x, m);
      assert HoldsStream(d, x, m);
    }
  }

  lemma PrepareOwned(c: Core, i: nat, code: int)
    requires StreamsOwned(c) && i in c.items && c.items[i].state.MemDone?
    ensures StreamsOwned(PrepareExec(c, i, code).c)
  {
    FirstFreeSound(c.streams, 0);
    if FirstFree(c.streams, 0).Some? {
      var k := FirstFree(c.streams, 0).value;
      var d := PrepareExec(c, i, code).c;
      assert d.items == c.items[i := d.items[i]];
      TakeStreamOwned(c, d, i, k, d.items[i]);
    }
  }

  lemma OpStreams(phase: nat, c: Core, i: nat, ch: Choice)
    requires Shape(c) && StreamsOwned(c) && phase < 6 && i in c.lists.At(StageOf(phase))
    ensures StreamsOwned(Op(phase, c, i, ch).c)
  {
    var sr := c.items[i];
    var d := Op(phase, c, i, ch).c;
    match StageOf(phase) {
      case Done => DropOwned(c, i);
      case MemDone => PrepareOwned(c, i, ch.code);
      case _ =>
        if d != c {
          assert d.items == c.items[i := d.items[i]];
          RecordStreams(c, d, i, d.items[i]);
        }
    }
  }

  // ----- arrival order -----

  lemma PipeMembers(c: Core, z: nat)
    requires Shape(c)
    ensures z in Pipe(c) <==> z in c.items && !c.items[z].state.PostExec? && !c.items[z].state.Done?
  {
    var ls := c.lists;
    assert z in Pipe(c) <==>
      z in ls.At(Running) || z in ls.At(Prepared) || z in ls.At(MemDone) || z in ls.At(Init);
    if z in c.items {
      assert z in c.lists.At(c.items[z].state);
    }
  }

  /** Leaving the pipe for the done or post-exec list only deletes from it. */
  lemma PipeDeletes(ls: Lists, i: nat, from: Stage, dest: Stage)
    requires (dest.Done? || dest.PostExec?) && from != dest
    requires forall st: Stage :: st != from ==> i !in ls.At(st)
    ensures PipeOf(Relink(ls, i, from, dest)) == Remove(PipeOf(ls), i)
  {
    RemoveFour(ls.running, ls.prepared, ls.memdone, ls.init, i);
    RemoveElsewhere(ls, i, from, Running);
    RemoveElsewhere(ls, i, from, Prepared);
    RemoveElsewhere(ls, i, from, MemDone);
    RemoveElsewhere(ls, i, from, Init);
  }

  lemma RemoveElsewhere(ls: Lists, i: nat, from: Stage, st: Stage)
    requires st != from ==> i !in ls.At(st)
    ensures ls.With(from, Remove(ls.At(from), i)).At(st) == Remove(ls.At(st), i)
  {
    WithAt(ls, from, Remove(ls.At(from), i), st);
    if st != from {
      RemoveAbsent(ls.At(st), i);
    }
  }

  lemma RemoveFour(a: seq<nat>, b: seq<nat>, c: seq<nat>, d: seq<nat>, x: nat)
    ensures Remove(a + b + c + d, x) == Remove(a, x) + Remove(b, x) + Remove(c, x) + Remove(d, x)
  {
    RemoveAppend(a + b + c, d, x);
    RemoveAppend(a + b, c, x);
    RemoveAppend(a, b, x);
  }

  /** Moving the head of one pipe list to the tail of the list ahead of it leaves the pipe as it was. */
  lemma PipeShifts(ls: Lists, i: nat, from: Stage, dest: Stage)
    requires (from.Prepared? && dest.Running?) || (from.MemDone? && dest.Prepared?) || (from.Init? && dest.MemDone?)
    requires NoDup(ls.At(from)) && ls.At(from) != [] && ls.At(from)[0] == i
    ensures PipeOf(Relink(ls, i, from, dest)) == PipeOf(ls)
  {
    var s := ls.At(from);
    RemoveHead(s);
    if from.Prepared? {
      assert ls.running + ls.prepared == (ls.running + [i]) + s[1..];
    } else if from.MemDone? {
      assert ls.running + ls.prepared + ls.memdone == ls.running + (ls.prepared + [i]) + s[1..];
    } else {
      assert PipeOf(ls) == ls.running + ls.prepared + (ls.memdone + [i]) + s[1..];
    }
  }

  lemma RemoveHead(s: seq<nat>)
    requires NoDup(s) && s != []
    ensures Remove(s, s[0]) == s[1..] && s == [s[0]] + s[1..]
  {
    NoDupTail(s);
    RemoveAbsent(s[1..], s[0]);
  }

  lemma MovedOrder(c: Core, d: Core, i: nat, r: Sreq)
    requires Shape(c) && StreamsOwned(c) && InOrder(c) && i in c.items
    requires d.items == c.items[i := r]
    requires Pipe(d) == Pipe(c) || Pipe(d) == Remove(Pipe(c), i)
    requires r.streamId == c.items[i].streamId
      || (c.lists.At(MemDone) != [] && c.lists.At(MemDone)[0] == i && !r.state.MemDone?)
    requires r.state.Init? ==> c.items[i].state.Init?
    requires r.state.MemDone? ==> c.items[i].state.Init? || c.items[i].state.MemDone?
    ensures InOrder(d)
  {
    RemoveSorted(Pipe(c), i);
    forall y: nat, z: nat | y in d.items && d.items[y].streamId >= 0 && Waiting(d, z) ensures y < z {
      assert Waiting(c, z);
      if y == i && r.streamId != c.items[i].streamId {
        assert z != i;
        HeadOfMemDoneFirst(c, i, z);
      }
    }
  }

  lemma HeadOfMemDoneFirst(c: Core, i: nat, z: nat)
    requires Shape(c) && Sorted(Pipe(c)) && c.lists.At(MemDone) != [] && c.lists.At(MemDone)[0] == i
    requires Waiting(c, z) && z != i
    ensures i < z
  {
    var a := c.lists.At(Running) + c.lists.At(Prepared);
    var s := c.lists.At(MemDone) + c.lists.At(Init);
    assert Pipe(c) == a + s;
    SortedParts(a, s);
    assert z in c.lists.At(c.items[z].state);
    SortedHead(s, z);
    assert s[0] == i;
  }

  /** A request is on no list but its own. */
  lemma OnOneList(c: Core, i: nat, st: Stage)
    requires Shape(c) && i in c.lists.At(st)
    ensures i in c.items && c.items[i].state == st
    ensures forall q: Stage :: q != st ==> i !in c.lists.At(q)
  {
  }

  lemma PostOrder(c: Core, i: nat, ch: Choice)
    requires Shape(c) && StreamsOwned(c) && InOrder(c) && i in c.lists.At(Running)
    ensures InOrder(PostExecOp(c, i, ch).c)
  {
    var d := PostExecOp(c, i, ch).c;
    OnOneList(c, i, Running);
    if ch.finished {
      PipeDeletes(c.lists, i, Running, d.items[i].state);
      MovedOrder(c, d, i, d.items[i]);
    }
  }

  lemma FinishOrder(c: Core, i: nat, finished: bool)
    requires Shape(c) && StreamsOwned(c) && InOrder(c) && i in c.lists.At(PostExec)
    ensures InOrder(FinishPost(c, i, finished).c)
  {
    var d := FinishPost(c, i, finished).c;
    OnOneList(c, i, PostExec);
    if finished {
      PipeDeletes(c.lists, i, PostExec, Done);
      MovedOrder(c, d, i, d.items[i]);
    }
  }

  lemma LaunchOrder(c: Core, i: nat, code: int)
    requires Shape(c) && StreamsOwned(c) && InOrder(c) && i in c.lists.At(Prepared) && c.lists.At(Prepared)[0] == i
    ensures InOrder(LaunchExec(c, i, code).c)
  {
    var d := LaunchExec(c, i, code).c;
    OnOneList(c, i, Prepared);
    if code != 0 {
      PipeDeletes(c.lists, i, Prepared, Done);
    } else {
      PipeShifts(c.lists, i, Prepared, Running);
    }
    MovedOrder(c, d, i, d.items[i]);
  }

  lemma AllocOrder(c: Core, i: nat)
    requires Shape(c) && StreamsOwned(c) && InOrder(c) && i in c.lists.At(Init) && c.lists.At(Init)[0] == i
    ensures InOrder(RequestAllocMem(c, i, DEVICE_MEM_CODE).c)
  {
    var d := RequestAllocMem(c, i, DEVICE_MEM_CODE).c;
    OnOneList(c, i, Init);
    PipeShifts(c.lists, i, Init, MemDone);
    MovedOrder(c, d, i, d.items[i]);
  }

  lemma PrepareOrder(c: Core, i: nat, code: int)
    requires Shape(c) && StreamsOwned(c) && InOrder(c) && i in c.lists.At(MemDone)
    requires FirstFree(c.streams, 0).Some? ==> c.lists.At(MemDone)[0] == i
    ensures InOrder(PrepareExec(c, i, code).c)
  {
    var d := PrepareExec(c, i, code).c;
    FirstFreeSound(c.streams, 0);
    OnOneList(c, i, MemDone);
    if FirstFree(c.streams, 0).Some? {
      if code != 0 {
        PipeDeletes(c.lists, i, MemDone, Done);
      } else {
        PipeShifts(c.lists, i, MemDone, Prepared);
      }
      assert d.items == c.items[i := d.items[i]];
      MovedOrder(c, d, i, d.items[i]);
    }
  }

  lemma DropOrder(c: Core, i: nat)
    requires InOrder(c) && i in c.items && c.items[i].state.Done?
    ensures InOrder(ServiceDone(c, i).c)
  {
    var d := ServiceDone(c, i).c;
    assert Pipe(d) == Pipe(c);
    forall z: nat | Waiting(d, z) ensures Waiting(c, z) {
    }
  }

  lemma OpOrder(l: Loop, ch: Choice)
    requires Shape(l.c) && StreamsOwned(l.c) && InOrder(l.c) && Cursor(l) && AtNode(l)
    ensures InOrder(Op(l.phase, l.c, l.todo[0], ch).c)
  {
    var c, i := l.c, l.todo[0];
    HeadVisited(l);
    match StageOf(l.phase) {
      case Done => DropOrder(c, i);
      case PostExec => FinishOrder(c, i, ch.finished);
      case Running => PostOrder(c, i, ch);
      case Prepared => LaunchOrder(c, i, ch.code);
      case MemDone => PrepareOrder(c, i, ch.code);
      case Init => AllocOrder(c, i);
    }
  }

  /** In the phases that feed the GPU the visited request is the head of its list: a request behind the
      head of memdone finds no free stream, and the walk over prepared stops after its head. */
  lemma HeadVisited(l: Loop)
    requires Cursor(l) && AtNode(l)
    ensures l.phase == 3 || l.phase == 5 ==> l.c.lists.At(StageOf(l.phase))[0] == l.todo[0]
    ensures l.phase == 4 && FirstFree(l.c.streams, 0).Some? ==> l.c.lists.At(MemDone)[0] == l.todo[0]
  {
    if l.kept == [] {
      assert l.kept + l.todo == l.todo;
    }
  }

  lemma AddOrder(c: Core, id: int, found: bool)
    requires Shape(c) && StreamsOwned(c) && InOrder(c)
    ensures InOrder(InitServiceRequest(c, id, found))
  {
    var t := c.nread;
    var d := InitServiceRequest(c, id, found);
    if found {
      assert Pipe(d) == Pipe(c) + [t];
      forall z: nat | z in Pipe(c) ensures z < t {
        PipeMembers(c, z);
      }
      SortedSnoc(Pipe(c), t);
    } else {
      assert Pipe(d) == Pipe(c);
    }
    forall y: nat, z: nat | y in d.items && d.items[y].streamId >= 0 && Waiting(d, z) ensures y < z {
      assert y != t && y in c.items;
      if z != t {
        assert Waiting(c, z);
      }
    }
  }

  // ----- calls in arrival order -----

  lemma LogSnoc(log: seq<Event>, e: Event)
    ensures Launches(log + [e]) == if e.Launch? then Launches(log) + [e.t] else Launches(log)
    ensures Prepares(log + [e]) == if e.Prepare? then Prepares(log) + [e.t] else Prepares(log)
    ensures Responses(log + [e]) == if e.Respond? then Responses(log) + [e.t] else Responses(log)
  {
    assert (log + [e])[..|log|] == log;
  }

  lemma HeadOfPreparedFirst(c: Core, i: nat, z: nat)
    requires Shape(c) && Sorted(Pipe(c)) && c.lists.At(Prepared) != [] && c.lists.At(Prepared)[0] == i
    requires ToLaunch(c, z) && z != i
    ensures i < z
  {
    var s := c.lists.At(Prepared) + c.lists.At(MemDone) + c.lists.At(Init);
    assert Pipe(c) == c.lists.At(Running) + s;
    SortedParts(c.lists.At(Running), s);
    if Waiting(c, z) {
      assert z in c.lists.At(c.items[z].state);
    }
    SortedHead(s, z);
    assert s[0] == i;
  }

  /** Calls stay in order across a step that lets nothing new wait and records neither call. */
  lemma CallsKept(c: Core, d: Core, e: Event)
    requires CallsInOrder(c) && (d.log == c.log + [e] || d.log == c.log) && !e.Launch? && !e.Prepare?
    requires c.nread <= d.nread
    requires forall z: nat :: Waiting(d, z) ==> Waiting(c, z) || z >= c.nread
    requires forall z: nat :: z in d.lists.prepared ==> ToLaunch(c, z)
    ensures CallsInOrder(d)
  {
    LogSnoc(c.log, e);
    forall x: nat, z: nat | x in Launches(d.log) && ToLaunch(d, z) ensures x < z {
      assert ToLaunch(c, z) || z >= c.nread;
    }
    assert LaunchesInOrder(d);
    forall x: nat, z: nat | x in Prepares(d.log) && Waiting(d, z) ensures x < z {
    }
  }

  lemma LaunchRecorded(c: Core, d: Core, i: nat, code: int)
    requires LaunchesInOrder(c) && d.log == c.log + [Launch(i, code)] && d.nread == c.nread && i < c.nread
    requires ToLaunch(c, i) && forall z: nat :: ToLaunch(d, z) ==> i < z && ToLaunch(c, z)
    ensures LaunchesInOrder(d)
  {
    LogSnoc(c.log, Launch(i, code));
    SortedSnoc(Launches(c.log), i);
  }

  lemma PrepareRecorded(c: Core, d: Core, i: nat, code: int)
    requires PreparesInOrder(c) && d.log == c.log + [Prepare(i, code)] && d.nread == c.nread && i < c.nread
    requires Waiting(c, i) && forall z: nat :: Waiting(d, z) ==> i < z && Waiting(c, z)
    ensures PreparesInOrder(d)
  {
    LogSnoc(c.log, Prepare(i, code));
    SortedSnoc(Prepares(c.log), i);
  }

  lemma LaunchesKept(c: Core, d: Core, e: Event)
    requires LaunchesInOrder(c) && d.log == c.log + [e] && !e.Launch? && d.nread == c.nread
    requires forall z: nat :: ToLaunch(d, z) ==> ToLaunch(c, z)
    ensures LaunchesInOrder(d)
  {
    LogSnoc(c.log, e);
  }

  lemma PreparesKept(c: Core, d: Core, e: Event)
    requires PreparesInOrder(c) && d.log == c.log + [e] && !e.Prepare? && d.nread == c.nread
    requires forall z: nat :: Waiting(d, z) ==> Waiting(c, z)
    ensures PreparesInOrder(d)
  {
    LogSnoc(c.log, e);
  }

  lemma LaunchCalls(c: Core, i: nat, code: int)
    requires Shape(c) && InOrder(c) && CallsInOrder(c) && i in c.lists.At(Prepared) && c.lists.At(Prepared)[0] == i
    ensures CallsInOrder(LaunchExec(c, i, code).c)
  {
    var d := LaunchExec(c, i, code).c;
    OnOneList(c, i, Prepared);
    assert d.lists.prepared == Remove(c.lists.prepared, i);
    RemoveMembers(c.lists.prepared, i);
    forall z: nat | Waiting(d, z) ensures Waiting(c, z) && z != i {
    }
    forall z: nat | ToLaunch(d, z) ensures i < z && ToLaunch(c, z) {
      HeadOfPreparedFirst(c, i, z);
    }
    LaunchRecorded(c, d, i, code);
    PreparesKept(c, d, Launch(i, code));
  }

  /** Of `kh_prepare_exec` with a stream to give, only the lists and records matter for the order of calls. */
  lemma PreparedCalls(c: Core, d: Core, i: nat, code: int)
    requires Shape(c) && InOrder(c) && CallsInOrder(c) && c.lists.At(MemDone) != [] && c.lists.At(MemDone)[0] == i
    requires i in c.items && c.items[i].state.MemDone? && i < c.nread
    requires d.log == c.log + [Prepare(i, code)] && d.nread == c.nread
    requires i in d.items && d.items == c.items[i := d.items[i]] && !Waiting(d, i)
    requires d.lists.prepared == c.lists.prepared || d.lists.prepared == c.lists.prepared + [i]
    ensures CallsInOrder(d)
  {
    forall z: nat | Waiting(d, z) ensures i < z && Waiting(c, z) {
      assert z != i;
      HeadOfMemDoneFirst(c, i, z);
    }
    assert Waiting(c, i);
    PrepareRecorded(c, d, i, code);
    LaunchesKept(c, d, Prepare(i, code));
  }

  lemma PrepareCalls(c: Core, i: nat, code: int)
    requires Shape(c) && InOrder(c) && CallsInOrder(c) && i in c.lists.At(MemDone)
    requires FirstFree(c.streams, 0).Some? ==> c.lists.At(MemDone)[0] == i
    ensures CallsInOrder(PrepareExec(c, i, code).c)
  {
    FirstFreeSound(c.streams, 0);
    OnOneList(c, i, MemDone);
    if FirstFree(c.streams, 0).Some? {
      PreparedCalls(c, PrepareExec(c, i, code).c, i, code);
    }
  }

  /** Calls stay in order when a request is answered. */
  lemma DoneCalls(c: Core, i: nat)
    requires CallsInOrder(c) && i in c.items && c.items[i].state.Done?
    ensures CallsInOrder(ServiceDone(c, i).c)
  {
    CallsKept(c, ServiceDone(c, i).c, Respond(i, c.items[i].id, c.items[i].errcode));
  }

  lemma FinishCalls(c: Core, i: nat, finished: bool)
    requires CallsInOrder(c) && i in c.items && c.items[i].state.PostExec?
    ensures CallsInOrder(FinishPost(c, i, finished).c)
  {
    CallsKept(c, FinishPost(c, i, finished).c, Lookup(i, true));
  }

  lemma PostCalls(c: Core, i: nat, ch: Choice)
    requires CallsInOrder(c) && i in c.items && c.items[i].state.Running?
    ensures CallsInOrder(PostExecOp(c, i, ch).c)
  {
    CallsKept(c, PostExecOp(c, i, ch).c, Post(i, ch.code));
  }

  lemma AllocCalls(c: Core, i: nat)
    requires CallsInOrder(c) && i in c.items && c.items[i].state.Init?
    ensures CallsInOrder(RequestAllocMem(c, i, DEVICE_MEM_CODE).c)
  {
    CallsKept(c, RequestAllocMem(c, i, DEVICE_MEM_CODE).c, Lookup(i, true));
  }

  lemma OpCalls(phase: nat, c: Core, i: nat, ch: Choice)
    requires phase < 6 && Shape(c) && InOrder(c) && CallsInOrder(c)
    requires i in c.lists.At(StageOf(phase)) && i in c.items && c.items[i].state == StageOf(phase)
    requires phase == 3 ==> c.lists.At(Prepared)[0] == i
    requires phase == 4 && FirstFree(c.streams, 0).Some? ==> c.lists.At(MemDone)[0] == i
    ensures CallsInOrder(Op(phase, c, i, ch).c)
  {
    match phase
    case 0 => DoneCalls(c, i);
    case 1 => FinishCalls(c, i, ch.finished);
    case 2 => PostCalls(c, i, ch);
    case 3 => LaunchCalls(c, i, ch.code);
    case 4 => PrepareCalls(c, i, ch.code);
    case _ => AllocCalls(c, i);
  }

  lemma AddCalls(c: Core, id: int, found: bool)
    requires Shape(c) && CallsInOrder(c)
    ensures CallsInOrder(InitServiceRequest(c, id, found))
  {
    var d := InitServiceRequest(c, id, found);
    CallsKept(c, d, Lookup(c.nread, found));
  }

  // ----- error codes -----

  lemma VerdictSnoc(log: seq<Event>, e: Event, t: nat)
    ensures Verdict(log + [e], t) ==
      match e
      case Lookup(u, found) => if u == t && !found then KGPU_NO_SERVICE else Verdict(log, t)
      case Prepare(u, code) => if u == t && code != 0 then code else Verdict(log, t)
      case Launch(u, code) => if u == t && code != 0 then code else Verdict(log, t)
      case Post(u, code) => if u == t && code != 0 then code else Verdict(log, t)
      case Respond(_, _, _) => Verdict(log, t)
  {
    assert (log + [e])[..|log|] == log;
  }

  lemma EarnedMonotone(log: seq<Event>, e: Event, t: nat, st: Stage)
    requires Earned(log, t, st)
    ensures Earned(log + [e], t, st)
  {
  }

  /** One event, one changed record. */
  lemma CodesStep(c: Core, d: Core, e: Event, i: nat)
    requires CodesEarned(c) && (d.log == c.log + [e] || d.log == c.log) && d.nread == c.nread
    requires e.t == i && i < c.nread
    requires forall x: nat :: x in d.items && x != i ==> x in c.items && d.items[x] == c.items[x]
    requires i in d.items ==>
      && d.items[i].errcode == Verdict(d.log, i)
      && (d.items[i].errcode == 0 ==> Earned(d.log, i, d.items[i].state))
      && (d.items[i].errcode != 0 ==> d.items[i].state.Done?)
    ensures CodesEarned(d)
  {
    forall x: nat | x != i ensures Verdict(d.log, x) == Verdict(c.log, x) {
      VerdictSnoc(c.log, e, x);
    }
    forall x: nat | x in d.items && x != i && d.items[x].errcode == 0
      ensures Earned(d.log, x, d.items[x].state)
    {
      EarnedMonotone(c.log, e, x, d.items[x].state);
    }
  }

  /** The call that takes a request from one stage to the next. */
  predicate Advances(e: Event, from: Stage, dest: Stage) {
    || (e.Prepare? && from.MemDone? && dest.Prepared?)
    || (e.Launch? && from.Prepared? && dest.Running?)
    || (e.Post? && from.Running? && dest.PostExec?)
  }

  /** A service call on request `i`: a failure is recorded and ends in done, a success moves it on. */
  lemma CallCodes(c: Core, d: Core, e: Event, i: nat, code: int, dest: Stage)
    requires CodesEarned(c) && i in c.items && i < c.nread && Advances(e, c.items[i].state, dest)
    requires e.t == i && e.code == code && d.log == c.log + [e] && d.nread == c.nread
    requires i in d.items && d.items == c.items[i := d.items[i]]
    requires d.items[i].errcode == (if code != 0 then code else c.items[i].errcode)
    requires d.items[i].state == if code != 0 then Done else dest
    ensures CodesEarned(d)
  {
    VerdictSnoc(c.log, e, i);
    assert c.items[i].errcode == 0 && Earned(c.log, i, c.items[i].state);
    EarnedMonotone(c.log, e, i, c.items[i].state);
    assert code == 0 ==> e in d.log;
    CodesStep(c, d, e, i);
  }

  lemma PostCodes(c: Core, i: nat, ch: Choice)
    requires CodesEarned(c) && i in c.items && i < c.nread && c.items[i].state.Running?
    ensures CodesEarned(PostExecOp(c, i, ch).c)
  {
    if ch.finished {
      CallCodes(c, PostExecOp(c, i, ch).c, Post(i, ch.code), i, ch.code, PostExec);
    }
  }

  lemma LaunchCodes(c: Core, i: nat, code: int)
    requires CodesEarned(c) && i in c.items && i < c.nread && c.items[i].state.Prepared?
    ensures CodesEarned(LaunchExec(c, i, code).c)
  {
    CallCodes(c, LaunchExec(c, i, code).c, Launch(i, code), i, code, Running);
  }

  lemma PrepareCodes(c: Core, i: nat, code: int)
    requires CodesEarned(c) && i in c.items && i < c.nread && c.items[i].state.MemDone?
    ensures CodesEarned(PrepareExec(c, i, code).c)
  {
    FirstFreeSound(c.streams, 0);
    if FirstFree(c.streams, 0).Some? {
      CallCodes(c, PrepareExec(c, i, code).c, Prepare(i, code), i, code, Prepared);
    }
  }

  lemma DoneCodes(c: Core, i: nat)
    requires CodesEarned(c) && i in c.items && i < c.nread
    ensures CodesEarned(ServiceDone(c, i).c)
  {
    CodesStep(c, ServiceDone(c, i).c, Respond(i, c.items[i].id, c.items[i].errcode), i);
  }

  /** A move without a service call. */
  lemma MoveCodes(c: Core, i: nat, dest: Stage)
    requires CodesEarned(c) && i in c.items && i < c.nread
    requires (c.items[i].state.Init? && dest.MemDone?) || (c.items[i].state.PostExec? && dest.Done?)
    ensures CodesEarned(Move(c, i, c.items[i].(state := dest)))
  {
    CodesStep(c, Move(c, i, c.items[i].(state := dest)), Lookup(i, true), i);
  }

  lemma OpCodes(phase: nat, c: Core, i: nat, ch: Choice)
    requires phase < 6 && CodesEarned(c) && i in c.items && i < c.nread && c.items[i].state == StageOf(phase)
    ensures CodesEarned(Op(phase, c, i, ch).c)
  {
    match phase
    case 0 => DoneCodes(c, i);
    case 1 => MoveCodes(c, i, Done);
    case 2 => PostCodes(c, i, ch);
    case 3 => LaunchCodes(c, i, ch.code);
    case 4 => PrepareCodes(c, i, ch.code);
    case _ => MoveCodes(c, i, MemDone);
  }

  lemma AddCodes(c: Core, id: int, found: bool)
    requires Shape(c) && CodesEarned(c)
    ensures CodesEarned(InitServiceRequest(c, id, found))
  {
    var t := c.nread;
    var d := InitServiceRequest(c, id, found);
    var e := Lookup(t, found);
    VerdictSnoc(c.log, e, t);
    forall x: nat | x != t ensures Verdict(d.log, x) == Verdict(c.log, x) {
      VerdictSnoc(c.log, e, x);
    }
    forall x: nat | x in d.items && d.items[x].errcode == 0 ensures Earned(d.log, x, d.items[x].state) {
      if x != t {
        EarnedMonotone(c.log, e, x, d.items[x].state);
      }
    }
  }

  // ----- answers -----

  lemma {:induction false} AnswerListed(log: seq<Event>, k: nat)
    requires k < |log| && log[k].Respond?
    ensures log[k].t in Responses(log)
  {
    var n := |log| - 1;
    if k < n {
      AnswerListed(log[..n], k);
    }
  }

  /** Later events about other requests leave an answer earned. */
  lemma AnswerStands(log: seq<Event>, e: Event, k: nat)
    requires k < |log| && AnswerEarned(log, k) && e.t !in Responses(log)
    ensures AnswerEarned(log + [e], k)
  {
    assert (log + [e])[..k] == log[..k];
    if log[k].Respond? {
      AnswerListed(log, k);
      VerdictSnoc(log, e, log[k].t);
    }
  }

  lemma AnswersStep(c: Core, d: Core, e: Event)
    requires AnswersEarned(c) && (d.log == c.log + [e] || d.log == c.log)
    requires !e.Respond? && c.nread <= d.nread && (e.t in c.items || e.t >= c.nread)
    requires forall x: nat :: x < d.nread && x !in d.items <==> x < c.nread && x !in c.items
    ensures AnswersEarned(d)
  {
    LogSnoc(c.log, e);
    forall k | 0 <= k < |d.log| ensures AnswerEarned(d.log, k) {
      if k < |c.log| {
        AnswerStands(c.log, e, k);
      }
    }
  }

  lemma RespondAnswers(c: Core, i: nat)
    requires Shape(c) && CodesEarned(c) && AnswersEarned(c) && i in c.items && c.items[i].state.Done?
    ensures AnswersEarned(ServiceDone(c, i).c)
  {
    var d := ServiceDone(c, i).c;
    var e := Respond(i, c.items[i].id, c.items[i].errcode);
    LogSnoc(c.log, e);
    NoDupSnoc(Responses(c.log), i);
    forall k | 0 <= k < |d.log| ensures AnswerEarned(d.log, k) {
      if k < |c.log| {
        AnswerStands(c.log, e, k);
      } else {
        assert d.log[..k] == c.log;
        VerdictSnoc(c.log, e, i);
      }
    }
  }

  /** A step that answers nobody and changes one record. */
  lemma QuietAnswers(c: Core, d: Core, e: Event, i: nat)
    requires AnswersEarned(c) && !e.Respond? && (d.log == c.log + [e] || d.log == c.log) && d.nread == c.nread
    requires e.t == i && i in c.items && i in d.items && d.items == c.items[i := d.items[i]]
    ensures AnswersEarned(d)
  {
    AnswersStep(c, d, e);
  }

  /** The event a stage operation may record. */
  function EventOf(phase: nat, i: nat, code: int): Event {
    if phase == 2 then Post(i, code) else if phase == 3 then Launch(i, code) else Prepare(i, code)
  }

  /** What a stage operation other than the last does to the records. */
  lemma OpRecords(phase: nat, c: Core, i: nat, ch: Choice)
    requires 0 < phase < 6 && i in c.items
    ensures var d := Op(phase, c, i, ch).c;
      && (d.log == c.log || d.log == c.log + [EventOf(phase, i, ch.code)]) && d.nread == c.nread && d.all == c.all
      && i in d.items && d.items == c.items[i := d.items[i]] && d.items[i].id == c.items[i].id
  {
    FirstFreeSound(c.streams, 0);
  }

  lemma OpAnswers(phase: nat, c: Core, i: nat, ch: Choice)
    requires phase < 6 && Shape(c) && CodesEarned(c) && AnswersEarned(c)
    requires i in c.items && c.items[i].state == StageOf(phase)
    ensures AnswersEarned(Op(phase, c, i, ch).c)
  {
    if phase == 0 {
      RespondAnswers(c, i);
    } else {
      OpRecords(phase, c, i, ch);
      QuietAnswers(c, Op(phase, c, i, ch).c, EventOf(phase, i, ch.code), i);
    }
  }

  lemma AddAnswers(c: Core, id: int, found: bool)
    requires Shape(c) && AnswersEarned(c)
    ensures AnswersEarned(InitServiceRequest(c, id, found))
  {
    AnswersStep(c, InitServiceRequest(c, id, found), Lookup(c.nread, found));
  }

  // ----- the walk -----

  /** Unlinking the visited node. */
  lemma RemoveVisited(kept: seq<nat>, todo: seq<nat>)
    requires NoDup(kept + todo) && todo != []
    ensures Remove(kept + todo, todo[0]) == kept + todo[1..]
  {
    var list := kept + todo;
    assert list[|kept|] == todo[0];
    SplitAt(list, |kept|);
    assert list[..|kept|] == kept;
    assert list[|kept| + 1..] == todo[1..];
  }

  /** What a stage operation leaves on the list of its phase. */
  lemma OpLeaves(phase: nat, c: Core, i: nat, ch: Choice, leaves: bool)
    requires phase < 6 && i in c.items && c.items[i].state == StageOf(phase)
    requires leaves == Leaves(Loop(c, phase, [], [i]), ch)
    ensures Op(phase, c, i, ch).c.lists.At(StageOf(phase))
         == if leaves then Remove(c.lists.At(StageOf(phase)), i) else c.lists.At(StageOf(phase))
  {
    FirstFreeSound(c.streams, 0);
  }

  lemma OpList(l: Loop, ch: Choice)
    requires Shape(l.c) && AtNode(l) && Cursor(l)
    ensures var d := Op(l.phase, l.c, l.todo[0], ch).c;
      d.lists.At(StageOf(l.phase)) == if Leaves(l, ch) then l.kept + l.todo[1..] else l.kept + l.todo
  {
    OpLeaves(l.phase, l.c, l.todo[0], ch, Leaves(l, ch));
    RemoveVisited(l.kept, l.todo);
  }

  /** A walk over memdone gets past its first node only with every stream taken. */
  lemma StreamsStayTaken(l: Loop, ch: Choice)
    requires l.phase == 4 && AtNode(l) && l.todo[0] in l.c.items
    requires l.kept != [] ==> FirstFree(l.c.streams, 0).None?
    ensures !Leaves(l, ch) ==> Op(l.phase, l.c, l.todo[0], ch).c == l.c && FirstFree(l.c.streams, 0).None?
    ensures Leaves(l, ch) ==> l.kept == []
  {
  }

  /** Where the walk is after a visit, given the list it leaves. */
  lemma CursorAfter(l: Loop, m: Loop, leaves: bool, stop: bool)
    requires l.phase < 6 && Cursor(l) && l.todo != [] && m.phase == l.phase
    requires m.c.lists.At(StageOf(l.phase)) == if leaves then l.kept + l.todo[1..] else l.kept + l.todo
    requires var kept := if leaves then l.kept else l.kept + [l.todo[0]];
      if stop then m.kept == kept + l.todo[1..] && m.todo == [] else m.kept == kept && m.todo == l.todo[1..]
    requires l.phase == 0 || l.phase == 5 ==> leaves && !stop
    requires l.phase == 3 ==> stop
    requires l.phase == 4 && !leaves ==> FirstFree(m.c.streams, 0).None?
    requires l.phase == 4 && leaves ==> l.kept == []
    ensures Cursor(m)
  {
    assert l.kept + l.todo == l.kept + [l.todo[0]] + l.todo[1..];
  }

  /** What each phase does with the request it visits, whatever the answers. */
  lemma PhaseFacts(phase: nat, c: Core, i: nat, ch: Choice)
    requires phase < 6 && i in c.items
    ensures phase == 3 ==> Op(phase, c, i, ch).r == 0
    ensures phase == 0 || phase == 3 || phase == 5 ==> Leaves(Loop(c, phase, [], [i]), ch)
  {
  }

  lemma VisitParts(l: Loop, ch: Choice, leaves: bool, stop: bool)
    requires l.phase < 6 && l.todo != [] && l.todo[0] in l.c.items && leaves == Leaves(l, ch)
    requires stop == (Op(l.phase, l.c, l.todo[0], ch).r == 0 && Once(l.phase))
    ensures Visit(l, ch).phase == l.phase && Visit(l, ch).c == Op(l.phase, l.c, l.todo[0], ch).c
    ensures var kept := if leaves then l.kept else l.kept + [l.todo[0]];
      if stop then Visit(l, ch).kept == kept + l.todo[1..] && Visit(l, ch).todo == []
      else Visit(l, ch).kept == kept && Visit(l, ch).todo == l.todo[1..]
  {
  }

  lemma VisitCursor(l: Loop, ch: Choice)
    requires Shape(l.c) && Cursor(l) && AtNode(l)
    ensures Cursor(Visit(l, ch))
  {
    var leaves, stop := Leaves(l, ch), Op(l.phase, l.c, l.todo[0], ch).r == 0 && Once(l.phase);
    OpList(l, ch);
    VisitParts(l, ch, leaves, stop);
    PhaseFacts(l.phase, l.c, l.todo[0], ch);
    if l.phase == 4 {
      StreamsStayTaken(l, ch);
    }
    CursorAfter(l, Visit(l, ch), leaves, stop);
  }

  lemma StepAtNode(l: Loop)
    requires Shape(l.c) && Cursor(l) && l.phase < 6 && l.todo != []
    ensures AtNode(l) && l.todo[0] in l.c.items
  {
    var list := l.c.lists.At(StageOf(l.phase));
    assert l.todo[0] == list[|l.kept|];
  }

  lemma Seal(l: Loop)
    requires CoreInv(l.c) && Cursor(l)
    ensures Inv(l)
  {
    if l.phase < 6 && l.todo != [] {
      StepAtNode(l);
    }
  }

  /** One stage operation on the next node keeps every invariant of the data. */
  lemma OpKeepsCore(l: Loop, ch: Choice)
    requires CoreInv(l.c) && Cursor(l) && AtNode(l) && l.todo[0] in l.c.items
    ensures CoreInv(Op(l.phase, l.c, l.todo[0], ch).c)
  {
    var c, i := l.c, l.todo[0];
    OnOneList(c, i, StageOf(l.phase));
    HeadVisited(l);
    OpShape(l.phase, c, i, ch);
    OpStreams(l.phase, c, i, ch);
    OpOrder(l, ch);
    OpCalls(l.phase, c, i, ch);
    OpCodes(l.phase, c, i, ch);
    OpAnswers(l.phase, c, i, ch);
  }

  /** One visit keeps every invariant. */
  lemma VisitKeepsInv(l: Loop, ch: Choice)
    requires Inv(l) && l.todo != []
    ensures Inv(Visit(l, ch))
  {
    Open(l);
    StepAtNode(l);
    OpKeepsCore(l, ch);
    VisitCursor(l, ch);
    Seal(Visit(l, ch));
  }

  lemma AdvanceKeepsInv(l: Loop)
    requires Inv(l) && l.phase < 6
    ensures Inv(Advance(l))
  {
    Open(l);
    Seal(Advance(l));
  }

  lemma AddKeepsInv(c: Core, id: int, found: bool)
    requires CoreInv(c)
    ensures CoreInv(InitServiceRequest(c, id, found))
  {
    AddShape(c, id, found);
    AddOwned(c, id, found);
    AddOrder(c, id, found);
    AddCalls(c, id, found);
    AddCodes(c, id, found);
    AddAnswers(c, id, found);
  }

  /** A pass starts at the head of the done list. */
  lemma SealStart(c: Core)
    requires CoreInv(c)
    ensures Inv(Loop(c, 0, [], c.lists.At(Done)))
  {
    var m := Loop(c, 0, [], c.lists.At(Done));
    assert [] + m.todo == m.todo;
    Seal(m);
  }

  lemma PollKeepsInv(l: Loop, a: Option<Arrival>)
    requires Inv(l) && l.phase == 6
    ensures Inv(Poll(l, a))
  {
    Open(l);
    if a.Some? {
      AddKeepsInv(l.c, a.value.id, a.value.found);
    }
    SealStart(Poll(l, a).c);
  }

  lemma StartShape()
    ensures Shape(START)
  {
  }

  lemma StartQuiet()
    ensures StreamsOwned(START) && CodesEarned(START) && AnswersEarned(START)
  {
  }

  lemma StartOrder()
    ensures InOrder(START) && CallsInOrder(START)
  {
    assert Pipe(START) == [];
  }

  lemma BootInv()
    ensures Inv(BOOT)
  {
    StartShape();
    StartQuiet();
    StartOrder();
    Seal(BOOT);
  }
}
