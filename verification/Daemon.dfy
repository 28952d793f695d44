/** The helper program itself: `helper.c` with its stage lists as intrusive rings on the heap, its stream
    table as an array, and its walks over the rings while the visited node is being relinked.  Every
    operation is proved against the corresponding function of `HelperModel`, and a run of the main loop
    against the passes of `Liveness`. */
module Daemon {
  import opened Options
  import opened Seqs
  import opened LinkedLists
  import opened HelperModel
  import opened HelperInvariants
  import opened Liveness
  import opened DeviceMemory
  import opened RequestRings
  import opened PinLedger
  import opened PinRanges
  import opened Words

  ghost predicate FitsTogether(c: Core, w: World) {
    && w.lists == c.lists && w.all == c.all && w.nodes.Keys == c.items.Keys
    && w.Sound() && Shape(c)
  }

  /** Mentioning the key of a pair opens `Fits` for it. */
  predicate FitKey(c: Core, w: World, u: int) {
    true
  }

  /** The rings `w` hold the requests of `c`, each on the ring its state names. */
  ghost predicate Fits(c: Core, w: World) {
    && (forall i: nat :: i in c.items ==> i in w.nodes && i in w.gnodes)
    && forall u {:trigger FitKey(c, w, u)} :: FitKey(c, w, u) ==> FitsTogether(c, w)
  }

  lemma FitsFrom(c: Core, w: World)
    requires w.lists == c.lists && w.all == c.all && w.nodes.Keys == c.items.Keys
    requires w.Named() && w.Nodes() && Shape(c)
    ensures Fits(c, w)
  {
    forall st: Stage, q: Stage, e: nat | e in w.lists.At(st) && e in w.lists.At(q) ensures st == q {
      assert c.items[e].state == st;
    }
    assert w.Separate();
  }

  lemma FitsParts(c: Core, w: World)
    requires Fits(c, w)
    ensures w.lists == c.lists && w.all == c.all && w.nodes.Keys == c.items.Keys && w.Solid() && Shape(c)
  {
    assert FitKey(c, w, 0);
  }

  /** Rings that fit one state fit another with the same lists and the same requests. */
  lemma FitsAgain(c: Core, d: Core, w: World)
    requires Fits(c, w) && Shape(d) && d.lists == c.lists && d.all == c.all && d.items.Keys == c.items.Keys
    ensures Fits(d, w)
  {
    assert FitKey(c, w, 0);
    FitsFrom(d, w);
  }

  lemma MoveFits(c: Core, w: World, i: nat, r: Sreq) returns (k: nat)
    requires Fits(c, w) && i in c.items && r.state != c.items[i].state
    ensures w.Solid() && Place(w, i, c.items[i].state, k) && i in w.nodes
    ensures Fits(Move(c, i, r), Moved(w, i, c.items[i].state, r.state, k))
  {
    assert FitKey(c, w, 0);
    var st := c.items[i].state;
    k := IndexOf(c.lists.At(st), i);
    ChainHead(w.rings.At(st), w.hs.At(st), w.nodes, w.lists.At(st));
    MovedNamed(w, i, st, r.state, k);
    MoveShape(c, i, r);
    var v := Moved(w, i, st, r.state, k);
    assert v.Nodes();
    FitsFrom(Move(c, i, r), v);
  }

  /** The rings `v` belong to the same nodes as `w` and hold the requests of `d`. */
  ghost predicate Follows(d: Core, v: World, w: World) {
    && v.lists == d.lists && v.all == d.all && v.hs == w.hs && Fits(d, v)
  }

  method MoveNode(node: Node, head: Node, ghost c: Core, ghost w: World, ghost repr: set<Node>,
                  ghost i: nat, ghost r: Sreq)
    returns (ghost v: World)
    requires Fits(c, w) && Spun(w, repr) && i in c.items && r.state != c.items[i].state
    requires node == w.nodes[i] && head == w.hs.At(r.state)
    modifies repr
    ensures Follows(Move(c, i, r), v, w) && v.nodes == w.nodes && v.gnodes == w.gnodes && Spun(v, repr)
  {
    ghost var from := c.items[i].state;
    ghost var k := MoveFits(c, w, i, r);
    RelinkNode(node, head, w, repr, i, from, r.state, k);
    v := Moved(w, i, from, r.state, k);
    assert v.lists == Move(c, i, r).lists && v.all == c.all by {
      assert FitKey(c, w, 0);
    }
  }

  lemma DropFits(c: Core, w: World, i: nat) returns (k: nat, g: nat)
    requires Fits(c, w) && i in c.items
    ensures w.Solid() && Placed(w, i, c.items[i].state, k, g)
    ensures Fits(ServiceDone(c, i).c, Dropped(w, i, c.items[i].state, k, g))
  {
    assert FitKey(c, w, 0);
    var st := c.items[i].state;
    k := IndexOf(c.lists.At(st), i);
    g := IndexOf(c.all, i);
    ChainHead(w.rings.At(st), w.hs.At(st), w.nodes, w.lists.At(st));
    ChainHead(w.rings.all, w.hs.all, w.gnodes, w.all);
    SortedNoDup(c.all);
    DroppedNamed(w, i, st, k, g);
    DropShape(c, i);
    var v := Dropped(w, i, st, k, g);
    assert v.Nodes();
    FitsFrom(ServiceDone(c, i).c, v);
  }

  method DropNode(node: Node, gnode: Node, ghost c: Core, ghost w: World, ghost repr: set<Node>, ghost i: nat)
    returns (ghost v: World)
    requires Fits(c, w) && Spun(w, repr) && i in c.items
    requires node == w.nodes[i] && gnode == w.gnodes[i]
    modifies repr
    ensures Follows(ServiceDone(c, i).c, v, w) && v.nodes == w.nodes - {i} && v.gnodes == w.gnodes - {i}
    ensures Spun(v, repr)
  {
    ghost var k, g := DropFits(c, w, i);
    DropNodes(node, gnode, w, repr, i, c.items[i].state, k, g);
    v := Dropped(w, i, c.items[i].state, k, g);
    assert v.lists == ServiceDone(c, i).c.lists && v.all == ServiceDone(c, i).c.all by {
      assert FitKey(c, w, 0);
    }
  }

  lemma NewUnused(c: Core, w: World, node: Node, gnode: Node)
    requires Fits(c, w) && node.entry == gnode.entry == c.nread && !node.head && !gnode.head && node != gnode
    ensures w.Sound() && Unused(w, c.nread, node, gnode)
  {
    assert FitKey(c, w, 0);
    assert c.nread !in c.items;
  }

  lemma AddFits(c: Core, w: World, id: int, found: bool, node: Node, gnode: Node)
    requires Fits(c, w) && node.entry == gnode.entry == c.nread && !node.head && !gnode.head && node != gnode
    ensures w.Solid()
    ensures Fits(InitServiceRequest(c, id, found), Added(w, c.nread, node, gnode, if found then Init else Done))
  {
    var t, dest := c.nread, if found then Init else Done;
    var v := Added(w, t, node, gnode, dest);
    FitsParts(c, w);
    NewUnused(c, w, node, gnode);
    AddedNamed(w, t, node, gnode, dest);
    AddShape(c, id, found);
    AddedFits(c, InitServiceRequest(c, id, found), w, v, t);
  }

  lemma AddedFits(c: Core, d: Core, w: World, v: World, t: nat)
    requires w.lists == c.lists && w.all == c.all && w.nodes.Keys == c.items.Keys
    requires v.lists == d.lists && v.all == d.all && v.nodes.Keys == w.nodes.Keys + {t}
    requires d.items.Keys == c.items.Keys + {t} && v.Named() && v.Nodes() && Shape(d)
    ensures Fits(d, v)
  {
    FitsFrom(d, v);
  }

  /** Allocate the two list nodes of request `t` and link them. */
  method LinkNode(hs: Heads, t: nat, ghost id: int, found: bool, ghost c: Core, ghost w: World, ghost repr: set<Node>)
    returns (node: Node, gnode: Node, ghost v: World, ghost held: set<Node>)
    requires Fits(c, w) && Spun(w, repr) && hs == w.hs && t == c.nread
    modifies repr
    ensures Follows(InitServiceRequest(c, id, found), v, w)
    ensures v.nodes == w.nodes[t := node] && v.gnodes == w.gnodes[t := gnode]
    ensures Spun(v, held) && held == repr + {node, gnode} && fresh(node) && fresh(gnode)
  {
    node := new Node(t, false);
    gnode := new Node(t, false);
    Alone(node);
    AddFits(c, w, id, found, node, gnode);
    FreshLoose(w, repr, node);
    FreshLoose(w, repr, gnode);
    AddNodes(node, gnode, hs, found, w, repr, t);
    held := repr + {node, gnode};
    v := Added(w, t, node, gnode, if found then Init else Done);
    assert v.lists == InitServiceRequest(c, id, found).lists && v.all == InitServiceRequest(c, id, found).all by {
      assert FitKey(c, w, 0);
    }
  }

  lemma FreshLoose(w: World, repr: set<Node>, x: Node)
    requires Spun(w, repr) && x !in repr
    ensures Loose(w, x)
  {
    assert w.Key(0);
  }

  lemma LogFits(c: Core, w: World, e: Event)
    requires Fits(c, w)
    ensures Fits(c.(log := c.log + [e]), w)
  {
    assert FitKey(c, w, 0);
    LogShape(c, e);
    FitsFrom(c.(log := c.log + [e]), w);
  }

  /** What `gpu_alloc_stream` writes when stream `k` is the first free one. */
  ghost function HoldStream(c: Core, i: nat, k: nat): Core
    requires i in c.items && k < |c.streams|
  {
    c.(streams := c.streams[k := true], items := c.items[i := c.items[i].(streamId := k)])
  }

  ghost function AfterPrepare(c: Core, i: nat, code: int): Core
    requires i in c.items
  {
    var c1 := c.(log := c.log + [Prepare(i, code)]);
    if code != 0 then FailRequest(c1, i, code) else Move(c1, i, c1.items[i].(state := Prepared))
  }

  lemma PreparedIs(c: Core, i: nat, code: int)
    requires i in c.items && FirstFree(c.streams, 0).Some? && FirstFree(c.streams, 0).value < |c.streams|
    ensures PrepareExec(c, i, code)
         == OpOut(AfterPrepare(HoldStream(c, i, FirstFree(c.streams, 0).value), i, code), code)
  {
  }

  lemma HoldFits(c: Core, w: World, i: nat, k: nat)
    requires Fits(c, w) && i in c.items && k < |c.streams|
    ensures Fits(HoldStream(c, i, k), w)
  {
    var d := HoldStream(c, i, k);
    FitsParts(c, w);
    RecordedShape(c, d, i, d.items[i]);
    FitsAgain(c, d, w);
  }

  /** The search of `gpu_alloc_stream`: the lowest free stream, or the number of streams. */
  method FindStream(uses: array<bool>) returns (k: nat)
    requires uses.Length == MAX_STREAM_NR
    ensures k <= MAX_STREAM_NR
    ensures (forall j :: 0 <= j < k ==> uses[j]) && (k < MAX_STREAM_NR ==> !uses[k])
    ensures FirstFree(uses[..], 0) == if k < MAX_STREAM_NR then Some(k) else None
  {
    k := 0;
    while k < MAX_STREAM_NR && uses[k]
      invariant 0 <= k <= MAX_STREAM_NR
      invariant forall j :: 0 <= j < k ==> uses[j]
      invariant FirstFree(uses[..], 0) == FirstFree(uses[..], k)
    {
      k := k + 1;
    }
  }

  /** `gpu_free_stream`. */
  method GpuFreeStream(uses: array<bool>, sid: int)
    requires uses.Length == MAX_STREAM_NR
    modifies uses
    ensures uses[..] == FreeStream(old(uses[..]), sid)
  {
    if 0 <= sid < MAX_STREAM_NR {
      uses[sid] := false;
    }
  }

  /** The rings of a helper that has read nothing. */
  ghost function StartWorld(hs: Heads): World {
    World(hs, map[], map[], Lists([], [], [], [], [], []), [],
          Rings([hs.init], [hs.memdone], [hs.prepared], [hs.running], [hs.postExec], [hs.done], [hs.all]))
  }

  lemma StartFits(hs: Heads)
    requires hs.Apart()
    ensures Fits(START, StartWorld(hs))
  {
    BootInv();
    Open(BOOT);
    assert StartWorld(hs).Named() && StartWorld(hs).Nodes();
    FitsFrom(START, StartWorld(hs));
  }

  lemma StartSpun(hs: Heads, repr: set<Node>)
    requires forall st: Stage :: hs.At(st) in repr && hs.At(st).next == hs.At(st) && hs.At(st).prev == hs.At(st)
    requires hs.all in repr && hs.all.next == hs.all && hs.all.prev == hs.all
    ensures Spun(StartWorld(hs), repr)
  {
    forall st: Stage ensures StartWorld(hs).rings.At(st) == [hs.At(st)] && Cycle([hs.At(st)]) {
      Alone(hs.At(st));
    }
    Alone(hs.all);
  }

  /** `INIT_LIST_HEAD` of the seven lists. */
  method NewHeads() returns (hs: Heads, ghost repr: set<Node>)
    ensures fresh(repr) && hs.Apart() && Spun(StartWorld(hs), repr)
  {
    var init := new Node(0, true);
    var memdone := new Node(0, true);
    var prepared := new Node(0, true);
    var running := new Node(0, true);
    var postExec := new Node(0, true);
    var done := new Node(0, true);
    var all := new Node(0, true);
    hs := Heads(init, memdone, prepared, running, postExec, done, all);
    repr := {init, memdone, prepared, running, postExec, done, all};
    StartSpun(hs, repr);
  }

  /** The node a walk over the list of stage `st` is at when `s` is left to visit. */
  ghost function Cell(w: World, st: Stage, s: seq<nat>): Node {
    if s != [] && s[0] in w.nodes then w.nodes[s[0]] else w.hs.At(st)
  }

  /** A walk about to start. */
  ghost predicate Walk(l: Loop, phase: nat) {
    Inv(l) && l.phase == phase && l.kept == []
  }

  lemma RingLinks(ring: seq<Node>, h: Node, m: map<nat, Node>, s: seq<nat>, k: nat)
    requires Cycle(ring) && Chain(ring, h, m, s) && k <= |s|
    ensures k < |s| ==> s[k] in m
    ensures k == 0 ==> h.next == (if k < |s| then m[s[k]] else h)
    ensures k > 0 ==> s[k - 1] in m && m[s[k - 1]].next == (if k < |s| then m[s[k]] else h)
  {
    assert Peek(0);
    assert Joined(ring, k, NextOf(k, |ring|));
  }

  /** The links of a stage ring, seen from the list of requests it holds. */
  lemma CellLinks(c: Core, w: World, repr: set<Node>, st: Stage, k: nat)
    requires Fits(c, w) && Spun(w, repr) && k <= |c.lists.At(st)|
    ensures k == 0 ==> w.hs.At(st).next == Cell(w, st, c.lists.At(st))
    ensures k > 0 ==>
      c.lists.At(st)[k - 1] in w.nodes && w.nodes[c.lists.At(st)[k - 1]].next == Cell(w, st, c.lists.At(st)[k..])
  {
    assert FitKey(c, w, 0);
    assert w.Key(0);
    RingLinks(w.rings.At(st), w.hs.At(st), w.nodes, c.lists.At(st), k);
  }

  lemma CellIsNotHead(c: Core, w: World, st: Stage, s: seq<nat>)
    requires Fits(c, w) && (s != [] ==> s[0] in c.items)
    ensures Cell(w, st, s) == w.hs.At(st) <==> s == []
    ensures s != [] ==> Cell(w, st, s).entry == s[0]
  {
    assert FitKey(c, w, 0);
  }

  lemma FirstCell(l: Loop, w: World, repr: set<Node>)
    requires Walk(l, l.phase) && l.phase < 6 && Fits(l.c, w) && Spun(w, repr)
    ensures w.hs.At(StageOf(l.phase)).next == Cell(w, StageOf(l.phase), l.todo)
  {
    Open(l);
    assert l.kept + l.todo == l.todo;
    CellLinks(l.c, w, repr, StageOf(l.phase), 0);
  }

  lemma NextCell(l: Loop, w: World, repr: set<Node>)
    requires Inv(l) && l.phase < 6 && Fits(l.c, w) && Spun(w, repr)
    requires Cell(w, StageOf(l.phase), l.todo) != w.hs.At(StageOf(l.phase))
    ensures l.todo != [] && l.c.items[l.todo[0]].state == StageOf(l.phase)
    ensures Cell(w, StageOf(l.phase), l.todo).entry == l.todo[0]
    ensures Cell(w, StageOf(l.phase), l.todo).next == Cell(w, StageOf(l.phase), l.todo[1..])
    ensures l.todo[0] !in l.todo[1..]
  {
    var st := StageOf(l.phase);
    CellIsNotHead(l.c, w, st, l.todo);
    TodoNoDup(l);
    WalkPosition(l);
    CellLinks(l.c, w, repr, st, |l.kept| + 1);
  }

  /** The list being walked, at the node to visit. */
  lemma WalkPosition(l: Loop)
    requires Inv(l) && l.phase < 6 && l.todo != []
    ensures var s := l.c.lists.At(StageOf(l.phase));
      |l.kept| < |s| && s[|l.kept|] == l.todo[0] && s[|l.kept| + 1..] == l.todo[1..]
  {
    Open(l);
  }

  /** Mentioning the mark of a state opens `Does` for it. */
  predicate OpMark(c: Core, u: int) {
    true
  }

  /** The operation of a phase, called on request `i` in state `c`, ends in state `d` and returns `r`. */
  ghost predicate Does(phase: nat, c: Core, i: nat, ch: Choice, d: Core, r: int) {
    forall u {:trigger OpMark(c, u)} :: OpMark(c, u) ==>
      phase < 6 && i in c.items && OpOut(d, r) == Op(phase, c, i, ch)
  }

  /** The six operations, phase by phase. */
  lemma DoesServiceDone(c: Core, i: nat, ch: Choice, d: Core, r: int)
    requires i in c.items && OpOut(d, r) == ServiceDone(c, i)
    ensures Does(0, c, i, ch, d, r)
  {
  }

  lemma DoesFinishPost(c: Core, i: nat, ch: Choice, d: Core, r: int)
    requires i in c.items && OpOut(d, r) == FinishPost(c, i, ch.finished)
    ensures Does(1, c, i, ch, d, r)
  {
  }

  lemma DoesPostExec(c: Core, i: nat, ch: Choice, d: Core, r: int)
    requires i in c.items && OpOut(d, r) == PostExecOp(c, i, ch)
    ensures Does(2, c, i, ch, d, r)
  {
  }

  lemma DoesLaunchExec(c: Core, i: nat, ch: Choice, d: Core, r: int)
    requires i in c.items && OpOut(d, r) == LaunchExec(c, i, ch.code)
    ensures Does(3, c, i, ch, d, r)
  {
  }

  lemma DoesPrepareExec(c: Core, i: nat, ch: Choice, d: Core, r: int)
    requires i in c.items && OpOut(d, r) == PrepareExec(c, i, ch.code)
    ensures Does(4, c, i, ch, d, r)
  {
  }

  lemma DoesAllocMem(c: Core, i: nat, ch: Choice, d: Core, r: int)
    requires i in c.items && OpOut(d, r) == RequestAllocMem(c, i, DEVICE_MEM_CODE)
    ensures Does(5, c, i, ch, d, r)
  {
  }

  lemma DoneKeeps(e: Areas, c: Core, p: Pins, args: map<nat, Args>, phase: nat, i: nat, ch: Choice,
                  d: Core, r: int, args': map<nat, Args>)
    requires Kept(e, c, p, args) && phase < 6 && i in c.items && c.items[i].state == StageOf(phase) && i in args
    requires Does(phase, c, i, ch, d, r) && ArgsStep(phase, e, i, args, args')
    ensures Kept(e, d, p.(cuda := p.cuda + CallsOf(phase, e, i, args[i].bufs)), args')
  {
    assert OpMark(c, 0);
    OpKeeps(e, c, p, args, phase, i, ch, args');
  }

  /** The walk that started at `start` has come to `l`, and its last call returned `r`. */
  ghost predicate Comes(start: Loop, o: Oracle, l: Loop, r: int) {
    forall u {:trigger Mark(start, u)} :: Mark(start, u) ==>
      && Inv(start) && Inv(l) && RunPhase(l, o) == RunPhase(start, o)
      && WalkCode(l, o, r) == WalkCode(start, o, 0)
  }

  lemma WalkStart(start: Loop, o: Oracle)
    requires Inv(start)
    ensures Comes(start, o, start, 0)
  {
  }

  /** The walk after its operation has been called on the node it is at. */
  lemma WalkStep(start: Loop, l: Loop, o: Oracle, r0: int, d: Core, r: int) returns (m: Loop)
    requires Comes(start, o, l, r0) && Inv(l) && l.todo != []
    requires Does(l.phase, l.c, l.todo[0], o(l.phase, l.todo[0]), d, r)
    ensures Inv(m) && m.phase == l.phase && m.c == d && Comes(start, o, m, r)
    ensures m.todo == if r == 0 && Once(l.phase) then [] else l.todo[1..]
  {
    assert Mark(start, 0) && OpMark(l.c, 0);
    VisitKeepsInv(l, o(l.phase, l.todo[0]));
    m := Visit(l, o(l.phase, l.todo[0]));
  }

  /** The walk that started at `start` ends in state `d` and returns `r`. */
  ghost predicate Ends(start: Loop, o: Oracle, d: Core, r: int) {
    forall u {:trigger Mark(start, u)} :: Mark(start, u) ==>
      Inv(start) && d == RunPhase(start, o).c && r == WalkCode(start, o, 0)
  }

  lemma EndsIn(start: Loop, o: Oracle, d: Core, r: int)
    requires Ends(start, o, d, r)
    ensures Inv(start) && d == RunPhase(start, o).c && r == WalkCode(start, o, 0)
  {
    assert Mark(start, 0);
  }

  lemma WalkEnd(start: Loop, l: Loop, w: World, o: Oracle, r: int)
    requires Comes(start, o, l, r) && Inv(l) && l.phase < 6 && Fits(l.c, w)
    requires l.todo == [] || Cell(w, StageOf(l.phase), l.todo) == w.hs.At(StageOf(l.phase))
    ensures l.todo == [] && Ends(start, o, l.c, r)
  {
    CellIsNotHead(l.c, w, StageOf(l.phase), l.todo);
    assert Mark(start, 0);
  }

  predicate SeenMark(all: seq<nat>, u: int) {
    true
  }

  /** `visited` is what comes before `left` in `all`; unfolded only where the mark is mentioned. */
  ghost predicate Seen(visited: seq<nat>, left: seq<nat>, all: seq<nat>) {
    forall u {:trigger SeenMark(all, u)} :: SeenMark(all, u) ==> visited + left == all
  }

  lemma SeenNone(all: seq<nat>)
    ensures Seen([], all, all)
  {
    assert [] + all == all;
  }

  lemma SeenOneMore(visited: seq<nat>, left: seq<nat>, all: seq<nat>, x: nat)
    requires Seen(visited, left, all) && left != [] && left[0] == x
    ensures Seen(visited + [x], left[1..], all)
  {
    assert SeenMark(all, 0);
    assert (visited + [x]) + left[1..] == visited + left;
  }

  lemma SeenPrefix(visited: seq<nat>, left: seq<nat>, all: seq<nat>)
    requires Seen(visited, left, all)
    ensures visited <= all && (left == [] ==> visited == all)
  {
    assert SeenMark(all, 0);
  }

  /** `all_reqs` is empty exactly when no request is live. */
  lemma AllRing(c: Core, w: World, repr: set<Node>)
    requires Fits(c, w) && Spun(w, repr)
    ensures w.rings.all != [] && w.rings.all[0] == w.hs.all && Cycle(w.rings.all)
    ensures w.rings.all == [w.hs.all] <==> c.items == map[]
  {
    assert FitKey(c, w, 0);
    assert w.Key(0);
    ChainHead(w.rings.all, w.hs.all, w.gnodes, w.all);
    if c.all != [] {
      assert c.all[0] in c.items;
    } else {
      assert forall i: nat :: i !in c.items;
    }
  }

  lemma ArrivalFits(e: Areas, m: Loop, p: Pins, args: map<nat, Args>, a: Arrival, b: Buffers)
    requires Inv(m) && m.phase == 6 && Kept(e, m.c, p, args)
    ensures Poll(m, Some(a)).c == InitServiceRequest(m.c, a.id, a.found)
    ensures Kept(e, InitServiceRequest(m.c, a.id, a.found), p.(history := p.history[m.c.nread := b]),
                 args[m.c.nread := Args(b, UNMAPPED)])
  {
    Open(m);
    ArrivalKeeps(e, m.c, p, args, a.id, a.found, b);
  }

  /** The pass that is at `l` gets to its poll in state `m`. */
  ghost predicate Reaches(l: Loop, o: Oracle, m: Loop) {
    forall u {:trigger Mark(l, u)} :: Mark(l, u) ==> Inv(l) && m == RunToPoll(l, o)
  }

  /** The poll of a pass that is at `m` leaves the data in state `c`. */
  ghost predicate Polls(m: Loop, a: Option<Arrival>, c: Core) {
    forall u {:trigger Mark(m, u)} :: Mark(m, u) ==> m.phase == 6 && c == Poll(m, a).c
  }

  lemma EndPass(l: Loop, e: PassEnv, m: Loop, c: Core) returns (next: Loop)
    requires Inv(l) && Reaches(l, e.oracle, m) && Polls(m, e.arrival, c)
    ensures Leads(l, e, next) && Walk(next, 0) && next.c == c
  {
    assert Mark(l, 0) && Mark(m, 0);
    next := Pass(l, e);
  }

  lemma StageDone(l: Loop, o: Oracle) returns (m: Loop)
    requires Inv(l) && l.phase < 6
    ensures Walk(m, l.phase + 1) && m.c == RunPhase(l, o).c
    ensures forall r :: Reaches(m, o, r) ==> Reaches(l, o, r)
  {
    PassByPhases(l, o);
    m := Advance(RunPhase(l, o));
    forall r | Reaches(m, o, r) ensures Reaches(l, o, r) {
      assert Mark(m, 0);
    }
  }

  lemma AtPoll(m: Loop, o: Oracle)
    requires Inv(m) && m.phase == 6
    ensures Reaches(m, o, m)
  {
  }

  /** How many of the first `k` passes end by reading a request. */
  function Reads(env: nat -> PassEnv, k: nat): nat {
    if k == 0 then 0 else Reads(env, k - 1) + (if env(k - 1).arrival.Some? then 1 else 0)
  }

  lemma {:induction false} ReadsIncrease(env: nat -> PassEnv, j: nat, k: nat)
    requires j < k && env(j).arrival.Some?
    ensures Reads(env, j) < Reads(env, k)
  {
    if j + 1 < k {
      ReadsIncrease(env, j, k - 1);
    }
  }

  predicate FileMark(history: map<nat, Buffers>, u: int) {
    true
  }

  /** The requests read in the first `k` passes are filed under their numbers, from `first` on, with the buffers
      each pass brought; unfolded only where the mark is mentioned. */
  ghost predicate Filed(history: map<nat, Buffers>, env: nat -> PassEnv, bufs: nat -> Buffers, first: nat, k: nat) {
    forall u {:trigger FileMark(history, u)} :: FileMark(history, u) ==>
      forall j: nat :: j < k && env(j).arrival.Some? ==>
        first + Reads(env, j) in history && history[first + Reads(env, j)] == bufs(j)
  }

  lemma FiledNone(history: map<nat, Buffers>, env: nat -> PassEnv, bufs: nat -> Buffers, first: nat)
    ensures Filed(history, env, bufs, first, 0)
  {
  }

  lemma FiledOneMore(history: map<nat, Buffers>, history': map<nat, Buffers>, env: nat -> PassEnv, bufs: nat -> Buffers,
                     first: nat, k: nat, k': nat, t: nat, t': nat)
    requires Filed(history, env, bufs, first, k) && k' == k + 1 && t == first + Reads(env, k)
    requires history' == if env(k).arrival.Some? then history[t := bufs(k)] else history
    requires t' == t + (if env(k).arrival.Some? then 1 else 0)
    ensures Filed(history', env, bufs, first, k') && t' == first + Reads(env, k')
  {
    assert FileMark(history, 0);
    forall j: nat | j < k' && env(j).arrival.Some?
      ensures first + Reads(env, j) in history' && history'[first + Reads(env, j)] == bufs(j)
    {
      if j < k {
        ReadsIncrease(env, j, k);
        assert first + Reads(env, j) != t;
      }
    }
  }

  lemma FiledIs(history: map<nat, Buffers>, env: nat -> PassEnv, bufs: nat -> Buffers, first: nat, k: nat)
    requires Filed(history, env, bufs, first, k)
    ensures forall j: nat :: j < k && env(j).arrival.Some? ==>
      first + Reads(env, j) in history && history[first + Reads(env, j)] == bufs(j)
  {
    assert FileMark(history, 0);
  }

  /** The global state of the helper. */
  class Helper {
    const hs: Heads
    const areas: Areas
    const streamuses: array<bool>
    var items: map<nat, Sreq>
    var args: map<nat, Args>
    var nodes: map<nat, Node>
    var gnodes: map<nat, Node>
    var nread: nat
    var log: seq<Event>
    var cuda: seq<CudaCall>
    ghost var w: World
    ghost var repr: set<Node>
    /** The buffers of every request ever read. */
    ghost var history: map<nat, Buffers>

    ghost function Abs(): Core
      reads this, streamuses
    {
      Core(items, w.all, w.lists, streamuses[..], nread, log)
    }

    /** The calls of the CUDA runtime match the progress of every request ever read. */
    ghost predicate PinsSettled()
      reads this, streamuses
    {
      Kept(areas, Abs(), Pins(history, cuda), args)
    }

    ghost predicate Valid()
      reads this, streamuses, repr
    {
      && streamuses.Length == MAX_STREAM_NR
      && w.hs == hs && w.nodes == nodes && w.gnodes == gnodes && (forall i: nat :: i in items ==> i in args)
      && Fits(Abs(), w) && Spun(w, repr)
    }

    constructor (areas: Areas)
      ensures Valid() && PinsSettled() && Abs() == START
      ensures this.areas == areas && fresh(streamuses) && fresh(repr)
    {
      var heads, held := NewHeads();
      StartFits(heads);
      var uses := new bool[8](_ => false);
      assert uses[..] == START.streams;
      hs, this.areas, streamuses := heads, areas, uses;
      items, args, nodes, gnodes, nread, log, cuda := map[], map[], map[], map[], 0, [], [];
      w, repr, history := StartWorld(heads), held, map[];
      StartSettled(areas);
    }

    /** `list_del`, `list_add_tail` and the assignments to the record around them. */
    method MoveTo(i: nat, r: Sreq)
      requires Valid() && i in items && r.state != items[i].state
      modifies this`items, this`w, repr
      ensures Valid() && Abs() == Move(old(Abs()), i, r)
    {
      ghost var c := Abs();
      ghost var v := MoveNode(nodes[i], hs.At(r.state), c, w, repr, i, r);
      assert streamuses[..] == c.streams;
      items := items[i := r];
      w := v;
      assert Abs() == Move(c, i, r);
    }

    /** `kh_fail_request` for a request that is on a stage list. */
    method KhFailRequest(i: nat, serr: int)
      requires Valid() && i in items && !items[i].state.Done?
      modifies this`items, this`w, repr
      ensures Valid() && Abs() == FailRequest(old(Abs()), i, serr)
    {
      MoveTo(i, items[i].(state := Done, errcode := serr));
    }

    /** The calls of the outside world are only recorded. */
    method Record(e: Event)
      requires Valid()
      modifies this`log
      ensures Valid() && Abs() == old(Abs()).(log := old(Abs()).log + [e])
    {
      LogFits(Abs(), w, e);
      log := log + [e];
    }

    /** `kh_launch_exec`, given what `launch` returns. */
    method KhLaunchExec(i: nat, code: int) returns (r: int)
      requires Valid() && i in items && items[i].state.Prepared?
      modifies this`items, this`w, this`log, repr
      ensures Valid() && OpOut(Abs(), r) == LaunchExec(old(Abs()), i, code) && r == 0
    {
      Record(Launch(i, code));
      if code != 0 {
        KhFailRequest(i, code);
      } else {
        MoveTo(i, items[i].(state := Running));
      }
      r := 0;
    }

    /** `kh_post_exec`, given whether the stream is idle and what `post` returns. */
    method KhPostExec(i: nat, ch: Choice) returns (r: int)
      requires Valid() && i in items && items[i].state.Running?
      modifies this`items, this`w, this`log, repr
      ensures Valid() && OpOut(Abs(), r) == PostExecOp(old(Abs()), i, ch)
      ensures r == if ch.finished then ch.code else 1
    {
      r := 1;
      if ch.finished {
        Record(Post(i, ch.code));
        r := ch.code;
        if r == 0 {
          MoveTo(i, items[i].(state := PostExec));
        } else {
          KhFailRequest(i, r);
        }
      }
    }

    /** `kh_finish_post`. */
    method KhFinishPost(i: nat, finished: bool) returns (r: int)
      requires Valid() && i in items && items[i].state.PostExec?
      modifies this`items, this`w, repr
      ensures Valid() && OpOut(Abs(), r) == FinishPost(old(Abs()), i, finished)
      ensures r == if finished then 0 else 1
    {
      if finished {
        MoveTo(i, items[i].(state := Done));
        return 0;
      }
      return 1;
    }

    /** `gpu_alloc_stream`. */
    method GpuAllocStream(i: nat) returns (r: int)
      requires Valid() && i in items
      modifies this`items, streamuses
      ensures Valid()
      ensures FirstFree(old(streamuses[..]), 0).None? ==> r == 1 && Abs() == old(Abs())
      ensures FirstFree(old(streamuses[..]), 0).Some? ==>
        && r == 0 && FirstFree(old(streamuses[..]), 0).value < MAX_STREAM_NR
        && Abs() == HoldStream(old(Abs()), i, FirstFree(old(streamuses[..]), 0).value)
    {
      var k := FindStream(streamuses);
      if k == MAX_STREAM_NR {
        return 1;
      }
      HoldFits(Abs(), w, i, k);
      streamuses[k] := true;
      items := items[i := items[i].(streamId := k)];
      return 0;
    }

    /** The rest of `kh_prepare_exec`, once it has a stream. */
    method CallPrepare(i: nat, code: int)
      requires Valid() && i in items && items[i].state.MemDone?
      modifies this`items, this`w, this`log, repr
      ensures Valid() && Abs() == AfterPrepare(old(Abs()), i, code)
    {
      Record(Prepare(i, code));
      if code != 0 {
        KhFailRequest(i, code);
      } else {
        MoveTo(i, items[i].(state := Prepared));
      }
    }

    /** `kh_prepare_exec`, given what `prepare` returns. */
    method KhPrepareExec(i: nat, code: int) returns (r: int)
      requires Valid() && i in items && items[i].state.MemDone?
      modifies this`items, this`w, this`log, streamuses, repr
      ensures Valid() && OpOut(Abs(), r) == PrepareExec(old(Abs()), i, code)
      ensures r == if forall k :: 0 <= k < MAX_STREAM_NR ==> old(streamuses[k]) then -1 else code
    {
      ghost var c := Abs();
      FirstFreeSound(streamuses[..], 0);
      var failed := GpuAllocStream(i);
      if failed != 0 {
        r := -1;
      } else {
        CallPrepare(i, code);
        PreparedIs(c, i, code);
        r := code;
      }
    }

    /** `gpu_alloc_device_mem` on the request's own buffers. */
    method MapBuffers(i: nat) returns (r: int)
      requires i in args
      modifies this`args, this`cuda
      ensures r == 0 && cuda == old(cuda) + Registers(i, Pinned(areas, old(args)[i].bufs))
      ensures ArgsStep(5, areas, i, old(args), args)
    {
      var b := args[i].bufs;
      var din, dout, ddata, pins;
      r, din, dout, ddata, pins := GpuAllocDeviceMem(areas, b);
      RegisterCallsAre(i, pins, Pinned(areas, b));
      args := args[i := Args(b, Mapped(din, dout, ddata))];
      cuda := cuda + RegisterCalls(i, pins);
    }

    /** `kh_request_alloc_mem`: the merged ranges are registered and the device addresses stored, each buffer at
        its own offset in the device buffer of its area. */
    method KhRequestAllocMem(i: nat) returns (r: int)
      requires Valid() && i in items && items[i].state.Init?
      modifies this`items, this`w, this`args, this`cuda, repr
      ensures Valid() && OpOut(Abs(), r) == RequestAllocMem(old(Abs()), i, DEVICE_MEM_CODE) && r == 0
      ensures cuda == old(cuda) + Registers(i, Pinned(areas, old(args)[i].bufs))
      ensures ArgsStep(5, areas, i, old(args), args)
      ensures AreasFit(areas) ==> i in args && DeviceRight(areas, old(args)[i].bufs, args[i].dev)
    {
      var r0 := MapBuffers(i);
      r := if r0 != 0 then -1 else 0;
      if r == 0 {
        MoveTo(i, items[i].(state := MemDone));
      }
    }

    /** `kh_service_done`. */
    method KhServiceDone(i: nat) returns (r: int)
      requires Valid() && i in items && items[i].state.Done?
      modifies this`items, this`args, this`nodes, this`gnodes, this`w, this`log, this`cuda,
        streamuses, repr
      ensures Valid() && OpOut(Abs(), r) == ServiceDone(old(Abs()), i)
      ensures cuda == old(cuda) + Unregisters(i, Unpinned(areas, old(args)[i].bufs))
      ensures nodes == old(nodes) - {i} && args == old(args) - {i} && r == 0
    {
      ghost var c := Abs();
      var sr, b, calls := items[i], args[i].bufs, cuda;
      var answers := log + [Respond(i, sr.id, sr.errcode)];
      ghost var v := DropNode(nodes[i], gnodes[i], c, w, repr, i);
      var unpins := GpuFreeDeviceMem(areas, b);
      UnregisterCallsAre(i, unpins, Unpinned(areas, b));
      GpuFreeStream(streamuses, sr.streamId);
      Forget(i, answers, calls + UnregisterCalls(i, unpins), v);
      r := 0;
    }

    /** `kh_free_service_request`; the world's log and the runtime's calls are brought up to date with it. */
    method Forget(i: nat, answers: seq<Event>, calls: seq<CudaCall>, ghost v: World)
      modifies this`items, this`args, this`nodes, this`gnodes, this`w, this`log, this`cuda
      ensures items == old(items) - {i} && args == old(args) - {i}
      ensures nodes == old(nodes) - {i} && gnodes == old(gnodes) - {i}
      ensures log == answers && cuda == calls && w == v
    {
      items, args, nodes, gnodes := items - {i}, args - {i}, nodes - {i}, gnodes - {i};
      log, cuda, w := answers, calls, v;
    }

    /** The new request's record and nodes, filed under its number. */
    method Enter(sr: Sreq, b: Buffers, node: Node, gnode: Node, e: Event, ghost v: World, ghost held: set<Node>)
      modifies this`items, this`args, this`nodes, this`gnodes, this`w, this`log, this`nread, this`repr, this`history
      ensures items == old(items)[old(nread) := sr] && args == old(args)[old(nread) := Args(b, UNMAPPED)]
      ensures nodes == old(nodes)[old(nread) := node] && gnodes == old(gnodes)[old(nread) := gnode]
      ensures history == old(history)[old(nread) := b] && nread == old(nread) + 1 && log == old(log) + [e]
      ensures w == v && repr == held
    {
      var t := nread;
      items, args, history := items[t := sr], args[t := Args(b, UNMAPPED)], history[t := b];
      nodes, gnodes := nodes[t := node], gnodes[t := gnode];
      nread, log, w, repr := t + 1, log + [e], v, held;
    }

    /** `kh_alloc_service_request` and `kh_init_service_request`. */
    method KhInitServiceRequest(id: int, b: Buffers, found: bool)
      requires Valid()
      modifies this`items, this`args, this`nodes, this`gnodes, this`w, this`log, this`nread, this`repr,
        this`history, repr
      ensures Valid() && Abs() == InitServiceRequest(old(Abs()), id, found)
      ensures args == old(args)[old(nread) := Args(b, UNMAPPED)] && history == old(history)[old(nread) := b]
      ensures fresh(repr - old(repr))
    {
      ghost var c := Abs();
      var node, gnode;
      ghost var v, held;
      node, gnode, v, held := LinkNode(hs, nread, id, found, c, w, repr);
      assert streamuses[..] == c.streams;
      Enter(Sreq(id, if found then Init else Done, if found then 0 else KGPU_NO_SERVICE, -1), b, node, gnode,
            Lookup(nread, found), v, held);
      assert Abs() == InitServiceRequest(c, id, found);
    }

    /** The operation `__kh_process_request` is given in each phase. */
    method Dispatch(phase: nat, i: nat, ch: Choice) returns (r: int)
      requires Valid() && phase < 6 && i in items && items[i].state == StageOf(phase)
      modifies this`items, this`args, this`nodes, this`gnodes, this`w, this`log, this`cuda,
        streamuses, repr
      ensures Valid() && Does(phase, old(Abs()), i, ch, Abs(), r)
      ensures nodes == (if phase == 0 then old(nodes) - {i} else old(nodes))
      ensures ArgsStep(phase, areas, i, old(args), args)
      ensures cuda == old(cuda) + CallsOf(phase, areas, i, old(args)[i].bufs)
    {
      ghost var c := Abs();
      match phase
      case 0 =>
        r := KhServiceDone(i);
        DoesServiceDone(c, i, ch, Abs(), r);
      case 1 =>
        r := KhFinishPost(i, ch.finished);
        DoesFinishPost(c, i, ch, Abs(), r);
      case 2 =>
        r := KhPostExec(i, ch);
        DoesPostExec(c, i, ch, Abs(), r);
      case 3 =>
        r := KhLaunchExec(i, ch.code);
        DoesLaunchExec(c, i, ch, Abs(), r);
      case 4 =>
        r := KhPrepareExec(i, ch.code);
        DoesPrepareExec(c, i, ch, Abs(), r);
      case _ =>
        r := KhRequestAllocMem(i);
        DoesAllocMem(c, i, ch, Abs(), r);
    }

    method CallOp(phase: nat, i: nat, ch: Choice) returns (r: int)
      requires Valid() && PinsSettled() && phase < 6 && i in items && items[i].state == StageOf(phase)
      modifies this`items, this`args, this`nodes, this`gnodes, this`w, this`log, this`cuda,
        streamuses, repr
      ensures Valid() && PinsSettled() && Does(phase, old(Abs()), i, ch, Abs(), r)
      ensures nodes == (if phase == 0 then old(nodes) - {i} else old(nodes))
    {
      ghost var c, p, was := Abs(), Pins(history, cuda), args;
      r := Dispatch(phase, i, ch);
      DoneKeeps(areas, c, p, was, phase, i, ch, Abs(), r, args);
    }

    /** The body of the walk; the node after the visited one stays the next to visit. */
    method VisitNode(phase: nat, pos: Node, n: Node?, o: Oracle, ghost start: Loop, ghost l: Loop, ghost r0: int)
      returns (r: int, ghost m: Loop)
      requires Valid() && PinsSettled() && phase < 6 && Inv(l) && l.phase == phase && l.c == Abs()
      requires Comes(start, o, l, r0)
      requires pos == Cell(w, StageOf(phase), l.todo) && n == pos.next && pos != hs.At(StageOf(phase))
      modifies this`items, this`args, this`nodes, this`gnodes, this`w, this`log, this`cuda,
        streamuses, repr
      ensures Valid() && PinsSettled()
      ensures l.todo != [] && pos.entry == l.todo[0]
      ensures Inv(m) && m.phase == phase && m.c == Abs() && Comes(start, o, m, r)
      ensures m.todo == if r == 0 && Once(phase) then [] else l.todo[1..]
      ensures n == Cell(w, StageOf(phase), l.todo[1..])
    {
      NextCell(l, w, repr);
      var i := pos.entry;
      r := CallOp(phase, i, o(phase, i));
      m := WalkStep(start, l, o, r0, Abs(), r);
    }

    /** The loop of `__kh_process_request`; `left` is what an early end leaves unvisited. */
    method WalkList(phase: nat, o: Oracle, ghost start: Loop)
      returns (r: int, ghost visited: seq<nat>, ghost left: seq<nat>)
      requires Valid() && PinsSettled() && phase < 6 && Walk(start, phase) && start.c == Abs()
      modifies this`items, this`args, this`nodes, this`gnodes, this`w, this`log, this`cuda,
        streamuses, repr
      ensures Valid() && PinsSettled() && Ends(start, o, Abs(), r)
      ensures Seen(visited, left, start.todo) && (!Once(phase) ==> left == [])
    {
      var head := hs.At(StageOf(phase));
      ghost var l := start;
      r, visited, left := 0, [], start.todo;
      WalkStart(start, o);
      SeenNone(start.todo);
      FirstCell(l, w, repr);
      var pos: Node := head.next;
      var n := pos.next;
      while pos != head
        invariant Valid() && PinsSettled() && Inv(l) && l.phase == phase && l.c == Abs()
        invariant Comes(start, o, l, r)
        invariant pos == Cell(w, StageOf(phase), l.todo) && n == pos.next
        invariant Seen(visited, left, start.todo) && left == l.todo
        decreases |l.todo|
      {
        r, l := VisitNode(phase, pos, n, o, start, l, r);
        SeenOneMore(visited, left, start.todo, pos.entry);
        visited, left := visited + [pos.entry], left[1..];
        if r == 0 && Once(phase) {
          break;
        }
        pos := n;
        n := pos.next;
      }
      WalkEnd(start, l, w, o, r);
    }

    /** `__kh_process_request`: the operation is called on the nodes of the list as it was at the start, in
        order and each once, although every call may unlink the node it is given and append it elsewhere.
        Only a `once` walk stops early.  The last operation's code is returned. */
    method KhProcessRequest(phase: nat, o: Oracle, ghost start: Loop) returns (r: int, ghost visited: seq<nat>)
      requires Valid() && PinsSettled() && phase < 6 && Walk(start, phase) && start.c == Abs()
      modifies this`items, this`args, this`nodes, this`gnodes, this`w, this`log, this`cuda,
        streamuses, repr
      ensures Valid() && PinsSettled() && Abs() == RunPhase(start, o).c
      ensures visited <= start.todo && (!Once(phase) ==> visited == start.todo)
      ensures r == WalkCode(start, o, 0)
    {
      ghost var left;
      r, visited, left := WalkList(phase, o, start);
      EndsIn(start, o, Abs(), r);
      SeenPrefix(visited, left, start.todo);
    }

    /** One of the six walks of a pass. */
    method PassStage(phase: nat, o: Oracle, ghost l: Loop) returns (ghost m: Loop)
      requires Valid() && PinsSettled() && phase < 6 && Walk(l, phase) && l.c == Abs()
      modifies this`items, this`args, this`nodes, this`gnodes, this`w, this`log, this`cuda,
        streamuses, repr
      ensures Valid() && PinsSettled() && Walk(m, phase + 1) && m.c == Abs()
      ensures forall q :: Reaches(m, o, q) ==> Reaches(l, o, q)
    {
      ghost var visited;
      var r;
      r, visited := KhProcessRequest(phase, o, l);
      m := StageDone(l, o);
    }

    /** The six walks, from the done list back to the init list. */
    method Walks(o: Oracle, ghost l: Loop) returns (ghost m: Loop)
      requires Valid() && PinsSettled() && Walk(l, 0) && l.c == Abs()
      modifies this`items, this`args, this`nodes, this`gnodes, this`w, this`log, this`cuda,
        streamuses, repr
      ensures Valid() && PinsSettled() && Walk(m, 6) && m.c == Abs() && Reaches(l, o, m)
    {
      m := PassStage(0, o, l);
      m := PassStage(1, o, m);
      m := PassStage(2, o, m);
      m := PassStage(3, o, m);
      m := PassStage(4, o, m);
      m := PassStage(5, o, m);
      AtPoll(m, o);
    }

    /** `kh_get_next_service_request`: it waits without a timeout exactly when no request is live. */
    method KhGetNextServiceRequest(a: Option<Arrival>, b: Buffers, ghost m: Loop) returns (timeout: int, r: int)
      requires Valid() && PinsSettled() && Walk(m, 6) && m.c == Abs()
      modifies this`items, this`args, this`nodes, this`gnodes, this`w, this`log, this`nread, this`repr,
        this`history, repr
      ensures Valid() && PinsSettled() && Polls(m, a, Abs()) && fresh(repr - old(repr))
      ensures timeout == if old(items) == map[] then -1 else 0
      ensures r == if a.Some? then 0 else -1
      ensures a.None? ==> nread == old(nread) && args == old(args) && history == old(history)
      ensures a.Some? ==>
        && nread == old(nread) + 1 && history == old(history)[old(nread) := b]
        && args == old(args)[old(nread) := Args(b, UNMAPPED)]
    {
      AllRing(Abs(), w, repr);
      var empty := ListEmpty(hs.all, w.rings.all);
      timeout := if empty then -1 else 0;
      if a.None? {
        return timeout, -1;
      }
      ArrivalFits(areas, m, Pins(history, cuda), args, a.value, b);
      KhInitServiceRequest(a.value.id, b, a.value.found);
      return timeout, 0;
    }

    /** The poll that ends a pass. */
    method PollOnce(e: PassEnv, b: Buffers, ghost l: Loop, ghost m: Loop) returns (ghost next: Loop)
      requires Valid() && PinsSettled() && Walk(m, 6) && m.c == Abs() && Inv(l) && Reaches(l, e.oracle, m)
      modifies this`items, this`args, this`nodes, this`gnodes, this`w, this`log, this`nread, this`repr,
        this`history, repr
      ensures Valid() && PinsSettled() && fresh(repr - old(repr))
      ensures Leads(l, e, next) && next.c == Abs() && Walk(next, 0)
      ensures nread == old(nread) + (if e.arrival.Some? then 1 else 0)
      ensures history == if e.arrival.Some? then old(history)[old(nread) := b] else old(history)
    {
      var timeout, r := KhGetNextServiceRequest(e.arrival, b, m);
      next := EndPass(l, e, m, Abs());
    }

    /** One iteration of `kh_main_loop`. */
    method MainPass(e: PassEnv, b: Buffers, ghost l: Loop) returns (ghost next: Loop)
      requires Valid() && PinsSettled() && Walk(l, 0) && l.c == Abs()
      modifies this, streamuses, repr
      ensures Valid() && PinsSettled() && fresh(repr - old(repr))
      ensures Leads(l, e, next) && next.c == Abs() && Walk(next, 0)
      ensures nread == old(nread) + (if e.arrival.Some? then 1 else 0)
      ensures history == if e.arrival.Some? then old(history)[old(nread) := b] else old(history)
    {
      ghost var m := Walks(e.oracle, l);
      next := PollOnce(e, b, l, m);
    }

    /** The pass numbered `k`, with what it adds to the run. */
    method NumberedPass(env: nat -> PassEnv, bufs: nat -> Buffers, k: nat,
                        ghost l: Loop, ghost first: nat, ghost at: Loop)
      returns (k': nat, ghost next: Loop)
      requires Valid() && PinsSettled() && Walk(at, 0) && at.c == Abs() && After(l, env, k, at)
      requires nread == first + Reads(env, k) && Filed(history, env, bufs, first, k)
      modifies this, streamuses, repr
      ensures Valid() && PinsSettled() && fresh(repr - old(repr))
      ensures k' == k + 1 && Walk(next, 0) && next.c == Abs() && After(l, env, k', next)
      ensures nread == first + Reads(env, k') && Filed(history, env, bufs, first, k')
    {
      ghost var past, t := history, nread;
      next := MainPass(env(k), bufs(k), at);
      k' := k + 1;
      FiledOneMore(past, history, env, bufs, first, k, k', t, nread);
      AfterOneMore(l, env, k', at, next);
    }

    /** The loop of `kh_main_loop`. */
    method PassLoop(env: nat -> PassEnv, bufs: nat -> Buffers, n: nat, ghost l: Loop, ghost first: nat)
      returns (ghost at: Loop)
      requires Valid() && PinsSettled() && Walk(l, 0) && l.c == Abs() && nread == first
      modifies this, streamuses, repr
      ensures Valid() && PinsSettled() && at.c == Abs() && After(l, env, n, at)
      ensures nread == first + Reads(env, n) && Filed(history, env, bufs, first, n)
    {
      at := l;
      AfterNone(l, env);
      FiledNone(history, env, bufs, first);
      var k := 0;
      while k < n
        invariant 0 <= k <= n && Valid() && PinsSettled() && fresh(repr - old(repr))
        invariant Walk(at, 0) && at.c == Abs() && After(l, env, k, at)
        invariant nread == first + Reads(env, k) && Filed(history, env, bufs, first, k)
      {
        k, at := NumberedPass(env, bufs, k, l, first, at);
      }
    }

    /** `kh_main_loop` for a number of passes: the program on the heap computes the passes of the model, and files
        each request it reads with the buffers that arrived with it. */
    method KhMainLoop(env: nat -> PassEnv, bufs: nat -> Buffers, n: nat, ghost l: Loop)
      requires Valid() && PinsSettled() && Inv(l) && AtStart(l) && l.c == Abs()
      modifies this, streamuses, repr
      ensures Valid() && PinsSettled() && Abs() == Passes(l, env, n).c
      ensures nread == old(nread) + Reads(env, n) && Filed(history, env, bufs, old(nread), n)
    {
      ghost var at := PassLoop(env, bufs, n, l, nread);
      AfterIs(l, env, n, at);
    }
  }

  /** The helper from its start: after any number of passes its heap holds the state the model reaches; every
      request ever read is filed, in order, with the buffers that arrived with it; the CUDA calls made for it are
      the ones its progress calls for; and the device addresses of the live ones are right. */
  method RunHelper(areas: Areas, env: nat -> PassEnv, bufs: nat -> Buffers, n: nat) returns (h: Helper)
    ensures h.Valid() && Inv(BOOT) && h.Abs() == Passes(BOOT, env, n).c
    ensures h.areas == areas && Settled(areas, h.Abs(), Pins(h.history, h.cuda))
    ensures h.nread == Reads(env, n)
    ensures forall k: nat :: k < n && env(k).arrival.Some? ==>
      Reads(env, k) in h.history && h.history[Reads(env, k)] == bufs(k)
    ensures SameBuffers(h.Abs(), Pins(h.history, h.cuda), h.args) && Addressed(areas, h.Abs(), h.args)
  {
    h := new Helper(areas);
    BootInv();
    h.KhMainLoop(env, bufs, n, BOOT);
    KeptIsSettled(areas, h.Abs(), Pins(h.history, h.cuda), h.args);
    FiledIs(h.history, env, bufs, 0, n);
  }
}
