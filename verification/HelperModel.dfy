/** The user-space helper (`helper.c` with the stream table of `cudaOperations.cu`) as a small-step system.

    A request is named by the number of requests read before it, so the order of names is the order in
    which `kgpu_read` handed the requests out.  A `Core` is the helper's data: the live requests, the list
    `all_reqs`, the six stage lists and the stream table.  A `Loop` adds the position of the main loop:
    the phase it is in, the nodes `list_for_each_safe` has visited and left on the list, and those it has
    still to visit. */
module HelperModel {
  import opened Options
  import opened Seqs

  const MAX_STREAM_NR: nat := 8
  const KGPU_NO_SERVICE: int := 2

  datatype Stage = Init | MemDone | Prepared | Running | PostExec | Done

  /** The fields of `kgpu_service_request` the protocol works with. */
  datatype Sreq = Sreq(id: int, state: Stage, errcode: int, streamId: int)

  /** The calls the helper makes on a request, in the order it makes them. */
  datatype Event =
    | Lookup(t: nat, found: bool)
    | Prepare(t: nat, code: int)
    | Launch(t: nat, code: int)
    | Post(t: nat, code: int)
    | Respond(t: nat, id: int, code: int)

  /** The six stage lists. */
  datatype Lists = Lists(
    init: seq<nat>, memdone: seq<nat>, prepared: seq<nat>, running: seq<nat>, postExec: seq<nat>, done: seq<nat>)
  {
    function At(st: Stage): seq<nat> {
      match st
      case Init => init
      case MemDone => memdone
      case Prepared => prepared
      case Running => running
      case PostExec => postExec
      case Done => done
    }

    function With(st: Stage, s: seq<nat>): Lists {
      match st
      case Init => this.(init := s)
      case MemDone => this.(memdone := s)
      case Prepared => this.(prepared := s)
      case Running => this.(running := s)
      case PostExec => this.(postExec := s)
      case Done => this.(done := s)
    }
  }

  datatype Core = Core(
    items: map<nat, Sreq>,
    all: seq<nat>,
    lists: Lists,
    streams: seq<bool>,
    nread: nat,
    log: seq<Event>)

  const START: Core := Core(
    map[], [], Lists([], [], [], [], [], []), [false, false, false, false, false, false, false, false], 0, [])

  /** What the GPU and the service answer when an operation asks them. */
  datatype Choice = Choice(finished: bool, code: int)

  datatype OpOut = OpOut(c: Core, r: int)

  // ----- stage operations -----

  /** `list_del` followed by `list_add_tail`: off the list named by the old state, onto the tail of the
      list named by the new one. */
  function Relink(lists: Lists, i: nat, from: Stage, to': Stage): Lists {
    var off := lists.With(from, Remove(lists.At(from), i));
    off.With(to', off.At(to') + [i])
  }

  /** Give request `i` the record `r` and move it to the list of `r.state`. */
  function Move(c: Core, i: nat, r: Sreq): Core
    requires i in c.items
  {
    c.(items := c.items[i := r], lists := Relink(c.lists, i, c.items[i].state, r.state))
  }

  /** `kh_fail_request`. */
  function FailRequest(c: Core, i: nat, serr: int): Core
    requires i in c.items
  {
    Move(c, i, c.items[i].(state := Done, errcode := serr))
  }

  function FirstFree(streams: seq<bool>, from: nat): Option<nat>
    decreases |streams| - from
  {
    if from >= |streams| then None
    else if !streams[from] then Some(from)
    else FirstFree(streams, from + 1)
  }

  /** `kh_request_alloc_mem`, given what `gpu_alloc_device_mem` returned. */
  function RequestAllocMem(c: Core, i: nat, r: int): OpOut
    requires i in c.items
  {
    if r != 0 then OpOut(c, -1)
    else OpOut(Move(c, i, c.items[i].(state := MemDone)), 0)
  }

  /** `gpu_alloc_stream` when stream `k` is the first free one, and the call of `prepare` that follows. */
  function TakeStream(c: Core, i: nat, k: nat, code: int): Core
    requires i in c.items && k < |c.streams|
  {
    c.(streams := c.streams[k := true],
       items := c.items[i := c.items[i].(streamId := k)],
       log := c.log + [Prepare(i, code)])
  }

  lemma {:induction false} FirstFreeSound(streams: seq<bool>, from: nat)
    ensures FirstFree(streams, from).Some? ==>
      && from <= FirstFree(streams, from).value < |streams| && !streams[FirstFree(streams, from).value]
      && forall j :: from <= j < FirstFree(streams, from).value ==> streams[j]
    ensures FirstFree(streams, from).None? ==> forall k :: from <= k < |streams| ==> streams[k]
    decreases |streams| - from
  {
    if from < |streams| && streams[from] {
      FirstFreeSound(streams, from + 1);
    }
  }

  /** `kh_prepare_exec`. */
  function PrepareExec(c: Core, i: nat, code: int): OpOut
    requires i in c.items
  {
    FirstFreeSound(c.streams, 0);
    match FirstFree(c.streams, 0)
    case None => OpOut(c, -1)
    case Some(k) =>
      var c1 := TakeStream(c, i, k, code);
      if code != 0 then OpOut(FailRequest(c1, i, code), code)
      else OpOut(Move(c1, i, c1.items[i].(state := Prepared)), 0)
  }

  /** `kh_launch_exec`. */
  function LaunchExec(c: Core, i: nat, code: int): OpOut
    requires i in c.items
  {
    var c1 := c.(log := c.log + [Launch(i, code)]);
    if code != 0 then OpOut(FailRequest(c1, i, code), 0)
    else OpOut(Move(c1, i, c.items[i].(state := Running)), 0)
  }

  /** `kh_post_exec`. */
  function PostExecOp(c: Core, i: nat, ch: Choice): OpOut
    requires i in c.items
  {
    if !ch.finished then OpOut(c, 1)
    else
      var c1 := c.(log := c.log + [Post(i, ch.code)]);
      if ch.code != 0 then OpOut(FailRequest(c1, i, ch.code), ch.code)
      else OpOut(Move(c1, i, c.items[i].(state := PostExec)), 0)
  }

  /** `kh_finish_post`. */
  function FinishPost(c: Core, i: nat, finished: bool): OpOut
    requires i in c.items
  {
    if finished then OpOut(Move(c, i, c.items[i].(state := Done)), 0) else OpOut(c, 1)
  }

  /** `gpu_free_stream`. */
  function FreeStream(streams: seq<bool>, sid: int): seq<bool> {
    if 0 <= sid < |streams| then streams[sid := false] else streams
  }

  /** `kh_service_done`: answer, unlink from both lists, give the stream back, free. */
  function ServiceDone(c: Core, i: nat): OpOut
    requires i in c.items
  {
    var sr := c.items[i];
    OpOut(c.(items := c.items - {i},
             all := Remove(c.all, i),
             lists := c.lists.With(sr.state, Remove(c.lists.At(sr.state), i)),
             streams := FreeStream(c.streams, sr.streamId),
             log := c.log + [Respond(i, sr.id, sr.errcode)]), 0)
  }

  /** `kh_init_service_request`: an unknown service goes straight to the done list. */
  function InitServiceRequest(c: Core, id: int, found: bool): Core {
    var t := c.nread;
    var st := if found then Init else Done;
    c.(items := c.items[t := Sreq(id, st, if found then 0 else KGPU_NO_SERVICE, -1)],
       all := c.all + [t],
       lists := c.lists.With(st, c.lists.At(st) + [t]),
       nread := t + 1,
       log := c.log + [Lookup(t, found)])
  }

  // ----- the main loop -----

  /** The list walked in each phase of the loop; phase 6 is the poll. */
  function StageOf(phase: nat): Stage
    requires phase < 6
  {
    match phase
    case 0 => Done
    case 1 => PostExec
    case 2 => Running
    case 3 => Prepared
    case 4 => MemDone
    case _ => Init
  }

  function PhaseOf(st: Stage): (p: nat)
    ensures p < 6 && StageOf(p) == st
  {
    match st
    case Done => 0
    case PostExec => 1
    case Running => 2
    case Prepared => 3
    case MemDone => 4
    case Init => 5
  }

  /** The `once` argument of `__kh_process_request`. */
  predicate Once(phase: nat) {
    2 <= phase <= 4
  }

  /** `gpu_alloc_device_mem` returns 0 on every path. */
  const DEVICE_MEM_CODE: int := 0

  function Op(phase: nat, c: Core, i: nat, ch: Choice): OpOut
    requires phase < 6 && i in c.items
  {
    match StageOf(phase)
    case Done => ServiceDone(c, i)
    case PostExec => FinishPost(c, i, ch.finished)
    case Running => PostExecOp(c, i, ch)
    case Prepared => LaunchExec(c, i, ch.code)
    case MemDone => PrepareExec(c, i, ch.code)
    case Init => RequestAllocMem(c, i, DEVICE_MEM_CODE)
  }

  datatype Loop = Loop(c: Core, phase: nat, kept: seq<nat>, todo: seq<nat>)

  const BOOT: Loop := Loop(START, 0, [], [])

  /** One call of the phase's operation on the next node; a zero return ends a `once` phase. */
  function Visit(l: Loop, ch: Choice): Loop
    requires l.phase < 6 && l.todo != [] && l.todo[0] in l.c.items
  {
    var out := Op(l.phase, l.c, l.todo[0], ch);
    var kept := if Leaves(l, ch) then l.kept else l.kept + [l.todo[0]];
    if out.r == 0 && Once(l.phase) then Loop(out.c, l.phase, kept + l.todo[1..], [])
    else Loop(out.c, l.phase, kept, l.todo[1..])
  }

  /** The operation takes the visited request off the list being walked. */
  predicate Leaves(l: Loop, ch: Choice)
    requires l.phase < 6
  {
    match StageOf(l.phase)
    case PostExec => ch.finished
    case Running => ch.finished
    case MemDone => FirstFree(l.c.streams, 0).Some?
    case _ => true
  }

  /** The end of one `__kh_process_request` and the start of the next. */
  function Advance(l: Loop): Loop
    requires l.phase < 6
  {
    Loop(l.c, l.phase + 1, [], if l.phase < 5 then l.c.lists.At(StageOf(l.phase + 1)) else [])
  }

  datatype Arrival = Arrival(id: int, found: bool)

  /** `kh_get_next_service_request` and the jump back to the first phase. */
  function Poll(l: Loop, a: Option<Arrival>): Loop
    requires l.phase == 6
  {
    var c := if a.Some? then InitServiceRequest(l.c, a.value.id, a.value.found) else l.c;
    Loop(c, 0, [], c.lists.At(Done))
  }

  // ----- invariants of the data -----

  /** List partition: every live request is on exactly the stage list its state names, and `all_reqs`
      holds the live requests in order of arrival. */
  ghost predicate Shape(c: Core) {
    && (forall st: Stage :: NoDup(c.lists.At(st)))
    && (forall st: Stage, i: nat :: i in c.lists.At(st) ==> i in c.items && c.items[i].state == st)
    && (forall i: nat :: i in c.items ==> i in c.lists.At(c.items[i].state))
    && Sorted(c.all)
    && (forall i: nat :: i in c.all <==> i in c.items)
    && (forall i: nat :: i in c.items ==> i < c.nread)
  }

  predicate HoldsStream(c: Core, i: nat, k: int) {
    i in c.items && c.items[i].streamId == k
  }

  /** Before `prepare` a request has no stream; from then until it is done it has one. */
  predicate StreamFits(sr: Sreq) {
    && -1 <= sr.streamId < MAX_STREAM_NR
    && (sr.state.Init? || sr.state.MemDone? ==> sr.streamId == -1)
    && (sr.state.Prepared? || sr.state.Running? || sr.state.PostExec? ==> sr.streamId >= 0)
  }

  /** Stream ownership: a stream is marked used exactly when one live request holds it. */
  ghost predicate StreamsOwned(c: Core) {
    && |c.streams| == MAX_STREAM_NR
    && (forall i: nat :: i in c.items ==> StreamFits(c.items[i]))
    && (forall i: nat, k :: HoldsStream(c, i, k) && k >= 0 ==> c.streams[k])
    && (forall i: nat, j: nat, k :: HoldsStream(c, i, k) && HoldsStream(c, j, k) && k >= 0 ==> i == j)
    && (forall k :: 0 <= k < MAX_STREAM_NR && c.streams[k] ==> exists i: nat :: HoldsStream(c, i, k))
  }

  /** The stage lists from the GPU back to the input, in one sequence. */
  function PipeOf(ls: Lists): seq<nat> {
    ls.running + ls.prepared + ls.memdone + ls.init
  }

  function Pipe(c: Core): seq<nat> {
    PipeOf(c.lists)
  }

  predicate Waiting(c: Core, z: nat) {
    z in c.items && (c.items[z].state.MemDone? || c.items[z].state.Init?)
  }

  /** Arrival order is kept along the pipe, and no stream is held by a request that arrived after one
      still waiting for a stream. */
  ghost predicate InOrder(c: Core) {
    && Sorted(Pipe(c))
    && (forall y: nat, z: nat :: y in c.items && c.items[y].streamId >= 0 && Waiting(c, z) ==> y < z)
  }

  // ----- the record of calls -----

  function Launches(log: seq<Event>): seq<nat> {
    if log == [] then []
    else
      var e := log[|log| - 1];
      Launches(log[..|log| - 1]) + (if e.Launch? then [e.t] else [])
  }

  function Prepares(log: seq<Event>): seq<nat> {
    if log == [] then []
    else
      var e := log[|log| - 1];
      Prepares(log[..|log| - 1]) + (if e.Prepare? then [e.t] else [])
  }

  function Responses(log: seq<Event>): seq<nat> {
    if log == [] then []
    else
      var e := log[|log| - 1];
      Responses(log[..|log| - 1]) + (if e.Respond? then [e.t] else [])
  }

  /** The error code request `t` has earned: of the failed lookup or service call, zero if none failed. */
  function Verdict(log: seq<Event>, t: nat): int {
    if log == [] then 0
    else
      var before := Verdict(log[..|log| - 1], t);
      match log[|log| - 1]
      case Lookup(u, found) => if u == t && !found then KGPU_NO_SERVICE else before
      case Prepare(u, code) => if u == t && code != 0 then code else before
      case Launch(u, code) => if u == t && code != 0 then code else before
      case Post(u, code) => if u == t && code != 0 then code else before
      case Respond(_, _, _) => before
  }

  /** The service calls that must have succeeded for a request to be in a stage without an error. */
  ghost predicate Earned(log: seq<Event>, t: nat, st: Stage) {
    && Lookup(t, true) in log
    && (st.Prepared? || st.Running? || st.PostExec? || st.Done? ==> Prepare(t, 0) in log)
    && (st.Running? || st.PostExec? || st.Done? ==> Launch(t, 0) in log)
    && (st.PostExec? || st.Done? ==> Post(t, 0) in log)
  }

  /** Launches were attempted in arrival order, each before everything still to be launched. */
  ghost predicate LaunchesInOrder(c: Core) {
    && Sorted(Launches(c.log))
    && (forall x: nat, z: nat :: x in Launches(c.log) && ToLaunch(c, z) ==> x < z)
    && (forall x: nat :: x in Launches(c.log) ==> x < c.nread)
  }

  /** Whether `z` is still to be launched. */
  predicate ToLaunch(c: Core, z: nat) {
    Waiting(c, z) || z in c.lists.prepared
  }

  /** Prepares were attempted in arrival order, each before everything still waiting for a stream. */
  ghost predicate PreparesInOrder(c: Core) {
    && Sorted(Prepares(c.log))
    && (forall x: nat, z: nat :: x in Prepares(c.log) && Waiting(c, z) ==> x < z)
    && (forall x: nat :: x in Prepares(c.log) ==> x < c.nread)
  }

  ghost predicate CallsInOrder(c: Core) {
    LaunchesInOrder(c) && PreparesInOrder(c)
  }

  /** Every live request carries the code it has earned so far, and a failed one is on the done list. */
  ghost predicate CodesEarned(c: Core) {
    && (forall i: nat :: i in c.items ==> c.items[i].errcode == Verdict(c.log, i))
    && (forall i: nat :: i in c.items && c.items[i].errcode == 0 ==> Earned(c.log, i, c.items[i].state))
    && (forall i: nat :: i in c.items && c.items[i].errcode != 0 ==> c.items[i].state.Done?)
    && (forall t: nat :: t >= c.nread ==> Verdict(c.log, t) == 0)
  }

  /** The answer at position `k` of the log carries the code its request has earned, before the answer and
      for good, and zero only if it was found, prepared, launched and posted with success. */
  ghost predicate AnswerEarned(log: seq<Event>, k: nat)
    requires k < |log|
  {
    log[k].Respond? ==>
      && log[k].code == Verdict(log[..k], log[k].t) && log[k].code == Verdict(log, log[k].t)
      && (log[k].code == 0 ==> Earned(log[..k], log[k].t, Done))
  }

  /** Answered requests are gone for good, each answered once and with the code it had earned. */
  ghost predicate AnswersEarned(c: Core) {
    && NoDup(Responses(c.log))
    && (forall x: nat :: x in Responses(c.log) <==> x < c.nread && x !in c.items)
    && (forall k :: 0 <= k < |c.log| ==> AnswerEarned(c.log, k))
  }

  ghost predicate CoreInv(c: Core) {
    Shape(c) && StreamsOwned(c) && InOrder(c) && CallsInOrder(c) && CodesEarned(c) && AnswersEarned(c)
  }

  /** Where the walk is: the list is what was kept and what is still to visit; a request behind the head
      of memdone is visited only when every stream is taken; of prepared only the head is visited. */
  ghost predicate Cursor(l: Loop) {
    && l.phase <= 6
    && (l.phase == 6 ==> l.todo == [])
    && (l.phase < 6 ==> l.c.lists.At(StageOf(l.phase)) == l.kept + l.todo)
    && (l.phase == 4 && l.todo != [] && l.kept != [] ==> FirstFree(l.c.streams, 0).None?)
    && (l.phase == 3 ==> l.todo == [] || l.kept == [])
    && (l.phase == 0 || l.phase == 5 ==> l.kept == [])
  }

  /** Mentioning `Look` of a loop opens its invariant; a proof that only carries it along never unfolds it. */
  predicate Look(l: Loop, u: int) {
    true
  }

  ghost predicate Sealed(l: Loop) {
    forall u {:trigger Look(l, u)} :: Look(l, u) ==> CoreInv(l.c) && Cursor(l)
  }

  /** The invariant of the main loop. */
  ghost predicate Inv(l: Loop) {
    && l.phase <= 6
    && (l.todo != [] ==> l.phase < 6 && l.todo[0] in l.c.items)
    && Sealed(l)
  }

  lemma Open(l: Loop)
    requires Inv(l)
    ensures CoreInv(l.c) && Cursor(l)
  {
    assert Look(l, 0);
  }
}
