/** The reliable channel between a worker and its host (src/reliable_channel.rs): calls with ids and
    callbacks on one side, a receive loop with eight permits on the other, and replies in any order.
    Each step is atomic; calls, handlers and both receive loops interleave freely. */
module ReliableChannels {
  import opened Sequences
  import opened Tuple

  const PERMITS: nat := 8

  datatype Req<B> = Req(id: nat, body: B)

  /** A reply, marked with the body its handler was given. */
  datatype Rsp<B, V> = Rsp(id: nat, handled: B, value: V)

  /** How far a call has come; Lost if its handler panicked. A call is cancelled by dropping its future; its callback stays. */
  datatype Stage = Allocated | Registered | Queued | Held | Running | Replied | Delivered | Lost

  datatype Call<B, V> = Call(body: B, id: nat, stage: Stage, cancelled: bool, result: Option<Rsp<B, V>>)

  datatype Task<B, V> = Handling(body: B) | Handled(body: B, rsp: Rsp<B, V>) | Sent(body: B)

  /** `held` is the request the receive loop has taken and needs a permit for. */
  datatype State<B, V> = State(calls: seq<Call<B, V>>, nextId: nat, callbacks: map<nat, nat>,
                               requests: seq<Req<B>>, held: Option<Req<B>>, permits: nat,
                               tasks: map<nat, Task<B, V>>, replies: seq<Rsp<B, V>>, panicked: bool)

  function Init<B, V>(): State<B, V> {
    State([], 1, map[], [], None, PERMITS, map[], [], false)
  }

  datatype Event<B, V> =
    | Allocate(body: B)
    | Register(call: nat)
    | Send(call: nat)
    | Cancel(call: nat)
    | Receive
    | Start
    | Handle(id: nat, value: V)
    | Crash(id: nat)
    | Reply(id: nat)
    | Release(id: nat)
    | Deliver

  predicate At<B, V>(s: State<B, V>, call: nat, stage: Stage) {
    call < |s.calls| && s.calls[call].stage == stage
  }

  predicate Enabled<B, V>(s: State<B, V>, e: Event<B, V>) {
    !s.panicked &&
    match e
    case Allocate(_) => true
    case Register(c) => At(s, c, Allocated)
    case Send(c) => At(s, c, Registered)
    case Cancel(c) => c < |s.calls| && s.calls[c].stage !in {Allocated, Registered} && !s.calls[c].cancelled
    case Receive => s.held.None? && s.requests != []
    case Start => s.held.Some? && s.permits > 0
    case Handle(id, _) => id in s.tasks && s.tasks[id].Handling?
    case Crash(id) => id in s.tasks && s.tasks[id].Handling?
    case Reply(id) => id in s.tasks && s.tasks[id].Handled?
    case Release(id) => id in s.tasks && s.tasks[id].Sent?
    case Deliver => s.replies != []
  }

  /** Records how far the call behind an id has come. */
  function Moved<B, V>(s: State<B, V>, id: nat, stage: Stage): seq<Call<B, V>> {
    if 0 < id <= |s.calls| then s.calls[id - 1 := s.calls[id - 1].(stage := stage)] else s.calls
  }

  function Do<B, V>(s: State<B, V>, e: Event<B, V>): State<B, V>
    requires Enabled(s, e)
  {
    match e
    case Allocate(body) =>
      s.(calls := s.calls + [Call(body, s.nextId, Allocated, false, None)], nextId := s.nextId + 1)
    case Register(c) =>
      s.(calls := s.calls[c := s.calls[c].(stage := Registered)], callbacks := s.callbacks[s.calls[c].id := c])
    case Send(c) =>
      s.(calls := s.calls[c := s.calls[c].(stage := Queued)],
         requests := s.requests + [Req(s.calls[c].id, s.calls[c].body)])
    case Cancel(c) => s.(calls := s.calls[c := s.calls[c].(cancelled := true)])
    case Receive =>
      s.(calls := Moved(s, s.requests[0].id, Held), held := Some(s.requests[0]), requests := s.requests[1..])
    case Start =>
      var r := s.held.value;
      s.(calls := Moved(s, r.id, Running), held := None, permits := s.permits - 1, tasks := s.tasks[r.id := Handling(r.body)])
    case Handle(id, v) =>
      var body := s.tasks[id].body;
      s.(tasks := s.tasks[id := Handled(body, Rsp(id, body, v))])
    case Crash(id) =>
      s.(calls := Moved(s, id, Lost), tasks := s.tasks - {id}, permits := s.permits + 1)
    case Reply(id) =>
      s.(calls := Moved(s, id, Replied), replies := s.replies + [s.tasks[id].rsp], tasks := s.tasks[id := Sent(s.tasks[id].body)])
    case Release(id) => s.(tasks := s.tasks - {id}, permits := s.permits + 1)
    case Deliver => Delivery(s, s.replies[0]).(replies := s.replies[1..])
  }

  /** The worker's receive loop: the callback must be there, and is used up; nobody may listen. */
  function Delivery<B, V>(s: State<B, V>, rsp: Rsp<B, V>): State<B, V> {
    if rsp.id !in s.callbacks || s.callbacks[rsp.id] >= |s.calls| then s.(panicked := true)
    else
      var c := s.callbacks[rsp.id];
      var call := s.calls[c].(stage := Delivered, result := if s.calls[c].cancelled then None else Some(rsp));
      s.(calls := s.calls[c := call], callbacks := s.callbacks - {rsp.id})
  }

  predicate IsRun<B, V>(s: State<B, V>, es: seq<Event<B, V>>)
    decreases |es|
  {
    es == [] || (Enabled(s, es[0]) && IsRun(Do(s, es[0]), es[1..]))
  }

  function Run<B, V>(s: State<B, V>, es: seq<Event<B, V>>): State<B, V>
    requires IsRun(s, es)
    decreases |es|
  {
    if es == [] then s else Run(Do(s, es[0]), es[1..])
  }

  // What every step keeps.

  predicate IsCall<B(==), V>(s: State<B, V>, id: nat, body: B, stage: Stage) {
    0 < id <= |s.calls| && s.calls[id - 1].body == body && s.calls[id - 1].stage == stage
  }

  /** Ids count the calls up, so no two calls share one. */
  predicate IdsFresh<B, V>(s: State<B, V>) {
    s.nextId == |s.calls| + 1 && forall i :: 0 <= i < |s.calls| ==> s.calls[i].id == i + 1
  }

  predicate Outstanding(stage: Stage) {
    stage != Allocated && stage != Delivered
  }

  /** There is a callback exactly for each outstanding call, and it is that call's. */
  predicate CallbacksMatch<B, V>(s: State<B, V>) {
    && (forall id <- s.callbacks :: 0 < id <= |s.calls| && s.callbacks[id] == id - 1)
    && (forall i :: 0 <= i < |s.calls| ==> (Outstanding(s.calls[i].stage) <==> i + 1 in s.callbacks))
  }

  predicate RequestsMatch<B(==), V>(s: State<B, V>) {
    && (forall i :: 0 <= i < |s.requests| ==> IsCall(s, s.requests[i].id, s.requests[i].body, Queued))
    && (forall i, j :: 0 <= i < j < |s.requests| ==> s.requests[i].id != s.requests[j].id)
    && (s.held.Some? ==> IsCall(s, s.held.value.id, s.held.value.body, Held))
  }

  predicate IsTask<B(==), V>(s: State<B, V>, id: nat, task: Task<B, V>) {
    match task
    case Handling(body) => IsCall(s, id, body, Running)
    case Handled(body, rsp) => IsCall(s, id, body, Running) && rsp.id == id && rsp.handled == body
    case Sent(body) => IsCall(s, id, body, Replied) || IsCall(s, id, body, Delivered)
  }

  predicate TasksMatch<B(==), V>(s: State<B, V>) {
    && s.permits + |s.tasks| == PERMITS
    && forall id <- s.tasks :: IsTask(s, id, s.tasks[id])
  }

  predicate RepliesMatch<B(==), V>(s: State<B, V>) {
    && (forall i :: 0 <= i < |s.replies| ==> IsCall(s, s.replies[i].id, s.replies[i].handled, Replied))
    && (forall i, j :: 0 <= i < j < |s.replies| ==> s.replies[i].id != s.replies[j].id)
  }

  /** A result answers the call that holds it. */
  predicate ResultsMatch<B(==), V>(s: State<B, V>) {
    forall i :: 0 <= i < |s.calls| ==>
      var c := s.calls[i];
      (c.result.Some? ==> c.stage == Delivered && c.result.value.id == c.id && c.result.value.handled == c.body)
      && (c.stage == Delivered && !c.cancelled ==> c.result.Some?)
  }

  predicate CallsMatch<B(==), V>(s: State<B, V>) {
    !s.panicked && IdsFresh(s) && CallbacksMatch(s) && ResultsMatch(s)
  }

  predicate Inv<B(==), V>(s: State<B, V>) {
    CallsMatch(s) && RequestsMatch(s) && TasksMatch(s) && RepliesMatch(s)
  }

  // A step moves one call, or none (id 0), to another stage. What does not mention it stays right.

  predicate Elsewhere<B(==), V>(s: State<B, V>, s': State<B, V>, id: nat) {
    && |s.calls| <= |s'.calls|
    && forall i :: 0 <= i < |s.calls| && i != id - 1 ==>
         s'.calls[i].body == s.calls[i].body && s'.calls[i].stage == s.calls[i].stage
  }

  predicate Was<B, V>(s: State<B, V>, id: nat, stage: Stage) {
    0 < id <= |s.calls| && s.calls[id - 1].stage == stage
  }

  lemma RequestsFrame<B, V>(s: State<B, V>, s': State<B, V>, id: nat)
    requires RequestsMatch(s) && Elsewhere(s, s', id) && s'.requests == s.requests && s'.held == s.held
    requires !Was(s, id, Queued) && !Was(s, id, Held)
    ensures RequestsMatch(s')
  {
  }

  lemma TasksFrame<B, V>(s: State<B, V>, s': State<B, V>, id: nat)
    requires TasksMatch(s) && Elsewhere(s, s', id) && s'.tasks == s.tasks && s'.permits == s.permits
    requires !Was(s, id, Running) && !Was(s, id, Replied) && !Was(s, id, Delivered)
    ensures TasksMatch(s')
  {
  }

  lemma RepliesFrame<B, V>(s: State<B, V>, s': State<B, V>, id: nat)
    requires RepliesMatch(s) && Elsewhere(s, s', id) && s'.replies == s.replies && !Was(s, id, Replied)
    ensures RepliesMatch(s')
  {
  }

  lemma CallsFrame<B, V>(s: State<B, V>, s': State<B, V>, id: nat, stage: Stage)
    requires CallsMatch(s) && 0 < id <= |s.calls| && Outstanding(stage) && Outstanding(s.calls[id - 1].stage)
    requires s'.calls == s.calls[id - 1 := s.calls[id - 1].(stage := stage)]
    requires s'.callbacks == s.callbacks && s'.nextId == s.nextId && s'.panicked == s.panicked
    ensures CallsMatch(s')
  {
  }

  lemma AllocateKeeps<B, V>(s: State<B, V>, e: Event<B, V>)
    requires Inv(s) && Enabled(s, e) && e.Allocate?
    ensures Inv(Do(s, e))
  {
    var s' := Do(s, e);
    RequestsFrame(s, s', 0);
    TasksFrame(s, s', 0);
    RepliesFrame(s, s', 0);
  }

  lemma RegisterKeeps<B, V>(s: State<B, V>, e: Event<B, V>)
    requires Inv(s) && Enabled(s, e) && e.Register?
    ensures Inv(Do(s, e))
  {
    var s' := Do(s, e);
    RequestsFrame(s, s', e.call + 1);
    TasksFrame(s, s', e.call + 1);
    RepliesFrame(s, s', e.call + 1);
  }

  lemma SendRequests<B, V>(s: State<B, V>, s': State<B, V>, req: Req<B>)
    requires RequestsMatch(s) && Elsewhere(s, s', req.id) && s'.held == s.held && Was(s, req.id, Registered)
    requires s'.requests == s.requests + [req] && IsCall(s', req.id, req.body, Queued)
    ensures RequestsMatch(s')
  {
  }

  lemma SendKeeps<B, V>(s: State<B, V>, e: Event<B, V>)
    requires Inv(s) && Enabled(s, e) && e.Send?
    ensures Inv(Do(s, e))
  {
    var s' := Do(s, e);
    CallsFrame(s, s', e.call + 1, Queued);
    SendRequests(s, s', Req(e.call + 1, s.calls[e.call].body));
    TasksFrame(s, s', e.call + 1);
    RepliesFrame(s, s', e.call + 1);
  }

  lemma CancelKeeps<B, V>(s: State<B, V>, e: Event<B, V>)
    requires Inv(s) && Enabled(s, e) && e.Cancel?
    ensures Inv(Do(s, e))
  {
    var s' := Do(s, e);
    RequestsFrame(s, s', 0);
    TasksFrame(s, s', 0);
    RepliesFrame(s, s', 0);
  }

  lemma ReceiveKeeps<B, V>(s: State<B, V>, e: Event<B, V>)
    requires Inv(s) && Enabled(s, e) && e.Receive?
    ensures Inv(Do(s, e))
  {
    var s' := Do(s, e);
    var id := s.requests[0].id;
    CallsFrame(s, s', id, Held);
    TasksFrame(s, s', id);
    RepliesFrame(s, s', id);
  }

  lemma StartTasks<B, V>(s: State<B, V>, s': State<B, V>, req: Req<B>)
    requires TasksMatch(s) && Elsewhere(s, s', req.id) && Was(s, req.id, Held) && s.permits > 0
    requires s'.tasks == s.tasks[req.id := Handling(req.body)] && s'.permits == s.permits - 1
    requires IsCall(s', req.id, req.body, Running)
    ensures TasksMatch(s')
  {
    assert forall id <- s.tasks :: IsTask(s, id, s.tasks[id]);
    assert req.id !in s.tasks;
  }

  lemma StartRequests<B, V>(s: State<B, V>, s': State<B, V>, id: nat)
    requires RequestsMatch(s) && Elsewhere(s, s', id) && Was(s, id, Held)
    requires s'.requests == s.requests && s'.held == None
    ensures RequestsMatch(s')
  {
  }

  lemma StartKeeps<B, V>(s: State<B, V>, e: Event<B, V>)
    requires Inv(s) && Enabled(s, e) && e.Start?
    ensures Inv(Do(s, e))
  {
    var s' := Do(s, e);
    var req := s.held.value;
    CallsFrame(s, s', req.id, Running);
    StartRequests(s, s', req.id);
    StartTasks(s, s', req);
    RepliesFrame(s, s', req.id);
  }

  lemma HandleKeeps<B, V>(s: State<B, V>, e: Event<B, V>)
    requires Inv(s) && Enabled(s, e) && e.Handle?
    ensures Inv(Do(s, e))
  {
    var s' := Do(s, e);
    RequestsFrame(s, s', 0);
    RepliesFrame(s, s', 0);
  }

  lemma TaskGone<B, V>(s: State<B, V>, s': State<B, V>, id: nat)
    requires TasksMatch(s) && Elsewhere(s, s', id) && id in s.tasks
    requires s'.tasks == s.tasks - {id} && s'.permits == s.permits + 1
    ensures TasksMatch(s')
  {
  }

  /** A handler that panics gives its permit back and never replies; its call's callback stays. */
  lemma CrashKeeps<B, V>(s: State<B, V>, e: Event<B, V>)
    requires Inv(s) && Enabled(s, e) && e.Crash?
    ensures Inv(Do(s, e))
  {
    var s' := Do(s, e);
    assert IsTask(s, e.id, s.tasks[e.id]);
    CallsFrame(s, s', e.id, Lost);
    RequestsFrame(s, s', e.id);
    TaskGone(s, s', e.id);
    RepliesFrame(s, s', e.id);
  }

  lemma ReplyTasks<B, V>(s: State<B, V>, s': State<B, V>, id: nat)
    requires TasksMatch(s) && Elsewhere(s, s', id) && id in s.tasks && s.tasks[id].Handled?
    requires s'.tasks == s.tasks[id := Sent(s.tasks[id].body)] && s'.permits == s.permits
    requires IsCall(s', id, s.tasks[id].body, Replied)
    ensures TasksMatch(s')
  {
  }

  lemma ReplyReplies<B, V>(s: State<B, V>, s': State<B, V>, rsp: Rsp<B, V>)
    requires RepliesMatch(s) && Elsewhere(s, s', rsp.id) && Was(s, rsp.id, Running)
    requires s'.replies == s.replies + [rsp] && IsCall(s', rsp.id, rsp.handled, Replied)
    ensures RepliesMatch(s')
  {
  }

  lemma ReplyKeeps<B, V>(s: State<B, V>, e: Event<B, V>)
    requires Inv(s) && Enabled(s, e) && e.Reply?
    ensures Inv(Do(s, e))
  {
    var s' := Do(s, e);
    assert IsTask(s, e.id, s.tasks[e.id]);
    CallsFrame(s, s', e.id, Replied);
    RequestsFrame(s, s', e.id);
    ReplyTasks(s, s', e.id);
    ReplyReplies(s, s', s.tasks[e.id].rsp);
  }

  lemma ReleaseKeeps<B, V>(s: State<B, V>, e: Event<B, V>)
    requires Inv(s) && Enabled(s, e) && e.Release?
    ensures Inv(Do(s, e))
  {
    var s' := Do(s, e);
    RequestsFrame(s, s', 0);
    TaskGone(s, s', e.id);
    RepliesFrame(s, s', 0);
  }

  /** The reply at hand finds the callback of the call that issued its id. */
  lemma DeliverFinds<B, V>(s: State<B, V>)
    requires Inv(s) && s.replies != []
    ensures var rsp := s.replies[0];
            && rsp.id in s.callbacks && s.callbacks[rsp.id] == rsp.id - 1 && IsCall(s, rsp.id, rsp.handled, Replied)
            && s.calls[rsp.id - 1].id == rsp.id
  {
    var rsp := s.replies[0];
    assert IsCall(s, rsp.id, rsp.handled, Replied);
    assert rsp.id - 1 + 1 in s.callbacks;
  }

  lemma DeliverCalls<B, V>(s: State<B, V>)
    requires Inv(s) && s.replies != []
    ensures CallsMatch(Delivery(s, s.replies[0]))
  {
    DeliverFinds(s);
  }

  lemma DeliverTasks<B, V>(s: State<B, V>, s': State<B, V>, id: nat)
    requires TasksMatch(s) && Elsewhere(s, s', id) && s'.tasks == s.tasks && s'.permits == s.permits
    requires 0 < id <= |s.calls| && Was(s, id, Replied) && Was(s', id, Delivered)
    requires s'.calls[id - 1].body == s.calls[id - 1].body
    ensures TasksMatch(s')
  {
  }

  lemma DeliverReplies<B, V>(s: State<B, V>, s': State<B, V>)
    requires RepliesMatch(s) && s.replies != [] && Elsewhere(s, s', s.replies[0].id) && s'.replies == s.replies[1..]
    ensures RepliesMatch(s')
  {
  }

  lemma DeliverMoves<B, V>(s: State<B, V>, s': State<B, V>)
    requires Inv(s) && s.replies != [] && s' == Delivery(s, s.replies[0]).(replies := s.replies[1..])
    ensures var id := s.replies[0].id;
            && Elsewhere(s, s', id) && Was(s, id, Replied) && Was(s', id, Delivered)
            && s'.calls[id - 1].body == s.calls[id - 1].body
            && s'.requests == s.requests && s'.held == s.held && s'.tasks == s.tasks && s'.permits == s.permits
  {
    DeliverFinds(s);
  }

  lemma DeliverKeeps<B, V>(s: State<B, V>, e: Event<B, V>)
    requires Inv(s) && Enabled(s, e) && e.Deliver?
    ensures Inv(Do(s, e))
  {
    var s' := Do(s, e);
    DeliverMoves(s, s');
    DeliverCalls(s);
    RequestsFrame(s, s', s.replies[0].id);
    DeliverTasks(s, s', s.replies[0].id);
    DeliverReplies(s, s');
  }

  lemma StepKeeps<B, V>(s: State<B, V>, e: Event<B, V>)
    requires Inv(s) && Enabled(s, e)
    ensures Inv(Do(s, e))
  {
    match e
    case Allocate(_) => AllocateKeeps(s, e);
    case Register(_) => RegisterKeeps(s, e);
    case Send(_) => SendKeeps(s, e);
    case Cancel(_) => CancelKeeps(s, e);
    case Receive => ReceiveKeeps(s, e);
    case Start => StartKeeps(s, e);
    case Handle(_, _) => HandleKeeps(s, e);
    case Crash(_) => CrashKeeps(s, e);
    case Reply(_) => ReplyKeeps(s, e);
    case Release(_) => ReleaseKeeps(s, e);
    case Deliver => DeliverKeeps(s, e);
  }

  lemma {:induction false} RunKeeps<B, V>(s: State<B, V>, es: seq<Event<B, V>>)
    requires Inv(s) && IsRun(s, es)
    ensures Inv(Run(s, es))
    decreases |es|
  {
    if es != [] {
      StepKeeps(s, es[0]);
      RunKeeps(Do(s, es[0]), es[1..]);
    }
  }

  /** A call that has its answer keeps it, and the bodies and ids of calls never change. */
  ghost predicate Settled<B, V>(c: Call<B, V>, c': Call<B, V>) {
    c'.id == c.id && (c.result.Some? ==> c'.result == c.result)
  }

  lemma DeliverSettles<B, V>(s: State<B, V>, i: nat)
    requires Inv(s) && s.replies != [] && i < |s.calls|
    ensures var s' := Delivery(s, s.replies[0]);
            |s'.calls| == |s.calls| && Settled(s.calls[i], s'.calls[i]) && s'.calls[i].body == s.calls[i].body
  {
    DeliverFinds(s);
  }

  lemma OthersSettle<B, V>(s: State<B, V>, e: Event<B, V>, i: nat)
    requires Enabled(s, e) && !e.Deliver? && i < |s.calls|
    ensures i < |Do(s, e).calls| && Settled(s.calls[i], Do(s, e).calls[i]) && Do(s, e).calls[i].body == s.calls[i].body
  {
  }

  lemma StepSettles<B, V>(s: State<B, V>, e: Event<B, V>, i: nat)
    requires Inv(s) && Enabled(s, e) && i < |s.calls|
    ensures i < |Do(s, e).calls| && Settled(s.calls[i], Do(s, e).calls[i]) && Do(s, e).calls[i].body == s.calls[i].body
  {
    if e.Deliver? {
      DeliverSettles(s, i);
    } else {
      OthersSettle(s, e, i);
    }
  }

  lemma {:induction false} RunSettles<B, V>(s: State<B, V>, es: seq<Event<B, V>>, i: nat)
    requires Inv(s) && IsRun(s, es) && i < |s.calls|
    ensures i < |Run(s, es).calls| && Settled(s.calls[i], Run(s, es).calls[i]) && Run(s, es).calls[i].body == s.calls[i].body
    decreases |es|
  {
    if es != [] {
      StepSettles(s, es[0], i);
      StepKeeps(s, es[0]);
      RunSettles(Do(s, es[0]), es[1..], i);
    }
  }

  /** Every sent call that has no answer yet is in one place on its way, unless its handler panicked. */
  predicate Placed<B, V>(s: State<B, V>, i: nat)
    requires i < |s.calls|
  {
    match s.calls[i].stage
    case Queued => exists k :: 0 <= k < |s.requests| && s.requests[k].id == i + 1
    case Held => s.held.Some? && s.held.value.id == i + 1
    case Running => i + 1 in s.tasks && !s.tasks[i + 1].Sent?
    case Replied => exists k :: 0 <= k < |s.replies| && s.replies[k].id == i + 1
    case _ => true
  }

  predicate NothingLost<B, V>(s: State<B, V>) {
    forall i :: 0 <= i < |s.calls| ==> Placed(s, i)
  }

  lemma SendPlaces<B, V>(s: State<B, V>, e: Event<B, V>, i: nat)
    requires Inv(s) && Enabled(s, e) && (e.Send? || e.Receive?) && i < |s.calls| && Placed(s, i)
    ensures Placed(Do(s, e), i)
  {
    var s' := Do(s, e);
    if s.calls[i].stage == Queued {
      var k :| 0 <= k < |s.requests| && s.requests[k].id == i + 1;
      if e.Send? {
        assert s'.requests[k].id == i + 1;
      } else if k > 0 {
        assert s'.requests[k - 1].id == i + 1;
      }
    } else if e.Send? && i == e.call {
      assert s'.requests[|s.requests|].id == i + 1;
    }
  }

  lemma ReplyPlaces<B, V>(s: State<B, V>, e: Event<B, V>, i: nat)
    requires Inv(s) && Enabled(s, e) && e.Reply? && i < |s.calls| && Placed(s, i)
    ensures Placed(Do(s, e), i)
  {
    var s' := Do(s, e);
    assert IsTask(s, e.id, s.tasks[e.id]);
    assert s'.replies[|s.replies|].id == e.id;
    if s.calls[i].stage == Replied {
      var k :| 0 <= k < |s.replies| && s.replies[k].id == i + 1;
      assert s'.replies[k].id == i + 1;
    }
  }

  lemma DeliverPlaces<B, V>(s: State<B, V>, e: Event<B, V>, i: nat)
    requires Inv(s) && Enabled(s, e) && e.Deliver? && i < |s.calls| && Placed(s, i)
    ensures Placed(Do(s, e), i)
  {
    DeliverFinds(s);
    if s.calls[i].stage == Replied {
      var k :| 0 <= k < |s.replies| && s.replies[k].id == i + 1;
      if k > 0 {
        assert Do(s, e).replies[k - 1].id == i + 1;
      }
    }
  }

  lemma StepPlaces<B, V>(s: State<B, V>, e: Event<B, V>, i: nat)
    requires Inv(s) && Enabled(s, e) && i < |s.calls| && Placed(s, i)
    ensures Placed(Do(s, e), i)
  {
    if e.Send? || e.Receive? {
      SendPlaces(s, e, i);
    } else if e.Reply? {
      ReplyPlaces(s, e, i);
    } else if e.Deliver? {
      DeliverPlaces(s, e, i);
    } else if e.Release? || e.Crash? {
      assert IsTask(s, e.id, s.tasks[e.id]);
    }
  }

  lemma {:induction false} RunPlaces<B, V>(s: State<B, V>, es: seq<Event<B, V>>)
    requires Inv(s) && NothingLost(s) && IsRun(s, es)
    ensures NothingLost(Run(s, es))
    decreases |es|
  {
    if es != [] {
      var s' := Do(s, es[0]);
      StepKeeps(s, es[0]);
      forall i | 0 <= i < |s'.calls| ensures Placed(s', i) {
        if i < |s.calls| {
          StepPlaces(s, es[0], i);
        }
      }
      RunPlaces(s', es[1..]);
    }
  }

  /** A call is lost only by the panic of its own handler. */
  lemma {:induction false} RunLoses<B, V>(s: State<B, V>, es: seq<Event<B, V>>, i: nat)
    requires IsRun(s, es) && i < |Run(s, es).calls| && Run(s, es).calls[i].stage == Lost
    ensures (i < |s.calls| && s.calls[i].stage == Lost) || Crash(i + 1) in es
    decreases |es|
  {
    if es != [] {
      RunLoses(Do(s, es[0]), es[1..], i);
      if Crash(i + 1) !in es {
        assert es[0] in es;
        StepLoses(s, es[0], i);
      }
    }
  }

  lemma StepLoses<B, V>(s: State<B, V>, e: Event<B, V>, i: nat)
    requires Enabled(s, e) && i < |Do(s, e).calls| && Do(s, e).calls[i].stage == Lost && e != Crash(i + 1)
    ensures i < |s.calls| && s.calls[i].stage == Lost
  {
  }

  // Whose value a result is.

  /** Every value on its way back, or arrived, is one that the handler of its own call returned. */
  ghost predicate ValuesFrom<B, V>(s: State<B, V>, past: seq<Event<B, V>>) {
    && (forall id <- s.tasks :: s.tasks[id].Handled? ==> Handle(s.tasks[id].rsp.id, s.tasks[id].rsp.value) in past)
    && (forall i :: 0 <= i < |s.replies| ==> Handle(s.replies[i].id, s.replies[i].value) in past)
    && (forall i :: 0 <= i < |s.calls| && s.calls[i].result.Some? ==>
          Handle(s.calls[i].result.value.id, s.calls[i].result.value.value) in past)
  }

  lemma DeliverValues<B, V>(s: State<B, V>, past: seq<Event<B, V>>)
    requires Inv(s) && s.replies != [] && ValuesFrom(s, past)
    ensures ValuesFrom(Do(s, Event.Deliver), past + [Event.Deliver])
  {
    DeliverFinds(s);
    var s' := Do(s, Event.Deliver);
    assert Handle(s.replies[0].id, s.replies[0].value) in past;
    forall i | 0 <= i < |s'.replies| ensures Handle(s'.replies[i].id, s'.replies[i].value) in past {
      assert s'.replies[i] == s.replies[i + 1];
    }
  }

  /** What a longer history has seen. */
  lemma MoreSeen<B, V>(s: State<B, V>, past: seq<Event<B, V>>, e: Event<B, V>)
    requires ValuesFrom(s, past)
    ensures ValuesFrom(s, past + [e])
  {
  }

  lemma HandleValues<B, V>(s: State<B, V>, past: seq<Event<B, V>>, e: Event<B, V>)
    requires Enabled(s, e) && e.Handle? && ValuesFrom(s, past)
    ensures ValuesFrom(Do(s, e), past + [e])
  {
    MoreSeen(s, past, e);
    assert e in past + [e] && e == Handle(e.id, e.value);
  }

  lemma TaskValues<B, V>(s: State<B, V>, past: seq<Event<B, V>>, e: Event<B, V>)
    requires Enabled(s, e) && (e.Reply? || e.Release? || e.Crash? || e.Start?) && ValuesFrom(s, past)
    ensures ValuesFrom(Do(s, e), past)
  {
  }

  lemma CallValues<B, V>(s: State<B, V>, past: seq<Event<B, V>>, e: Event<B, V>)
    requires Enabled(s, e) && (e.Allocate? || e.Register? || e.Send? || e.Cancel? || e.Receive?) && ValuesFrom(s, past)
    ensures ValuesFrom(Do(s, e), past)
  {
    var s' := Do(s, e);
    forall i | 0 <= i < |s'.calls| && s'.calls[i].result.Some? ensures i < |s.calls| && s'.calls[i].result == s.calls[i].result {
    }
  }

  lemma StepValues<B, V>(s: State<B, V>, past: seq<Event<B, V>>, e: Event<B, V>)
    requires Inv(s) && Enabled(s, e) && ValuesFrom(s, past)
    ensures ValuesFrom(Do(s, e), past + [e])
  {
    if e.Deliver? {
      DeliverValues(s, past);
    } else if e.Handle? {
      HandleValues(s, past, e);
    } else {
      if e.Reply? || e.Release? || e.Crash? || e.Start? {
        TaskValues(s, past, e);
      } else {
        CallValues(s, past, e);
      }
      MoreSeen(Do(s, e), past, e);
    }
  }

  lemma {:induction false} RunValues<B, V>(s: State<B, V>, past: seq<Event<B, V>>, es: seq<Event<B, V>>)
    requires Inv(s) && ValuesFrom(s, past) && IsRun(s, es)
    ensures ValuesFrom(Run(s, es), past + es)
    decreases |es|
  {
    if es == [] {
      assert past + es == past;
    } else {
      StepValues(s, past, es[0]);
      StepKeeps(s, es[0]);
      Regroup(past, es);
      RunValues(Do(s, es[0]), past + [es[0]], es[1..]);
    }
  }

  /** The handler of the call has returned. */
  predicate Returned<B, V>(s: State<B, V>, id: nat) {
    0 < id <= |s.calls| &&
    match s.calls[id - 1].stage
    case Running => id in s.tasks && s.tasks[id].Handled?
    case Replied => true
    case Delivered => true
    case _ => false
  }

  lemma HandleReturned<B, V>(s: State<B, V>, e: Event<B, V>, id: nat)
    requires Inv(s) && Enabled(s, e) && e.Handle? && (Returned(s, id) || e.id == id)
    ensures Returned(Do(s, e), id)
  {
    assert IsTask(s, e.id, s.tasks[e.id]);
  }

  lemma CallerReturned<B, V>(s: State<B, V>, e: Event<B, V>, id: nat)
    requires Inv(s) && Enabled(s, e) && (e.Allocate? || e.Register? || e.Send? || e.Cancel?) && Returned(s, id)
    ensures Returned(Do(s, e), id)
  {
    var s' := Do(s, e);
    assert s'.calls[id - 1].stage == s.calls[id - 1].stage && s'.tasks == s.tasks;
  }

  lemma HostReturned<B, V>(s: State<B, V>, e: Event<B, V>, id: nat)
    requires Inv(s) && Enabled(s, e) && (e.Receive? || e.Start?) && Returned(s, id)
    ensures Returned(Do(s, e), id)
  {
    var s' := Do(s, e);
    var moved := if e.Receive? then s.requests[0].id else s.held.value.id;
    assert IsCall(s, moved, s.calls[moved - 1].body, if e.Receive? then Queued else Held);
    assert moved != id;
    assert s'.calls[id - 1].stage == s.calls[id - 1].stage;
  }

  lemma TaskReturned<B, V>(s: State<B, V>, e: Event<B, V>, id: nat)
    requires Inv(s) && Enabled(s, e) && (e.Crash? || e.Reply? || e.Release?) && Returned(s, id)
    ensures Returned(Do(s, e), id)
  {
    assert IsTask(s, e.id, s.tasks[e.id]);
    var s' := Do(s, e);
    if e.id != id {
      assert s'.calls[id - 1].stage == s.calls[id - 1].stage;
    }
  }

  lemma DeliverReturned<B, V>(s: State<B, V>, id: nat)
    requires Inv(s) && s.replies != [] && Returned(s, id)
    ensures Returned(Do(s, Event.Deliver), id)
  {
    DeliverFinds(s);
    var s' := Do(s, Event.Deliver);
    var c := s.callbacks[s.replies[0].id];
    if c != id - 1 {
      assert s'.calls[id - 1].stage == s.calls[id - 1].stage;
    }
  }

  lemma StepReturned<B, V>(s: State<B, V>, e: Event<B, V>, id: nat)
    requires Inv(s) && Enabled(s, e) && (Returned(s, id) || (e.Handle? && e.id == id))
    ensures Returned(Do(s, e), id)
  {
    match e
    case Allocate(_) => CallerReturned(s, e, id);
    case Register(_) => CallerReturned(s, e, id);
    case Send(_) => CallerReturned(s, e, id);
    case Cancel(_) => CallerReturned(s, e, id);
    case Receive => HostReturned(s, e, id);
    case Start => HostReturned(s, e, id);
    case Handle(_, _) => HandleReturned(s, e, id);
    case Crash(_) => TaskReturned(s, e, id);
    case Reply(_) => TaskReturned(s, e, id);
    case Release(_) => TaskReturned(s, e, id);
    case Deliver => DeliverReturned(s, id);
  }

  lemma {:induction false} NotAgain<B, V>(s: State<B, V>, es: seq<Event<B, V>>, id: nat, j: nat)
    requires Inv(s) && IsRun(s, es) && Returned(s, id) && j < |es|
    ensures !(es[j].Handle? && es[j].id == id)
    decreases |es|
  {
    if j == 0 {
      if id in s.tasks {
        assert IsTask(s, id, s.tasks[id]);
      }
    } else {
      StepKeeps(s, es[0]);
      StepReturned(s, es[0], id);
      NotAgain(Do(s, es[0]), es[1..], id, j - 1);
    }
  }

  /** A handler returns once: a run has at most one value for each call. */
  lemma {:induction false} HandledOnce<B, V>(s: State<B, V>, es: seq<Event<B, V>>, i: nat, j: nat)
    requires Inv(s) && IsRun(s, es) && i < j < |es| && es[i].Handle?
    ensures !(es[j].Handle? && es[j].id == es[i].id)
    decreases |es|
  {
    StepKeeps(s, es[0]);
    if i == 0 {
      StepReturned(s, es[0], es[0].id);
      NotAgain(Do(s, es[0]), es[1..], es[0].id, j - 1);
    } else {
      HandledOnce(Do(s, es[0]), es[1..], i - 1, j - 1);
    }
  }

  /** Main result: a call's result is the value that the handler of this very call returned, and so
      is every reply on its way; a handler returns one value only. */
  lemma ResultsAreTheHandlers<B, V>(es: seq<Event<B, V>>)
    requires IsRun(Init(), es)
    ensures var s := Run(Init(), es);
            && (forall i :: 0 <= i < |s.calls| && s.calls[i].result.Some? ==>
                  Handle(s.calls[i].id, s.calls[i].result.value.value) in es)
            && (forall i :: 0 <= i < |s.replies| ==> Handle(s.replies[i].id, s.replies[i].value) in es)
    ensures forall i, j :: 0 <= i < j < |es| && es[i].Handle? && es[j].Handle? ==> es[i].id != es[j].id
  {
    RunKeeps(Init(), es);
    RunValues(Init(), [], es);
    assert [] + es == es;
    forall i, j | 0 <= i < j < |es| && es[i].Handle? && es[j].Handle? ensures es[i].id != es[j].id {
      HandledOnce(Init(), es, i, j);
    }
  }

  // The promises, for every run.

  /** No reply misses its callback; whoever holds a result issued its id, and the handler was given
      that call's body; live ids are distinct; at most eight handlers run. */
  lemma RepliesReachTheirCalls<B, V>(es: seq<Event<B, V>>)
    requires IsRun(Init(), es)
    ensures var s := Run(Init(), es);
            && !s.panicked
            && (forall i :: 0 <= i < |s.calls| && s.calls[i].result.Some? ==>
                  s.calls[i].result.value.id == s.calls[i].id && s.calls[i].result.value.handled == s.calls[i].body)
            && (forall i, j :: 0 <= i < j < |s.calls| ==> s.calls[i].id != s.calls[j].id)
            && s.permits + |s.tasks| == 8
            && NothingLost(s)
            && (forall i :: 0 <= i < |s.calls| && s.calls[i].stage == Lost ==> Crash(i + 1) in es)
  {
    RunKeeps(Init(), es);
    RunPlaces(Init(), es);
    forall i | 0 <= i < |Run(Init(), es).calls| && Run(Init(), es).calls[i].stage == Lost ensures Crash(i + 1) in es {
      RunLoses(Init(), es, i);
    }
  }

  /** A call that is cancelled before it has a result never gets one. */
  predicate Deaf<B, V>(s: State<B, V>, i: nat) {
    i < |s.calls| && s.calls[i].cancelled && s.calls[i].result.None?
  }

  lemma DeliverDeaf<B, V>(s: State<B, V>, i: nat)
    requires Inv(s) && s.replies != [] && Deaf(s, i)
    ensures Deaf(Do(s, Event.Deliver), i)
  {
    DeliverFinds(s);
  }

  lemma OthersDeaf<B, V>(s: State<B, V>, e: Event<B, V>, i: nat)
    requires Enabled(s, e) && !e.Deliver? && i < |s.calls| && s.calls[i].result.None? && (s.calls[i].cancelled || e == Cancel(i))
    ensures Deaf(Do(s, e), i)
  {
    var c, c' := s.calls[i], Do(s, e).calls[i];
    assert c'.result == c.result;
  }

  lemma StepDeaf<B, V>(s: State<B, V>, e: Event<B, V>, i: nat)
    requires Inv(s) && Enabled(s, e) && i < |s.calls| && (Deaf(s, i) || (e == Cancel(i) && s.calls[i].result.None?))
    ensures Deaf(Do(s, e), i)
  {
    if e.Deliver? {
      DeliverDeaf(s, i);
    } else {
      OthersDeaf(s, e, i);
    }
  }

  lemma {:induction false} CancelledHearsNothing<B, V>(s: State<B, V>, es: seq<Event<B, V>>, i: nat)
    requires Inv(s) && IsRun(s, [Cancel(i)] + es) && i < |s.calls| && s.calls[i].result.None?
    ensures Deaf(Run(s, [Cancel(i)] + es), i)
  {
    assert ([Cancel(i)] + es)[1..] == es;
    StepKeeps(s, Cancel(i));
    StepDeaf(s, Cancel(i), i);
    StaysDeaf(Do(s, Cancel(i)), es, i);
  }

  lemma {:induction false} StaysDeaf<B, V>(s: State<B, V>, es: seq<Event<B, V>>, i: nat)
    requires Inv(s) && IsRun(s, es) && Deaf(s, i)
    ensures Deaf(Run(s, es), i)
    decreases |es|
  {
    if es != [] {
      StepKeeps(s, es[0]);
      StepDeaf(s, es[0], i);
      StaysDeaf(Do(s, es[0]), es[1..], i);
    }
  }

  predicate OnItsWay(stage: Stage) {
    stage in {Queued, Held, Running, Replied}
  }

  predicate GoesOn<B, V>(s: State<B, V>, id: nat, v: V) {
    Enabled(s, Handle(id, v)) || Enabled(s, Reply(id)) || Enabled(s, Release(id))
  }

  lemma TaskGoesOn<B, V>(s: State<B, V>, v: V) returns (id: nat)
    requires !s.panicked && s.tasks != map[]
    ensures GoesOn(s, id, v)
  {
    id :| id in s.tasks;
  }

  lemma LoopGoesOn<B, V>(s: State<B, V>, i: nat)
    requires Inv(s) && i < |s.calls| && Placed(s, i) && OnItsWay(s.calls[i].stage) && s.tasks == map[]
    ensures Enabled(s, Event.Deliver) || Enabled(s, Receive) || Enabled(s, Start)
  {
    assert s.permits == PERMITS;
  }

  /** The channel never stalls: while a sent call has no answer, one of the two loops or a handler can
      go on, whatever value the handler returns. */
  lemma NeverStalls<B, V>(es: seq<Event<B, V>>, i: nat, v: V)
    requires IsRun(Init(), es) && i < |Run(Init(), es).calls| && OnItsWay(Run(Init(), es).calls[i].stage)
    ensures var s := Run(Init(), es);
            || Enabled(s, Event.Deliver) || Enabled(s, Receive) || Enabled(s, Start)
            || exists id :: GoesOn(s, id, v)
  {
    var s := Run(Init(), es);
    RunKeeps(Init(), es);
    RunPlaces(Init(), es);
    if s.tasks != map[] {
      var id := TaskGoesOn(s, v);
    } else {
      assert Placed(s, i);
      LoopGoesOn(s, i);
    }
  }

  // The worker's side of the channel.

  class ReliableChannel<B, V> {
    var nextId: nat
    var callbacks: map<nat, nat>
    var sent: seq<Req<B>>

    /** The channel's fields, in a state of the protocol. */
    ghost predicate Matches(s: State<B, V>)
      reads this
    {
      nextId == s.nextId && callbacks == s.callbacks && sent == s.requests
    }

    constructor ()
      ensures Matches(Init())
    {
      nextId, callbacks, sent := 1, map[], [];
    }

    /** A call that is not interrupted takes its three steps; `call` names its future. */
    method PrepareCall(body: B, call: nat, ghost s: State<B, V>) returns (id: nat)
      requires Matches(s) && Inv(s) && call == |s.calls|
      modifies this
      ensures var s1 := Do(s, Allocate(body));
              && At(s1, call, Allocated) && At(Do(s1, Register(call)), call, Registered)
              && Matches(Do(Do(s1, Register(call)), Send(call)))
      ensures id == old(nextId) && id !in old(callbacks)
    {
      id := nextId;
      nextId := nextId + 1;
      callbacks := callbacks[id := call];
      sent := sent + [Req(id, body)];
    }

    /** Takes the callback of a reply out; None where the code panics. */
    method TakeCallback(rsp: Rsp<B, V>) returns (call: Option<nat>)
      modifies this
      ensures call == if rsp.id in old(callbacks) then Some(old(callbacks)[rsp.id]) else None
      ensures callbacks == old(callbacks) - {rsp.id} && nextId == old(nextId) && sent == old(sent)
    {
      if rsp.id in callbacks {
        call := Some(callbacks[rsp.id]);
        callbacks := callbacks - {rsp.id};
      } else {
        call := None;
      }
    }

    /** Delivering the next reply never panics, and wakes the call that issued its id. */
    method Deliver(ghost s: State<B, V>, rsp: Rsp<B, V>) returns (call: Option<nat>)
      requires Matches(s) && Inv(s) && s.replies != [] && rsp == s.replies[0]
      modifies this
      ensures Matches(Do(s, Event.Deliver))
      ensures call.Some? && call.value < |s.calls| && s.calls[call.value].id == rsp.id
      ensures s.calls[call.value].body == rsp.handled
    {
      DeliverFinds(s);
      call := TakeCallback(rsp);
    }
  }
}
