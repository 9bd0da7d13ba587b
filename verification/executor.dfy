/** The life of a request's executor (src/exec.rs:103-177, src/ipc.rs:82-113): spawn tokens, the
    completion flag and the kill flag, and the handler that owns them. */
module Executors {
  import opened Tuple

  /** What a poll of `wait_for_completion` gives. */
  datatype Wait<V> = Pending | Ready(value: Option<V>)

  /** An executor: the strong count of its spawn token, whether the completion guard is still held,
      the completed result, the executor's own strong count, and whether its kill guard is released. */
  datatype Core<V> = Core(tokens: nat, guarded: bool, result: Option<V>, strong: nat, killed: bool)

  function Fresh<V>(): Core<V> {
    Core(1, true, None, 1, false)
  }

  /** A spawn takes effect while both the executor and some token can be upgraded. */
  predicate CanSpawn<V>(c: Core<V>) {
    c.strong > 0 && c.tokens > 0
  }

  function Spawned<V>(c: Core<V>): Core<V> {
    if CanSpawn(c) then c.(tokens := c.tokens + 1) else c
  }

  function Completed<V>(c: Core<V>, v: V): Core<V> {
    if c.strong > 0 then c.(result := Some(v), guarded := false) else c
  }

  /** One reference to the executor goes; the last one takes the kill guard with it. */
  function Released<V>(c: Core<V>): Core<V> {
    if c.strong == 0 then c else c.(strong := c.strong - 1, killed := c.killed || c.strong == 1)
  }

  /** Biased: a completion wins over the absence of tokens. */
  function Polled<V>(c: Core<V>): Wait<V> {
    if !c.guarded then Ready(c.result)
    else if c.tokens == 0 then Ready(None)
    else Pending
  }

  class Executor<V> {
    var spawnTokens: nat
    var completionOwner: bool
    var completedResult: Option<V>
    var strong: nat
    var killed: bool

    ghost function State(): Core<V>
      reads this
    {
      Core(spawnTokens, completionOwner, completedResult, strong, killed)
    }

    /** The caller holds the first token. */
    constructor ()
      ensures State() == Fresh()
    {
      spawnTokens, completionOwner, completedResult, strong, killed := 1, true, None, 1, false;
    }

    /** Whether the task was started; it then holds a token until it ends. */
    method Spawn() returns (started: bool)
      modifies this
      ensures started == CanSpawn(old(State())) && State() == Spawned(old(State()))
    {
      if strong == 0 {
        return false;
      }
      if spawnTokens == 0 {
        return false;
      }
      spawnTokens := spawnTokens + 1;
      return true;
    }

    method Complete(value: V)
      modifies this
      ensures State() == Completed(old(State()), value)
    {
      if strong > 0 {
        completedResult := Some(value);
        completionOwner := false;
      }
    }

    method DropToken()
      requires spawnTokens > 0
      modifies this
      ensures State() == old(State()).(tokens := old(spawnTokens) - 1)
    {
      spawnTokens := spawnTokens - 1;
    }

    method PollCompletion() returns (r: Wait<V>)
      requires !completionOwner ==> completedResult.Some?
      modifies this
      ensures r == Polled(old(State()))
      ensures State() == old(State()).(result := if old(completionOwner) then old(completedResult) else None)
    {
      if !completionOwner {
        r := Ready(completedResult);
        completedResult := None;
      } else if spawnTokens == 0 {
        r := Ready(None);
      } else {
        r := Pending;
      }
    }

    /** A holder lets go; with the last one the executor's fields are dropped, the kill guard among
        them. */
    method Drop()
      requires strong > 0
      modifies this
      ensures State() == Released(old(State()))
    {
      strong := strong - 1;
      if strong == 0 {
        killed := true;
      }
    }
  }

  // One request: the handler, and the tasks spawned for it, interleaved at their await points.

  datatype Outcome<V> = Answered(value: V) | CompletionError | EntryError | EntryPanicked | Cancelled

  datatype Phase<V> = Entering | Waiting | Finished(outcome: Outcome<V>)

  /** What the application does while a call into it runs. */
  datatype Act<V> = Start | Finish(value: V)

  /** How the entry call goes: well, with an error, or with no result at all, on which the handler
      panics. */
  datatype Entry = Entered | EntryFailed | NoResult

  datatype Event<V> =
    | Enter(acts: seq<Act<V>>, entry: Entry)
    | PollTask(task: nat, acts: seq<Act<V>>, ends: bool)
    | PollHandler
    | Cancel

  /** Besides the executor: which tasks live, whether the handler holds its token, all completions
      so far, and the tasks whose bodies took a step, in order. */
  datatype Request<V> = Request(core: Core<V>, holding: bool, tasks: set<nat>, next: nat, phase: Phase<V>,
                                completions: seq<V>, steps: seq<nat>)

  function Init<V>(): Request<V> {
    Request(Fresh(), true, {}, 0, Entering, [], [])
  }

  function DoAct<V>(r: Request<V>, a: Act<V>): Request<V> {
    match a
    case Start =>
      if CanSpawn(r.core)
      then r.(core := Spawned(r.core), tasks := r.tasks + {r.next}, next := r.next + 1)
      else r
    case Finish(v) =>
      if r.core.strong > 0
      then r.(core := Completed(r.core, v), completions := r.completions + [v])
      else r
  }

  function DoActs<V>(r: Request<V>, acts: seq<Act<V>>): Request<V>
    decreases |acts|
  {
    if acts == [] then r else DoActs(DoAct(r, acts[0]), acts[1..])
  }

  function DropToken<V>(c: Core<V>): Core<V> {
    if c.tokens > 0 then c.(tokens := c.tokens - 1) else c
  }

  function End<V>(r: Request<V>, outcome: Outcome<V>): Request<V> {
    r.(core := Released(r.core), phase := Finished(outcome))
  }

  function EndTask<V>(r: Request<V>, t: nat): Request<V> {
    r.(core := DropToken(r.core), tasks := r.tasks - {t})
  }

  predicate Enabled<V>(r: Request<V>, e: Event<V>) {
    match e
    case Enter(_, _) => r.phase == Entering
    case PollTask(t, _, _) => t in r.tasks
    case PollHandler => r.phase == Waiting
    case Cancel => r.phase == Waiting
  }

  function AfterEntry<V>(r: Request<V>, entry: Entry): Request<V> {
    match entry
    case Entered => r.(phase := Waiting)
    case EntryFailed => End(r, EntryError)
    case NoResult => End(r, EntryPanicked)
  }

  function Do<V>(r: Request<V>, e: Event<V>): Request<V> {
    match e
    case Enter(acts, entry) =>
      var r1 := DoActs(r, acts);
      AfterEntry(r1.(core := DropToken(r1.core), holding := false), entry)
    case PollTask(t, acts, ends) =>
      if r.core.killed then EndTask(r, t)
      else
        var r1 := DoActs(r.(steps := r.steps + [t]), acts);
        if ends then EndTask(r1, t) else r1
    case PollHandler =>
      (match Polled(r.core)
       case Pending => r
       case Ready(Some(v)) => End(r.(core := r.core.(result := None)), Answered(v))
       case Ready(None) => End(r, CompletionError))
    case Cancel => End(r, Cancelled)
  }

  predicate IsRun<V>(r: Request<V>, es: seq<Event<V>>)
    decreases |es|
  {
    es == [] || (Enabled(r, es[0]) && IsRun(Do(r, es[0]), es[1..]))
  }

  function Run<V>(r: Request<V>, es: seq<Event<V>>): Request<V>
    decreases |es|
  {
    if es == [] then r else Run(Do(r, es[0]), es[1..])
  }

  /** Tokens are held by the live tasks and the handler, and by nobody else. */
  predicate TokensCounted<V>(r: Request<V>) {
    && r.core.tokens == |r.tasks| + (if r.holding then 1 else 0)
    && (forall t <- r.tasks :: t < r.next)
    && r.holding == r.phase.Entering?
  }

  predicate ResultIsLast<V(==)>(r: Request<V>) {
    && r.core.guarded == (r.completions == [])
    && (r.phase.Finished? || r.core.result == (if r.completions == [] then None else Some(r.completions[|r.completions| - 1])))
    && r.core.strong == (if r.phase.Finished? then 0 else 1)
    && r.core.killed == r.phase.Finished?
  }

  predicate Inv<V(==)>(r: Request<V>) {
    TokensCounted(r) && ResultIsLast(r)
  }

  lemma {:induction false} ActsKeep<V>(r: Request<V>, acts: seq<Act<V>>)
    requires Inv(r)
    ensures var r' := DoActs(r, acts);
            Inv(r') && r'.phase == r.phase && r.tasks <= r'.tasks && r'.steps == r.steps && r.completions <= r'.completions
    decreases |acts|
  {
    if acts != [] {
      ActsKeep(DoAct(r, acts[0]), acts[1..]);
    }
  }

  lemma EntryEnds<V>(r: Request<V>, entry: Entry)
    requires Inv(r) && r.phase == Entering
    ensures var r' := AfterEntry(r.(core := DropToken(r.core), holding := false), entry);
            Inv(r') && r'.phase != Entering
  {
  }

  lemma EnterKeeps<V>(r: Request<V>, e: Event<V>)
    requires Inv(r) && Enabled(r, e) && e.Enter?
    ensures Inv(Do(r, e)) && Do(r, e).phase != Entering
  {
    ActsKeep(r, e.acts);
    EntryEnds(DoActs(r, e.acts), e.entry);
  }

  lemma TaskKeeps<V>(r: Request<V>, e: Event<V>)
    requires Inv(r) && Enabled(r, e) && e.PollTask?
    ensures Inv(Do(r, e)) && Do(r, e).phase == r.phase
  {
    if !r.core.killed {
      ActsKeep(r.(steps := r.steps + [e.task]), e.acts);
    }
  }

  lemma StepKeeps<V>(r: Request<V>, e: Event<V>)
    requires Inv(r) && Enabled(r, e)
    ensures Inv(Do(r, e)) && (e.Enter? || r.phase != Entering ==> Do(r, e).phase != Entering)
  {
    match e
    case Enter(_, _) => EnterKeeps(r, e);
    case PollTask(_, _, _) => TaskKeeps(r, e);
    case PollHandler =>
    case Cancel =>
  }

  lemma {:induction false} RunKeeps<V>(r: Request<V>, es: seq<Event<V>>)
    requires Inv(r) && IsRun(r, es)
    ensures Inv(Run(r, es))
    decreases |es|
  {
    if es != [] {
      StepKeeps(r, es[0]);
      RunKeeps(Do(r, es[0]), es[1..]);
    }
  }

  /** In every reachable state, waiting gives the last completed value if there is one, nothing if
      no token and no completion exists, and goes on otherwise. */
  lemma WaitMeans<V>(es: seq<Event<V>>)
    requires IsRun(Init(), es) && Run(Init(), es).phase == Waiting
    ensures var r := Run(Init(), es);
            Polled(r.core) == if r.completions != [] then Ready(Some(r.completions[|r.completions| - 1]))
                              else if r.tasks == {} then Ready(None)
                              else Pending
  {
    RunKeeps(Init(), es);
  }

  /** Nothing spawned and nothing completed: nobody is left to do either. */
  predicate Quiet<V(==)>(r: Request<V>) {
    Inv(r) && r.phase != Entering && r.tasks == {} && r.completions == []
  }

  /** That state is absorbing: in no run from it does a task start, a completion take effect or a
      body step, and the only answer it can give is none. */
  lemma {:induction false} QuietForever<V>(r: Request<V>, es: seq<Event<V>>)
    requires Quiet(r) && IsRun(r, es)
    ensures var r' := Run(r, es);
            && Quiet(r') && r'.steps == r.steps
            && (r'.phase == r.phase || r'.phase in {Finished(CompletionError), Finished(Cancelled)})
    ensures forall acts :: DoActs(End(r, CompletionError), acts) == End(r, CompletionError)
    decreases |es|
  {
    forall acts ensures DoActs(End(r, CompletionError), acts) == End(r, CompletionError) {
      DroppedIsDeaf(End(r, CompletionError), acts);
    }
    if es != [] {
      StepKeeps(r, es[0]);
      QuietForever(Do(r, es[0]), es[1..]);
    }
  }

  /** Once the executor is dropped, spawning and completing do nothing. */
  lemma {:induction false} DroppedIsDeaf<V>(r: Request<V>, acts: seq<Act<V>>)
    requires r.core.strong == 0
    ensures DoActs(r, acts) == r
    decreases |acts|
  {
    if acts != [] {
      DroppedIsDeaf(DoAct(r, acts[0]), acts[1..]);
    }
  }

  /** After the executor is dropped no task body runs another step: polling a task ends it. The
      outcome stands, and so do the completions. */
  lemma {:induction false} NothingRunsAfterDrop<V>(r: Request<V>, es: seq<Event<V>>)
    requires Inv(r) && r.phase.Finished? && IsRun(r, es)
    ensures var r' := Run(r, es);
            r'.phase == r.phase && r'.steps == r.steps && r'.completions == r.completions
            && r'.tasks <= r.tasks && |r'.tasks| + |es| == |r.tasks|
    decreases |es|
  {
    if es != [] {
      StepKeeps(r, es[0]);
      NothingRunsAfterDrop(Do(r, es[0]), es[1..]);
    }
  }

  /** The handler's answer, over whole runs: the last value completed before it looked, and a
      completion error only when nothing was left. */
  lemma {:induction false} AnswerMeans<V>(es: seq<Event<V>>)
    requires IsRun(Init(), es)
    ensures Explained(Run(Init(), es))
    decreases |es|
  {
    AnswerKeeps(Init(), es);
  }

  predicate Explained<V(==)>(r: Request<V>) {
    match r.phase
    case Finished(Answered(v)) => r.completions != [] && v == r.completions[|r.completions| - 1]
    case Finished(CompletionError) => r.completions == [] && r.tasks == {}
    case _ => true
  }

  lemma {:induction false} AnswerKeeps<V>(r: Request<V>, es: seq<Event<V>>)
    requires Inv(r) && Explained(r) && IsRun(r, es)
    ensures Explained(Run(r, es))
    decreases |es|
  {
    if es != [] {
      StepKeeps(r, es[0]);
      assert Explained(Do(r, es[0])) by {
        if es[0].PollTask? {
          AnswerKeepsTask(r, es[0]);
        }
      }
      AnswerKeeps(Do(r, es[0]), es[1..]);
    }
  }

  lemma AnswerKeepsTask<V>(r: Request<V>, e: Event<V>)
    requires Inv(r) && Explained(r) && e.PollTask? && Enabled(r, e)
    ensures Explained(Do(r, e))
  {
    if !r.core.killed {
      ActsKeep(r.(steps := r.steps + [e.task]), e.acts);
    }
  }

  /** How a run can end before any answer: in an entry error, a panic or a cancellation, each exactly
      if that is what happened. */
  lemma EndMeans<V>(es: seq<Event<V>>)
    requires IsRun(Init(), es)
    ensures var r := Run(Init(), es);
            && (r.phase == Entering <==> es == [])
            && (r.phase == Finished(EntryError) <==> es != [] && es[0].entry == EntryFailed)
            && (r.phase == Finished(EntryPanicked) <==> es != [] && es[0].entry == NoResult)
            && (r.phase == Finished(Cancelled) <==> Cancel in es)
  {
    if es != [] {
      var r := Do(Init(), es[0]);
      assert es == [es[0]] + es[1..];
      RunKeeps(Init<V>(), []);
      StepKeeps(Init(), es[0]);
      if r.phase == Waiting {
        WaitingEnds(r, es[1..]);
      } else {
        NothingRunsAfterDrop(r, es[1..]);
        NoCancelAfterEnd(r, es[1..]);
      }
    }
  }

  lemma {:induction false} WaitingEnds<V>(r: Request<V>, es: seq<Event<V>>)
    requires Inv(r) && r.phase == Waiting && IsRun(r, es)
    ensures var p := Run(r, es).phase;
            && (p == Waiting || p == Finished(CompletionError) || p == Finished(Cancelled)
                || (p.Finished? && p.outcome.Answered?))
            && (p == Finished(Cancelled) <==> Cancel in es)
    decreases |es|
  {
    if es != [] {
      var r' := Do(r, es[0]);
      assert es == [es[0]] + es[1..];
      StepKeeps(r, es[0]);
      if es[0].PollTask? {
        TaskKeeps(r, es[0]);
      }
      if r'.phase == Waiting {
        WaitingEnds(r', es[1..]);
      } else {
        NothingRunsAfterDrop(r', es[1..]);
        NoCancelAfterEnd(r', es[1..]);
      }
    }
  }

  lemma {:induction false} NoCancelAfterEnd<V>(r: Request<V>, es: seq<Event<V>>)
    requires Inv(r) && r.phase.Finished? && IsRun(r, es)
    ensures Cancel !in es
    decreases |es|
  {
    if es != [] {
      StepKeeps(r, es[0]);
      assert es == [es[0]] + es[1..];
      NoCancelAfterEnd(Do(r, es[0]), es[1..]);
    }
  }

  /** Until the executor is dropped, whoever runs, the entry call or a task, can spawn a task and
      complete the request. */
  lemma ActsTakeEffect<V>(es: seq<Event<V>>, v: V)
    requires IsRun(Init(), es) && !Run(Init(), es).phase.Finished?
    requires Run(Init(), es).phase == Entering || Run(Init(), es).tasks != {}
    ensures var r := Run(Init(), es);
            && r.next !in r.tasks && DoAct(r, Start).tasks == r.tasks + {r.next}
            && DoAct(r, Finish(v)).completions == r.completions + [v]
            && Polled(DoAct(r, Finish(v)).core) == Ready(Some(v))
  {
    RunKeeps(Init(), es);
  }

  // The handler and the scheduler around it, run on the executor object.

  method RunActs<V>(exec: Executor<V>, r: Request<V>, acts: seq<Act<V>>) returns (r': Request<V>)
    requires exec.State() == r.core
    modifies exec
    ensures r' == DoActs(r, acts) && exec.State() == r'.core
  {
    r' := r;
    for i := 0 to |acts|
      invariant exec.State() == r'.core && DoActs(r', acts[i..]) == DoActs(r, acts)
    {
      assert acts[i..][0] == acts[i] && acts[i..][1..] == acts[i + 1..];
      match acts[i] {
        case Start =>
          var started := exec.Spawn();
          if started {
            r' := r'.(core := Spawned(r'.core), tasks := r'.tasks + {r'.next}, next := r'.next + 1);
          }
        case Finish(v) =>
          var upgraded := exec.strong > 0;
          exec.Complete(v);
          if upgraded {
            r' := r'.(core := Completed(r'.core, v), completions := r'.completions + [v]);
          }
      }
    }
  }

  /** Creates the executor, enters it, gives up the token and waits, while tasks are polled and the
      handler may be cancelled; `events` is any schedule of that. */
  method HandleWithCancellation<V>(acts: seq<Act<V>>, entry: Entry, events: seq<Event<V>>) returns (r: Request<V>)
    requires IsRun(Init(), [Enter(acts, entry)] + events)
    ensures r == Run(Init(), [Enter(acts, entry)] + events)
    ensures Inv(r) && Explained(r)
  {
    ghost var all := [Enter(acts, entry)] + events;
    assert all[1..] == events;
    RunKeeps(Init(), all);
    AnswerMeans(all);
    var exec;
    exec, r := Create(acts, entry);
    for i := 0 to |events|
      invariant exec.State() == r.core && Inv(r) && r.phase != Entering
      invariant IsRun(r, events[i..]) && Run(r, events[i..]) == Run(Init(), all)
    {
      assert events[i..][0] == events[i] && events[i..][1..] == events[i + 1..];
      StepKeeps(r, events[i]);
      r := Dispatch(exec, r, events[i]);
    }
  }

  method Create<V>(acts: seq<Act<V>>, entry: Entry) returns (exec: Executor<V>, r: Request<V>)
    ensures fresh(exec) && r == Do(Init(), Enter(acts, entry)) && exec.State() == r.core
    ensures Inv(r) && r.phase != Entering
  {
    exec := new Executor<V>();
    ActsKeep(Init<V>(), acts);
    StepKeeps(Init(), Enter(acts, entry));
    r := RunActs(exec, Init(), acts);
    exec.DropToken();
    r := r.(core := r.core.(tokens := r.core.tokens - 1), holding := false);
    match entry {
      case Entered =>
        r := r.(phase := Waiting);
      case EntryFailed =>
        exec.Drop();
        r := End(r, EntryError);
      case NoResult =>
        exec.Drop();
        r := End(r, EntryPanicked);
    }
  }

  method Dispatch<V>(exec: Executor<V>, r: Request<V>, e: Event<V>) returns (r': Request<V>)
    requires exec.State() == r.core && Inv(r) && Enabled(r, e) && !e.Enter?
    modifies exec
    ensures r' == Do(r, e) && exec.State() == r'.core
  {
    r' := r;
    match e {
      case PollTask(t, acts, ends) =>
        if exec.killed {
          exec.DropToken();
          r' := EndTask(r, t);
        } else {
          ActsKeep(r.(steps := r.steps + [t]), acts);
          r' := RunActs(exec, r.(steps := r.steps + [t]), acts);
          if ends {
            exec.DropToken();
            r' := EndTask(r', t);
          }
        }
      case PollHandler =>
        var w := exec.PollCompletion();
        if w.Ready? {
          exec.Drop();
          r' := End(r.(core := r.core.(result := None)),
                    if w.value.Some? then Answered(w.value.value) else CompletionError);
        }
      case Cancel =>
        exec.Drop();
        r' := End(r, Cancelled);
    }
  }
}
