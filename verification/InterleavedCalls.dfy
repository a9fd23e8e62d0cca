/** Many provider calls in flight at once: every interleaving keeps each call to its own sequential promise. */
module InterleavedCalls {
  import opened Wrappers
  import opened ConnectionProvider

  /** Where a call is waiting. */
  datatype Pc = Acquiring | Beginning | Running | Committing | RollingBack | Disposing | Finished

  /** What the awaited operation of a call reports; the callback may make any number of queries before it ends. */
  datatype Input<R> = StepDone(step: Step) | UserQueried(ok: bool) | BodyDone(outcome: Outcome<R>)

  datatype Call<R> = Call(kind: CallKind, pc: Pc, plan: Plan<R>, primaryError: Option<Thrown>, leaving: Completion<R>)

  datatype Action<R> = Start(id: nat, kind: CallKind) | Observe(id: nat, input: Input<R>)

  /** The calls started so far, and every event on every connection in the order they happened. */
  datatype System<R> = System(calls: map<nat, Call<R>>, trace: seq<(nat, Event)>)

  function NewCall<R>(kind: CallKind): Call<R> {
    var error := Thrown(0, true);
    Call(kind, Acquiring, Plan(Fine, Fine, [], Throws(error), Fine, Fine, Fine), None, Rejected(error))
  }

  function Failing<R>(call: Call<R>, e: Thrown): Call<R> {
    call.(primaryError := Some(e), leaving := Rejected(e),
      pc := if call.kind == WithTransaction then RollingBack else Disposing)
  }

  predicate Accepts<R>(call: Call<R>, input: Input<R>) {
    match call.pc
    case Running => input.UserQueried? || input.BodyDone?
    case Finished => false
    case _ => input.StepDone?
  }

  /** One awaited operation of one call completes. */
  function Advance<R>(options: Options, call: Call<R>, input: Input<R>): Call<R>
    requires Accepts(call, input)
  {
    match call.pc
    case Acquiring =>
      var c := call.(plan := call.plan.(acquire := input.step));
      if input.step.Fails? then c.(pc := Finished, leaving := Rejected(input.step.error))
      else c.(pc := if call.kind == WithTransaction then Beginning else Running)
    case Beginning =>
      var c := call.(plan := call.plan.(begin := input.step));
      if input.step.Fails? then Failing(c, input.step.error) else c.(pc := Running)
    case Running =>
      if input.UserQueried? then call.(plan := call.plan.(queries := call.plan.queries + [input.ok]))
      else
        var c := call.(plan := call.plan.(body := input.outcome));
        if input.outcome.Throws? then Failing(c, input.outcome.error)
        else c.(leaving := Returned(input.outcome.value),
          pc := if call.kind == WithTransaction then Committing else Disposing)
    case Committing =>
      var c := call.(plan := call.plan.(commit := input.step));
      if input.step.Fails? then Failing(c, input.step.error) else c.(pc := Disposing)
    case RollingBack => call.(plan := call.plan.(rollback := input.step), pc := Disposing)
    case Disposing =>
      var masks := !(call.primaryError.Some? && call.primaryError.value.truthy);
      call.(plan := call.plan.(dispose := input.step), pc := Finished,
            leaving :=
              if HasDisposer(options) && input.step.Fails? && masks then Rejected(input.step.error) else call.leaving)
    case Finished => call
  }

  function EventsOf<R>(options: Options, call: Call<R>, input: Input<R>): seq<Event>
    requires Accepts(call, input)
  {
    match call.pc
    case Acquiring => [Acquire(input.step.Fine?)]
    case Beginning => [Begin(input.step.Fine?)]
    case Running => if input.UserQueried? then [UserQuery(input.ok)] else []
    case Committing => [Commit(input.step.Fine?)]
    case RollingBack => [Rollback(input.step.Fine?)]
    case Disposing => DisposeEvents(options, input.step.Fine?)
    case Finished => []
  }

  function Tagged(id: nat, events: seq<Event>): seq<(nat, Event)> {
    seq(|events|, i requires 0 <= i < |events| => (id, events[i]))
  }

  /** One step of the system; an action that the named call is not waiting for changes nothing. */
  function Do<R>(options: Options, s: System<R>, a: Action<R>): System<R> {
    match a
    case Start(id, kind) => if id in s.calls then s else s.(calls := s.calls[id := NewCall(kind)])
    case Observe(id, input) =>
      if id !in s.calls || !Accepts(s.calls[id], input) then s
      else System(s.calls[id := Advance(options, s.calls[id], input)],
                  s.trace + Tagged(id, EventsOf(options, s.calls[id], input)))
  }

  function Run<R>(options: Options, actions: seq<Action<R>>): System<R> {
    if actions == [] then System(map[], [])
    else Do(options, Run(options, actions[..|actions| - 1]), actions[|actions| - 1])
  }

  /** The events of one call among all. */
  function Project(trace: seq<(nat, Event)>, id: nat): seq<Event> {
    if trace == [] then []
    else Project(trace[..|trace| - 1], id) + if trace[|trace| - 1].0 == id then [trace[|trace| - 1].1] else []
  }

  // ------------------------------------------------------ each call in itself

  /** What a call has attempted when it waits at `pc`, by the outcomes it has seen. */
  function TraceSoFar<R>(options: Options, call: Call<R>): seq<Event> {
    match call.pc
    case Acquiring => []
    case Beginning => [Acquire(true)]
    case Running =>
      [Acquire(true)] + (if call.kind == WithTransaction then [Begin(true)] else []) + UserQueries(call.plan.queries)
    case Committing => [Acquire(true)] + [Begin(true)] + UserQueries(call.plan.queries)
    case RollingBack => [Acquire(true)] + TryEvents(call.kind, call.plan)
    case Disposing => [Acquire(true)] + TryEvents(call.kind, call.plan) + RollbackEvents(call.kind, call.plan)
    case Finished => CallTrace(options, call.kind, call.plan)
  }

  /** The state of a call agrees with the outcomes it has seen. */
  ghost predicate Consistent<R>(options: Options, call: Call<R>) {
    && (call.kind == WithConnection ==> call.pc != Beginning && call.pc != Committing && call.pc != RollingBack)
    && match call.pc
       case Acquiring => call == NewCall(call.kind)
       case Beginning => call.plan.acquire.Fine? && call.plan.queries == [] && call.primaryError.None?
       case Running => call.plan.acquire.Fine? && call.plan.begin.Fine? && call.primaryError.None?
       case Committing =>
         && call.plan.acquire.Fine? && call.plan.begin.Fine? && call.plan.body.Value? && call.primaryError.None?
         && call.leaving == Returned(call.plan.body.value)
       case RollingBack =>
         && call.plan.acquire.Fine? && call.primaryError == TryError(call.kind, call.plan)
         && call.primaryError.Some? && call.leaving == Rejected(call.primaryError.value)
       case Disposing =>
         && call.plan.acquire.Fine? && call.primaryError == TryError(call.kind, call.plan)
         && call.leaving == if call.primaryError.Some? then Rejected(call.primaryError.value)
                            else if call.plan.body.Value? then Returned(call.plan.body.value)
                            else Rejected(call.plan.body.error)
       case Finished => call.leaving == CallResult(options, call.kind, call.plan)
  }

  lemma UserQueriesGrow(queries: seq<bool>, ok: bool)
    ensures UserQueries(queries + [ok]) == UserQueries(queries) + [UserQuery(ok)]
  {
  }

  lemma AdvanceConsistent<R>(options: Options, call: Call<R>, input: Input<R>)
    requires Accepts(call, input) && Consistent(options, call)
    ensures Consistent(options, Advance(options, call, input))
  {
    hide UserQueries;
  }

  lemma AdvanceTraceEarly<R>(options: Options, call: Call<R>, input: Input<R>)
    requires Accepts(call, input) && Consistent(options, call)
    requires call.pc == Acquiring || call.pc == Beginning || (call.pc == Running && input.UserQueried?)
    ensures TraceSoFar(options, Advance(options, call, input)) ==
      TraceSoFar(options, call) + EventsOf(options, call, input)
  {
    hide CallResult;
    if call.pc == Running {
      UserQueriesGrow(call.plan.queries, input.ok);
    } else {
      assert UserQueries([]) == [];
    }
  }

  lemma AdvanceTraceLate<R>(options: Options, call: Call<R>, input: Input<R>)
    requires Accepts(call, input) && Consistent(options, call)
    requires call.pc == Running ==> input.BodyDone?
    requires call.pc != Acquiring && call.pc != Beginning
    ensures TraceSoFar(options, Advance(options, call, input)) ==
      TraceSoFar(options, call) + EventsOf(options, call, input)
  {
    hide CallResult, UserQueries, DisposeEvents;
  }

  lemma AdvanceKeeps<R>(options: Options, call: Call<R>, input: Input<R>)
    requires Accepts(call, input) && Consistent(options, call)
    ensures Consistent(options, Advance(options, call, input))
    ensures TraceSoFar(options, Advance(options, call, input)) ==
      TraceSoFar(options, call) + EventsOf(options, call, input)
  {
    AdvanceConsistent(options, call, input);
    hide Advance, Consistent, TraceSoFar, EventsOf;
    if call.pc == Acquiring || call.pc == Beginning || (call.pc == Running && input.UserQueried?) {
      AdvanceTraceEarly(options, call, input);
    } else {
      AdvanceTraceLate(options, call, input);
    }
  }

  // --------------------------------------------------------- all calls at once

  lemma {:induction false} ProjectAppend(a: seq<(nat, Event)>, b: seq<(nat, Event)>, id: nat)
    ensures Project(a + b, id) == Project(a, id) + Project(b, id)
  {
    if b == [] {
      assert a + b == a;
    } else {
      assert (a + b)[..|a + b| - 1] == a + b[..|b| - 1];
      ProjectAppend(a, b[..|b| - 1], id);
    }
  }

  lemma {:induction false} ProjectTagged(events: seq<Event>, id: nat, other: nat)
    ensures Project(Tagged(id, events), other) == if other == id then events else []
  {
    if events != [] {
      var tagged := Tagged(id, events);
      assert tagged[..|tagged| - 1] == Tagged(id, events[..|events| - 1]);
      ProjectTagged(events[..|events| - 1], id, other);
    }
  }

  ghost predicate EachCallKept<R>(options: Options, s: System<R>) {
    && (forall id :: id in s.calls ==>
         Consistent(options, s.calls[id]) && Project(s.trace, id) == TraceSoFar(options, s.calls[id]))
    && (forall id :: id !in s.calls ==> Project(s.trace, id) == [])
  }

  lemma DoKeeps<R>(options: Options, s: System<R>, a: Action<R>)
    requires EachCallKept(options, s)
    ensures EachCallKept(options, Do(options, s, a))
  {
    hide TraceSoFar, Consistent, Advance, EventsOf;
    match a {
      case Start(id, kind) => NewCallIsConsistent<R>(options, kind);
      case Observe(id, input) =>
        if id in s.calls && Accepts(s.calls[id], input) {
          var events := EventsOf(options, s.calls[id], input);
          AdvanceKeeps(options, s.calls[id], input);
          forall other ensures Project(s.trace + Tagged(id, events), other) ==
            Project(s.trace, other) + if other == id then events else []
          {
            ProjectAppend(s.trace, Tagged(id, events), other);
            ProjectTagged(events, id, other);
          }
        }
    }
  }

  lemma NewCallIsConsistent<R>(options: Options, kind: CallKind)
    ensures Consistent(options, NewCall<R>(kind)) && TraceSoFar(options, NewCall<R>(kind)) == []
  {
  }

  lemma {:induction false} RunKeeps<R>(options: Options, actions: seq<Action<R>>)
    ensures EachCallKept(options, Run(options, actions))
  {
    if actions != [] {
      hide EachCallKept, Do;
      RunKeeps(options, actions[..|actions| - 1]);
      DoKeeps(options, Run(options, actions[..|actions| - 1]), actions[|actions| - 1]);
    } else {
      assert Run(options, actions) == System(map[], []);
    }
  }

  /** However calls interleave and whatever fails, a finished call did and returned what it would have done alone. */
  lemma InterleavingIsSequential<R>(options: Options, actions: seq<Action<R>>, id: nat)
    ensures var s := Run(options, actions);
      id in s.calls && s.calls[id].pc == Finished ==>
        && Project(s.trace, id) == CallTrace(options, s.calls[id].kind, s.calls[id].plan)
        && s.calls[id].leaving == CallResult(options, s.calls[id].kind, s.calls[id].plan)
  {
    RunKeeps(options, actions);
  }

  /** BEGIN, the callback or COMMIT threw on an acquired connection. */
  predicate TransactionThrew<R>(call: Call<R>) {
    call.plan.acquire.Fine? && call.kind == WithTransaction &&
    (call.plan.begin.Fails? || call.plan.body.Throws? || call.plan.commit.Fails?)
  }

  /** What a call promises of its own events `t` and of the way it is left. */
  ghost predicate Promised<R>(options: Options, call: Call<R>, t: seq<Event>) {
    && Scoped(call.kind, t)
    && QueriesIn(t) == (if CallbackRuns(call.kind, call.plan) then call.plan.queries else [])
    && (CommitAttempted(t, true) || CommitAttempted(t, false) <==>
         call.kind == WithTransaction && CallbackRuns(call.kind, call.plan) && call.plan.body.Value?)
    && LeavesAs(options, call.kind, call.plan, call.leaving)
    && CountDisposals(t) == (if call.plan.acquire.Fine? then 1 else 0)
    && (call.plan.acquire.Fine? ==> t != [] && (t[|t| - 1].DisposeHook? || t[|t| - 1].Release?))
    && (RollbackAttempted(t) <==> TransactionThrew(call))
    && !(Committed(t) && RollbackAttempted(t))
    && (call.leaving.Returned? ==>
         !DisposalFails(options, call.plan) && (call.kind == WithTransaction ==> Committed(t)))
  }

  /**
   * However calls interleave and whatever fails, each finished call ran its callback inside its transaction, disposed
   * of its connection once and last, committed only after the callback returned, rolled back exactly when its
   * transaction threw, and was left with the callback's value or with the one error that gets through.
   */
  lemma FinishedCallsBehave<R>(options: Options, actions: seq<Action<R>>, id: nat)
    requires HasDisposer(options)
    requires id in Run(options, actions).calls && Run(options, actions).calls[id].pc == Finished
    ensures Promised(options, Run(options, actions).calls[id], Project(Run(options, actions).trace, id))
  {
    hide Run, Project, CallTrace, CallResult;
    var call := Run(options, actions).calls[id];
    InterleavingIsSequential(options, actions, id);
    CallsAreScoped(options, call.kind, call.plan);
    CallbackQueries(options, call.kind, call.plan);
    CommitIffCallbackReturned(options, call.kind, call.plan, true);
    CommitIffCallbackReturned(options, call.kind, call.plan, false);
    CallLeavesAs(options, call.kind, call.plan);
    hide Scoped, QueriesIn, CommitAttempted, LeavesAs;
    DisposedOnceAndLast(options, call.kind, call.plan);
    RollbackIffTryThrew(options, call.kind, call.plan);
    ReturnsIffAllFine(options, call.kind, call.plan);
    NeverCommitsAndRollsBack(options, call.kind, call.plan);
  }

  // ---------------------------------------------------- connections in flight

  function Acquired(trace: seq<(nat, Event)>): nat {
    if trace == [] then 0
    else Acquired(trace[..|trace| - 1]) + if trace[|trace| - 1].1 == Acquire(true) then 1 else 0
  }

  function Disposed(trace: seq<(nat, Event)>): nat {
    if trace == [] then 0
    else
      var e := trace[|trace| - 1].1;
      Disposed(trace[..|trace| - 1]) + if e.DisposeHook? || e.Release? then 1 else 0
  }

  predicate HoldsConnection<R>(call: Call<R>) {
    call.pc != Acquiring && call.pc != Finished
  }

  ghost function InFlight<R>(calls: map<nat, Call<R>>): set<nat> {
    set id | id in calls && HoldsConnection(calls[id])
  }

  lemma CountsGrow(trace: seq<(nat, Event)>, id: nat, events: seq<Event>)
    requires |events| <= 1
    ensures Acquired(trace + Tagged(id, events)) == Acquired(trace) + if events == [Acquire(true)] then 1 else 0
    ensures Disposed(trace + Tagged(id, events)) ==
      Disposed(trace) + if events != [] && (events[0].DisposeHook? || events[0].Release?) then 1 else 0
  {
    if events == [] {
      assert trace + Tagged(id, events) == trace;
    } else {
      assert trace + Tagged(id, events) == trace + [(id, events[0])];
      assert (trace + [(id, events[0])])[..|trace|] == trace;
    }
  }

  lemma InFlightChanges<R>(calls: map<nat, Call<R>>, id: nat, call: Call<R>)
    ensures InFlight(calls[id := call]) ==
      if HoldsConnection(call) then InFlight(calls) + {id} else InFlight(calls) - {id}
  {
  }

  /** At every moment of every run, connections acquired and not disposed of are those of the calls in flight. */
  lemma {:induction false} ConnectionsAreConserved<R>(options: Options, actions: seq<Action<R>>)
    requires HasDisposer(options)
    ensures var s := Run(options, actions); Acquired(s.trace) - Disposed(s.trace) == |InFlight(s.calls)|
  {
    if actions == [] {
      assert InFlight(Run(options, actions).calls) == {};
    } else {
      var s := Run(options, actions[..|actions| - 1]);
      ConnectionsAreConserved(options, actions[..|actions| - 1]);
      hide Run, Acquired, Disposed, InFlight;
      StepConserves(options, s, actions[|actions| - 1]);
      assert Run(options, actions) == Do(options, s, actions[|actions| - 1]) by {
        RunUnfolds(options, actions);
      }
    }
  }

  lemma RunUnfolds<R>(options: Options, actions: seq<Action<R>>)
    requires actions != []
    ensures Run(options, actions) == Do(options, Run(options, actions[..|actions| - 1]), actions[|actions| - 1])
  {
  }

  lemma StepConserves<R>(options: Options, s: System<R>, a: Action<R>)
    requires HasDisposer(options) && Acquired(s.trace) - Disposed(s.trace) == |InFlight(s.calls)|
    ensures var t := Do(options, s, a); Acquired(t.trace) - Disposed(t.trace) == |InFlight(t.calls)|
  {
    hide Acquired, Disposed, InFlight;
    match a {
      case Start(id, kind) =>
        if id !in s.calls {
          InFlightChanges(s.calls, id, NewCall(kind));
          NotInFlight(s.calls, id);
          assert InFlight(s.calls) - {id} == InFlight(s.calls);
        }
      case Observe(id, input) =>
        if id in s.calls && Accepts(s.calls[id], input) {
          CountsGrow(s.trace, id, EventsOf(options, s.calls[id], input));
          InFlightChanges(s.calls, id, Advance(options, s.calls[id], input));
          NotInFlight(s.calls, id);
        }
    }
  }

  lemma NotInFlight<R>(calls: map<nat, Call<R>>, id: nat)
    ensures id in InFlight(calls) <==> id in calls && HoldsConnection(calls[id])
  {
  }
}
