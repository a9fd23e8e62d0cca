/** Connection-scoped and transaction-scoped calls: one call as code, and any interleaving of many calls. */
module ConnectionProvider {
  import opened Wrappers

  /** A thrown JavaScript value; only its identity and its truth value matter here. */
  datatype Thrown = Thrown(tag: int, truthy: bool)

  datatype Step = Fine | Fails(error: Thrown)

  datatype Outcome<R> = Value(value: R) | Throws(error: Thrown)

  datatype CallKind = WithConnection | WithTransaction

  /** How the provider disposes of connections: a hook goes before `release`; with neither, it does nothing. */
  datatype Options = Options(hook: bool, release: bool)

  predicate HasDisposer(options: Options) {
    options.hook || options.release
  }

  /** What is attempted on the connection of one call, with its success. */
  datatype Event =
    | Acquire(ok: bool)
    | Begin(ok: bool)
    | UserQuery(ok: bool)
    | Commit(ok: bool)
    | Rollback(ok: bool)
    | DisposeHook(ok: bool)
    | Release(ok: bool)

  /** How each awaited operation of one call turns out, including the queries the callback makes. */
  datatype Plan<R> = Plan(acquire: Step, begin: Step, queries: seq<bool>, body: Outcome<R>,
                          commit: Step, rollback: Step, dispose: Step)

  datatype Completion<R> = Returned(value: R) | Rejected(error: Thrown)

  // ---------------------------------------------------- what a call promises

  /** The error that leaves the try block: the primary error. */
  function TryError<R>(kind: CallKind, plan: Plan<R>): Option<Thrown> {
    if kind == WithTransaction && plan.begin.Fails? then Some(plan.begin.error)
    else if plan.body.Throws? then Some(plan.body.error)
    else if kind == WithTransaction && plan.commit.Fails? then Some(plan.commit.error)
    else None
  }

  function UserQueries(queries: seq<bool>): seq<Event> {
    seq(|queries|, i requires 0 <= i < |queries| => UserQuery(queries[i]))
  }

  function DisposeEvents(options: Options, ok: bool): seq<Event> {
    if options.hook then [DisposeHook(ok)] else if options.release then [Release(ok)] else []
  }

  function TryEvents<R>(kind: CallKind, plan: Plan<R>): seq<Event> {
    if kind == WithConnection then UserQueries(plan.queries)
    else if plan.begin.Fails? then [Begin(false)]
    else if plan.body.Throws? then [Begin(true)] + UserQueries(plan.queries)
    else [Begin(true)] + UserQueries(plan.queries) + [Commit(plan.commit.Fine?)]
  }

  function RollbackEvents<R>(kind: CallKind, plan: Plan<R>): seq<Event> {
    if kind == WithTransaction && TryError(kind, plan).Some? then [Rollback(plan.rollback.Fine?)] else []
  }

  /** Everything a call attempts, in order. */
  function CallTrace<R>(options: Options, kind: CallKind, plan: Plan<R>): seq<Event> {
    if plan.acquire.Fails? then [Acquire(false)]
    else
      [Acquire(true)] + TryEvents(kind, plan) + RollbackEvents(kind, plan) +
      DisposeEvents(options, plan.dispose.Fine?)
  }

  predicate DisposalFails<R>(options: Options, plan: Plan<R>) {
    HasDisposer(options) && plan.dispose.Fails?
  }

  function CallResult<R>(options: Options, kind: CallKind, plan: Plan<R>): Completion<R> {
    var primary := TryError(kind, plan);
    if plan.acquire.Fails? then Rejected(plan.acquire.error)
    else if DisposalFails(options, plan) && (primary.None? || !primary.value.truthy) then Rejected(plan.dispose.error)
    else if primary.Some? then Rejected(primary.value)
    else if plan.body.Value? then Returned(plan.body.value)
    else Rejected(plan.body.error)
  }

  // --------------------------------------------------------- one call as code

  /** A provider and the connection it hands to one call; each operation turns out as planned and leaves its event. */
  class Provider<R> {
    const options: Options
    const plan: Plan<R>
    var trace: seq<Event>

    constructor (options: Options, plan: Plan<R>)
      ensures this.options == options && this.plan == plan && trace == []
    {
      this.options, this.plan, trace := options, plan, [];
    }

    method ConnectionFactory() returns (r: Step)
      modifies this
      ensures r == plan.acquire && trace == old(trace) + [Acquire(r.Fine?)]
    {
      r := plan.acquire;
      trace := trace + [Acquire(r.Fine?)];
    }

    method QueryBegin() returns (r: Step)
      modifies this
      ensures r == plan.begin && trace == old(trace) + [Begin(r.Fine?)]
    {
      r := plan.begin;
      trace := trace + [Begin(r.Fine?)];
    }

    method QueryCommit() returns (r: Step)
      modifies this
      ensures r == plan.commit && trace == old(trace) + [Commit(r.Fine?)]
    {
      r := plan.commit;
      trace := trace + [Commit(r.Fine?)];
    }

    method QueryRollback() returns (r: Step)
      modifies this
      ensures r == plan.rollback && trace == old(trace) + [Rollback(r.Fine?)]
    {
      r := plan.rollback;
      trace := trace + [Rollback(r.Fine?)];
    }

    method Callback() returns (r: Outcome<R>)
      modifies this
      ensures r == plan.body && trace == old(trace) + UserQueries(plan.queries)
    {
      var i := 0;
      while i < |plan.queries|
        invariant 0 <= i <= |plan.queries|
        invariant trace == old(trace) + UserQueries(plan.queries)[..i]
      {
        assert UserQueries(plan.queries)[..i + 1] == UserQueries(plan.queries)[..i] + [UserQuery(plan.queries[i])];
        trace := trace + [UserQuery(plan.queries[i])];
        i := i + 1;
      }
      assert UserQueries(plan.queries)[..i] == UserQueries(plan.queries);
      r := plan.body;
    }

    method Dispose() returns (r: Step)
      modifies this
      ensures r == if HasDisposer(options) then plan.dispose else Fine
      ensures trace == old(trace) + DisposeEvents(options, plan.dispose.Fine?)
    {
      r := Fine;
      if options.hook {
        r := plan.dispose;
        trace := trace + [DisposeHook(r.Fine?)];
      } else if options.release {
        r := plan.dispose;
        trace := trace + [Release(r.Fine?)];
      }
    }

    /** The finally block: dispose, and let its error through only when no truthy error is on its way. */
    method Finally(leaving: Completion<R>, primaryError: Option<Thrown>) returns (r: Completion<R>)
      modifies this
      ensures trace == old(trace) + DisposeEvents(options, plan.dispose.Fine?)
      ensures r == if DisposalFails(options, plan) && !(primaryError.Some? && primaryError.value.truthy)
                   then Rejected(plan.dispose.error) else leaving
    {
      r := leaving;
      var disposed := Dispose();
      if disposed.Fails? {
        var primaryIsTruthy := primaryError.Some? && primaryError.value.truthy;
        if !primaryIsTruthy {
          r := Rejected(disposed.error);
        }
      }
    }

    method RunWithConnection() returns (r: Completion<R>)
      modifies this
      ensures trace == old(trace) + CallTrace(options, WithConnection, plan)
      ensures r == CallResult(options, WithConnection, plan)
    {
      var acquired := ConnectionFactory();
      if acquired.Fails? {
        return Rejected(acquired.error);
      }
      var primaryError: Option<Thrown> := None;
      var outcome := Callback();
      var leaving: Completion<R>;
      match outcome {
        case Value(v) =>
          leaving := Returned(v);
        case Throws(e) =>
          primaryError := Some(e);
          leaving := Rejected(e);
      }
      r := Finally(leaving, primaryError);
    }

    method RunWithTransaction() returns (r: Completion<R>)
      modifies this
      ensures trace == old(trace) + CallTrace(options, WithTransaction, plan)
      ensures r == CallResult(options, WithTransaction, plan)
    {
      var acquired := ConnectionFactory();
      if acquired.Fails? {
        return Rejected(acquired.error);
      }
      var primaryError: Option<Thrown> := None;
      var leaving: Completion<R>;
      leaving, primaryError := TryTransaction();
      if primaryError.Some? {
        var rolledBack := QueryRollback();
      }
      r := Finally(leaving, primaryError);
    }

    /** The try block of a transaction: how it is left, and the error that the catch block then sees. */
    method TryTransaction() returns (leaving: Completion<R>, thrown: Option<Thrown>)
      modifies this
      ensures trace == old(trace) + TryEvents(WithTransaction, plan)
      ensures thrown == TryError(WithTransaction, plan)
      ensures leaving == if thrown.Some? then Rejected(thrown.value)
                         else if plan.body.Value? then Returned(plan.body.value) else Rejected(plan.body.error)
    {
      hide UserQueries;
      var begun := QueryBegin();
      if begun.Fails? {
        return Rejected(begun.error), Some(begun.error);
      }
      var outcome := Callback();
      match outcome {
        case Throws(e) =>
          return Rejected(e), Some(e);
        case Value(v) =>
          var committed := QueryCommit();
          if committed.Fails? {
            return Rejected(committed.error), Some(committed.error);
          }
          return Returned(v), None;
      }
    }
  }

  // -------------------------------------------------- laws of a single call

  function CountDisposals(events: seq<Event>): nat {
    if events == [] then 0
    else (if events[0].DisposeHook? || events[0].Release? then 1 else 0) + CountDisposals(events[1..])
  }

  lemma {:induction false} CountDisposalsAppend(a: seq<Event>, b: seq<Event>)
    ensures CountDisposals(a + b) == CountDisposals(a) + CountDisposals(b)
  {
    if a == [] {
      assert a + b == b;
    } else {
      assert (a + b)[1..] == a[1..] + b;
      CountDisposalsAppend(a[1..], b);
    }
  }

  lemma {:induction false} QueriesAreNoDisposals(queries: seq<bool>)
    ensures CountDisposals(UserQueries(queries)) == 0
  {
    if queries != [] {
      assert UserQueries(queries)[1..] == UserQueries(queries[1..]);
      QueriesAreNoDisposals(queries[1..]);
    }
  }

  /** An acquired connection gets exactly one disposal attempt, as the last thing that happens to it; a connection
      that was not acquired gets none. */
  lemma DisposedOnceAndLast<R>(options: Options, kind: CallKind, plan: Plan<R>)
    requires HasDisposer(options)
    ensures var t := CallTrace(options, kind, plan);
      && CountDisposals(t) == (if plan.acquire.Fine? then 1 else 0)
      && (plan.acquire.Fine? ==>
           t[|t| - 1] == if options.hook then DisposeHook(plan.dispose.Fine?) else Release(plan.dispose.Fine?))
      && (plan.acquire.Fails? ==> t == [Acquire(false)])
  {
    if plan.acquire.Fine? {
      var q := UserQueries(plan.queries);
      QueriesAreNoDisposals(plan.queries);
      CountDisposalsAppend([Acquire(true)] + TryEvents(kind, plan) + RollbackEvents(kind, plan),
        DisposeEvents(options, plan.dispose.Fine?));
      CountDisposalsAppend([Acquire(true)] + TryEvents(kind, plan), RollbackEvents(kind, plan));
      CountDisposalsAppend([Acquire(true)], TryEvents(kind, plan));
      CountDisposalsAppend([Begin(true)] + q, [Commit(plan.commit.Fine?)]);
      CountDisposalsAppend([Begin(true)], q);
    }
  }

  ghost predicate RollbackAttempted(events: seq<Event>) {
    exists i :: 0 <= i < |events| && events[i].Rollback?
  }

  ghost predicate Committed(events: seq<Event>) {
    exists i :: 0 <= i < |events| && events[i] == Commit(true)
  }

  /** ROLLBACK is attempted exactly when BEGIN, the callback or COMMIT threw on an acquired transaction connection. */
  lemma RollbackIffTryThrew<R>(options: Options, kind: CallKind, plan: Plan<R>)
    ensures RollbackAttempted(CallTrace(options, kind, plan)) <==>
      plan.acquire.Fine? && kind == WithTransaction && (plan.begin.Fails? || plan.body.Throws? || plan.commit.Fails?)
  {
    var t := CallTrace(options, kind, plan);
    if plan.acquire.Fine? && kind == WithTransaction && TryError(kind, plan).Some? {
      assert t[1 + |TryEvents(kind, plan)|] == Rollback(plan.rollback.Fine?);
    }
  }

  /** A call returns exactly when acquiring, BEGIN, the callback, COMMIT and disposal are all fine; it then never
      attempts ROLLBACK, and a transaction has committed. */
  lemma ReturnsIffAllFine<R>(options: Options, kind: CallKind, plan: Plan<R>)
    ensures var t, r := CallTrace(options, kind, plan), CallResult(options, kind, plan);
      && (r.Returned? <==> plan.acquire.Fine? && TryError(kind, plan).None? && !DisposalFails(options, plan))
      && (r.Returned? ==> r.value == plan.body.value && !RollbackAttempted(t))
      && (r.Returned? && kind == WithTransaction ==> Committed(t))
  {
    RollbackIffTryThrew(options, kind, plan);
    var t := CallTrace(options, kind, plan);
    if plan.acquire.Fine? && kind == WithTransaction && TryError(kind, plan).None? {
      assert t[|TryEvents(kind, plan)|] == Commit(true);
    }
  }

  // ------------------------------------------------ the callback's transaction

  /** Where an event has its place in a call. */
  function Place(e: Event): nat {
    match e
    case Acquire(_) => 0
    case Begin(_) => 1
    case UserQuery(_) => 2
    case Commit(_) => 3
    case Rollback(_) => 4
    case DisposeHook(_) => 5
    case Release(_) => 5
  }

  /** Each event comes in its place, and only queries come more than once. */
  predicate InOrder(t: seq<Event>) {
    forall i, j :: 0 <= i < j < |t| ==> Place(t[i]) < Place(t[j]) || (t[i].UserQuery? && t[j].UserQuery?)
  }

  /** Queries, COMMIT and ROLLBACK come after a BEGIN, and the first two only after one that was fine. */
  predicate BeginsFirst(t: seq<Event>) {
    && (forall i :: 0 <= i < |t| && (t[i].UserQuery? || t[i].Commit?) ==> exists j :: 0 <= j < i && t[j] == Begin(true))
    && (forall i :: 0 <= i < |t| && t[i].Rollback? ==> exists j :: 0 <= j < i && t[j].Begin?)
  }

  /** The callback runs inside the transaction, and a connection-scoped call has none. */
  predicate Scoped(kind: CallKind, t: seq<Event>) {
    && t != [] && t[0].Acquire? && InOrder(t)
    && match kind
       case WithConnection => forall i :: 0 <= i < |t| ==> !t[i].Begin? && !t[i].Commit? && !t[i].Rollback?
       case WithTransaction => BeginsFirst(t)
  }

  /** The callback's queries in a trace, by their success. */
  function QueriesIn(t: seq<Event>): seq<bool> {
    if t == [] then []
    else QueriesIn(t[..|t| - 1]) + if t[|t| - 1].UserQuery? then [t[|t| - 1].ok] else []
  }

  ghost predicate CommitAttempted(t: seq<Event>, ok: bool) {
    exists i :: 0 <= i < |t| && t[i] == Commit(ok)
  }

  predicate CallbackRuns<R>(kind: CallKind, plan: Plan<R>) {
    plan.acquire.Fine? && (kind == WithTransaction ==> plan.begin.Fine?)
  }

  ghost predicate AllBefore(a: seq<Event>, b: seq<Event>) {
    forall i, j :: 0 <= i < |a| && 0 <= j < |b| ==> Place(a[i]) < Place(b[j])
  }

  lemma OrderAppends(a: seq<Event>, b: seq<Event>)
    requires InOrder(a) && InOrder(b) && AllBefore(a, b)
    ensures InOrder(a + b)
  {
    hide Place;
  }

  lemma QueriesInOrder(start: seq<Event>, queries: seq<bool>)
    requires InOrder(start) && forall i :: 0 <= i < |start| ==> Place(start[i]) < 2
    ensures InOrder(start + UserQueries(queries))
  {
    assert InOrder(UserQueries(queries));
    OrderAppends(start, UserQueries(queries));
  }

  lemma TryIsInOrder<R>(kind: CallKind, plan: Plan<R>)
    ensures InOrder([Acquire(true)] + TryEvents(kind, plan))
  {
    var q, commit := UserQueries(plan.queries), [Commit(plan.commit.Fine?)];
    QueriesInOrder([Acquire(true)], plan.queries);
    QueriesInOrder([Acquire(true), Begin(true)], plan.queries);
    OrderAppends([Acquire(true), Begin(true)] + q, commit);
    hide UserQueries;
    if kind == WithTransaction && plan.begin.Fine? {
      assert [Acquire(true)] + ([Begin(true)] + q) == [Acquire(true), Begin(true)] + q;
      assert [Acquire(true)] + ([Begin(true)] + q + commit) == [Acquire(true), Begin(true)] + q + commit;
    }
  }

  lemma TryEventsAre<R>(kind: CallKind, plan: Plan<R>)
    ensures forall e :: e in TryEvents(kind, plan) ==> 0 < Place(e) < 4 && (kind == WithConnection ==> e.UserQuery?)
  {
  }

  lemma EndIsInOrder<R>(options: Options, kind: CallKind, plan: Plan<R>)
    ensures var events := RollbackEvents(kind, plan) + DisposeEvents(options, plan.dispose.Fine?);
      InOrder(events) && forall e :: e in events ==>
        Place(e) >= 4 && (e.Rollback? ==> kind == WithTransaction)
  {
  }

  lemma CallIsInOrder<R>(options: Options, kind: CallKind, plan: Plan<R>)
    requires plan.acquire.Fine?
    ensures InOrder(CallTrace(options, kind, plan))
    ensures kind == WithConnection ==> forall e :: e in CallTrace(options, kind, plan) ==> Place(e) in {0, 2, 5}
  {
    TryIsInOrder(kind, plan);
    TryEventsAre(kind, plan);
    EndIsInOrder(options, kind, plan);
    hide InOrder, TryEvents, RollbackEvents, DisposeEvents;
    var start, end := [Acquire(true)] + TryEvents(kind, plan),
      RollbackEvents(kind, plan) + DisposeEvents(options, plan.dispose.Fine?);
    assert CallTrace(options, kind, plan) == start + end;
    assert forall e :: e in start ==> e == Acquire(true) || e in TryEvents(kind, plan);
    OrderAppends(start, end);
    assert forall e :: e in start + end ==> e in start || e in end;
  }

  /** Every call keeps its events in order, and a transaction's inside its transaction. */
  lemma CallsAreScoped<R>(options: Options, kind: CallKind, plan: Plan<R>)
    ensures Scoped(kind, CallTrace(options, kind, plan))
  {
    hide BeginsFirst, TryEvents, RollbackEvents, DisposeEvents;
    var t := CallTrace(options, kind, plan);
    if plan.acquire.Fine? {
      CallIsInOrder(options, kind, plan);
      hide InOrder;
      if kind == WithTransaction {
        BeginsItsTransaction(options, plan);
      } else {
        assert forall i :: 0 <= i < |t| ==> t[i] in t;
      }
    } else {
      assert t == [Acquire(false)] && BeginsFirst(t) by {
        NothingBegins();
      }
    }
  }

  lemma NothingBegins()
    ensures BeginsFirst([Acquire(false)])
  {
  }

  lemma BeginsItsTransaction<R>(options: Options, plan: Plan<R>)
    requires plan.acquire.Fine?
    ensures BeginsFirst(CallTrace(options, WithTransaction, plan))
  {
    var t := CallTrace(options, WithTransaction, plan);
    assert t[0] == Acquire(true) && t[1] == Begin(plan.begin.Fine?);
    hide UserQueries;
    if plan.begin.Fails? {
      assert forall e :: e in t ==> e in [Acquire(true), Begin(false)] || e.Rollback? || e.DisposeHook? || e.Release?;
    }
  }

  lemma {:induction false} QueriesAppend(a: seq<Event>, b: seq<Event>)
    ensures QueriesIn(a + b) == QueriesIn(a) + QueriesIn(b)
  {
    if b == [] {
      assert a + b == a;
    } else {
      assert (a + b)[..|a + b| - 1] == a + b[..|b| - 1];
      QueriesAppend(a, b[..|b| - 1]);
    }
  }

  lemma {:induction false} QueriesAreThose(queries: seq<bool>)
    ensures QueriesIn(UserQueries(queries)) == queries
  {
    if queries != [] {
      var n := |queries| - 1;
      assert UserQueries(queries)[..n] == UserQueries(queries[..n]);
      QueriesAreThose(queries[..n]);
      assert queries == queries[..n] + [queries[n]];
    }
  }

  lemma QueriesOfTry<R>(kind: CallKind, plan: Plan<R>)
    ensures QueriesIn(TryEvents(kind, plan)) ==
      if kind == WithTransaction && plan.begin.Fails? then [] else plan.queries
  {
    var q := UserQueries(plan.queries);
    QueriesAreThose(plan.queries);
    SingleEvents();
    hide QueriesIn, UserQueries;
    QueriesAppend([Begin(true)] + q, [Commit(plan.commit.Fine?)]);
    QueriesAppend([Begin(true)], q);
  }

  /** The callback's own queries happen, all and in order, exactly when it runs: not before BEGIN is fine. */
  lemma CallbackQueries<R>(options: Options, kind: CallKind, plan: Plan<R>)
    ensures QueriesIn(CallTrace(options, kind, plan)) == if CallbackRuns(kind, plan) then plan.queries else []
  {
    QueriesOfTry(kind, plan);
    SingleEvents();
    hide QueriesIn, TryEvents;
    QueriesAppend([Acquire(true)] + TryEvents(kind, plan) + RollbackEvents(kind, plan),
      DisposeEvents(options, plan.dispose.Fine?));
    QueriesAppend([Acquire(true)] + TryEvents(kind, plan), RollbackEvents(kind, plan));
    QueriesAppend([Acquire(true)], TryEvents(kind, plan));
  }

  lemma SingleEvents()
    ensures QueriesIn([]) == []
    ensures forall e: Event :: !e.UserQuery? ==> QueriesIn([e]) == []
  {
    forall e: Event ensures [e][..0] == [] {
    }
  }

  lemma CommitInTry<R>(kind: CallKind, plan: Plan<R>, ok: bool)
    ensures Commit(ok) in TryEvents(kind, plan) <==>
      kind == WithTransaction && plan.begin.Fine? && plan.body.Value? && plan.commit.Fine? == ok
  {
    assert forall e :: e in UserQueries(plan.queries) ==> e.UserQuery?;
    hide UserQueries;
  }

  /** COMMIT is attempted exactly when the callback ran in a transaction and returned. */
  lemma CommitIffCallbackReturned<R>(options: Options, kind: CallKind, plan: Plan<R>, ok: bool)
    ensures CommitAttempted(CallTrace(options, kind, plan), ok) <==>
      kind == WithTransaction && CallbackRuns(kind, plan) && plan.body.Value? && plan.commit.Fine? == ok
  {
    CommitInTry(kind, plan, ok);
    hide TryEvents;
    assert CommitAttempted(CallTrace(options, kind, plan), ok) <==> Commit(ok) in CallTrace(options, kind, plan);
  }

  /** When BEGIN fails, nothing the callback or COMMIT would have done shows. */
  lemma FailedBeginDecides<R>(options: Options, plan: Plan<R>, queries: seq<bool>, body: Outcome<R>, commit: Step)
    requires plan.acquire.Fine? && plan.begin.Fails?
    ensures var other := plan.(queries := queries, body := body, commit := commit);
      && CallTrace(options, WithTransaction, other) == CallTrace(options, WithTransaction, plan)
      && CallResult(options, WithTransaction, other) == CallResult(options, WithTransaction, plan)
    ensures var masked := HasDisposer(options) && plan.dispose.Fails? && !plan.begin.error.truthy;
      CallResult(options, WithTransaction, plan) ==
        Rejected(if masked then plan.dispose.error else plan.begin.error)
  {
  }

  /** No call both commits and rolls back. */
  lemma NeverCommitsAndRollsBack<R>(options: Options, kind: CallKind, plan: Plan<R>)
    ensures !(Committed(CallTrace(options, kind, plan)) && RollbackAttempted(CallTrace(options, kind, plan)))
  {
    RollbackIffTryThrew(options, kind, plan);
  }

  /** A committed transaction still rejects exactly when disposing of its connection fails. */
  lemma CommittedButRejected<R>(options: Options, plan: Plan<R>)
    ensures var t, r := CallTrace(options, WithTransaction, plan), CallResult(options, WithTransaction, plan);
      Committed(t) ==>
        (r.Rejected? <==> DisposalFails(options, plan)) && (r.Rejected? ==> r.error == plan.dispose.error)
  {
    RollbackIffTryThrew(options, WithTransaction, plan);
  }

  /** The first thing to throw on the acquired connection: BEGIN, the callback it lets run, or COMMIT after that. */
  predicate IsOriginalError<R>(kind: CallKind, plan: Plan<R>, e: Thrown) {
    || (kind == WithTransaction && plan.acquire.Fine? && plan.begin == Fails(e))
    || (CallbackRuns(kind, plan) && plan.body == Throws(e))
    || (kind == WithTransaction && CallbackRuns(kind, plan) && plan.body.Value? && plan.commit == Fails(e))
  }

  ghost predicate HasOriginalError<R>(kind: CallKind, plan: Plan<R>) {
    exists e :: IsOriginalError(kind, plan, e)
  }

  /** The documentation promises the original error always; it is exactly a falsy one that a failing disposal masks. */
  lemma OriginalErrorPropagatesIff<R>(options: Options, kind: CallKind, plan: Plan<R>, e: Thrown)
    requires IsOriginalError(kind, plan, e)
    ensures CallResult(options, kind, plan) == Rejected(e) <==>
      e.truthy || !DisposalFails(options, plan) || plan.dispose.error == e
  {
  }

  /** How a call is left: with the callback's value, or with the one error that got through. */
  ghost predicate LeavesAs<R>(options: Options, kind: CallKind, plan: Plan<R>, r: Completion<R>) {
    && (r.Returned? <==>
         CallbackRuns(kind, plan) && !HasOriginalError(kind, plan) && !DisposalFails(options, plan))
    && (r.Returned? ==> plan.body == Value(r.value))
    && (forall e :: r == Rejected(e) <==>
         || plan.acquire == Fails(e)
         || (IsOriginalError(kind, plan, e) && (e.truthy || !DisposalFails(options, plan)))
         || (plan.acquire.Fine? && DisposalFails(options, plan) && plan.dispose == Fails(e) &&
             forall o :: IsOriginalError(kind, plan, o) ==> !o.truthy))
  }

  lemma CallLeavesAs<R>(options: Options, kind: CallKind, plan: Plan<R>)
    ensures LeavesAs(options, kind, plan, CallResult(options, kind, plan))
  {
    var primary := TryError(kind, plan);
    if plan.acquire.Fine? {
      assert forall e :: IsOriginalError(kind, plan, e) <==> primary == Some(e);
      assert HasOriginalError(kind, plan) <==> primary.Some? by {
        if primary.Some? {
          assert IsOriginalError(kind, plan, primary.value);
        }
      }
    }
  }

  lemma FalsyErrorIsMasked()
    ensures var plan: Plan<int> := Plan(Fine, Fine, [], Throws(Thrown(0, false)), Fine, Fine, Fails(Thrown(1, true)));
      CallResult(Options(true, false), WithTransaction, plan) == Rejected(Thrown(1, true))
  {
  }
}
