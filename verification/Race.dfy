/** FirstNonErrorWithValue: goroutines that race to send one value over an unbuffered channel, a
    waiter that reports their errors, and one select that takes whichever comes first. */
module Race {
  import opened Wrappers

  /** How a run ends; `hit` is what returnOnError says of its error. */
  datatype Outcome<T> = Success(val: T) | Failure(err: string, hit: bool)

  datatype Goroutine<T> = Running | SendingVal(val: T) | SendingErr(err: string) | Ended

  /** The waiter is done with Wait once every goroutine has ended. */
  datatype Waiter = Waiting | Sending(errs: seq<string>) | Delivered

  datatype Answer<T> = Value(val: T) | HitError(err: string) | WaitErrors(errs: seq<string>) | Cancelled

  datatype State<T> = State(
    goroutines: seq<Goroutine<T>>,
    outcomes: seq<Option<Outcome<T>>>,  // what has become of each run so far
    waiter: Waiter,
    cancelled: bool,                    // the context
    answer: Option<Answer<T>>)          // None while the caller is in its select

  datatype Step<T> =
    | Finish(i: nat, outcome: Outcome<T>)
    | ReceiveVal(i: nat)
    | ReceiveErr(i: nat)
    | WaitReturns
    | ReceiveWait
    | Cancel
    | ReceiveDone

  /** The errors that Wait joins. */
  function Errors<T>(outcomes: seq<Option<Outcome<T>>>): seq<string>
    decreases |outcomes|
  {
    if outcomes == [] then []
    else
      var last := outcomes[|outcomes| - 1];
      Errors(outcomes[..|outcomes| - 1]) + if last.Some? && last.value.Failure? then [last.value.err] else []
  }

  function Start<T>(n: nat): State<T> {
    State(seq(n, _ => Running), seq(n, _ => None), Waiting, false, None)
  }

  predicate Enabled<T>(s: State<T>, step: Step<T>) {
    && |s.outcomes| == |s.goroutines|
    && match step
       case Finish(i, _) => i < |s.goroutines| && s.goroutines[i].Running?
       case ReceiveVal(i) => i < |s.goroutines| && s.goroutines[i].SendingVal? && s.answer.None?
       case ReceiveErr(i) => i < |s.goroutines| && s.goroutines[i].SendingErr? && s.answer.None?
       case WaitReturns => s.waiter.Waiting? && forall i :: 0 <= i < |s.goroutines| ==> s.goroutines[i].Ended?
       case ReceiveWait => s.waiter.Sending? && s.answer.None?
       case Cancel => !s.cancelled
       case ReceiveDone => s.cancelled && s.answer.None?
  }

  function After<T>(outcome: Outcome<T>): Goroutine<T> {
    match outcome
    case Success(val) => SendingVal(val)
    case Failure(err, hit) => if hit then SendingErr(err) else Ended
  }

  function Next<T>(s: State<T>, step: Step<T>): State<T>
    requires Enabled(s, step)
  {
    match step
    case Finish(i, outcome) => s.(goroutines := s.goroutines[i := After(outcome)], outcomes := s.outcomes[i := Some(outcome)])
    case ReceiveVal(i) => s.(goroutines := s.goroutines[i := Ended], answer := Some(Value(s.goroutines[i].val)))
    case ReceiveErr(i) => s.(goroutines := s.goroutines[i := Ended], answer := Some(HitError(s.goroutines[i].err)))
    case WaitReturns => s.(waiter := Sending(Errors(s.outcomes)))
    case ReceiveWait => s.(waiter := Delivered, answer := Some(WaitErrors(s.waiter.errs)))
    case Cancel => s.(cancelled := true)
    case ReceiveDone => s.(answer := Some(Cancelled))
  }

  predicate IsRun<T>(s: State<T>, steps: seq<Step<T>>)
    decreases |steps|
  {
    steps == [] || (Enabled(s, steps[0]) && IsRun(Next(s, steps[0]), steps[1..]))
  }

  function End<T>(s: State<T>, steps: seq<Step<T>>): State<T>
    requires IsRun(s, steps)
    decreases |steps|
  {
    if steps == [] then s else End(Next(s, steps[0]), steps[1..])
  }

  // ---- The invariant ----

  predicate Failed<T>(s: State<T>, i: nat) {
    i < |s.outcomes| && s.outcomes[i].Some? && s.outcomes[i].value.Failure? && !s.outcomes[i].value.hit
  }

  /** What a goroutine is up to follows from its outcome, until the caller has received from it. */
  ghost predicate InStep<T>(s: State<T>, i: nat)
    requires i < |s.goroutines| == |s.outcomes|
  {
    match s.outcomes[i]
    case None => s.goroutines[i].Running?
    case Some(outcome) => s.goroutines[i] == After(outcome) || (s.goroutines[i].Ended? && s.answer.Some? && !s.answer.value.WaitErrors?)
  }

  ghost predicate Explained<T>(s: State<T>, answer: Answer<T>) {
    match answer
    case Value(val) => exists i :: 0 <= i < |s.outcomes| && s.outcomes[i] == Some(Success(val))
    case HitError(err) => exists i :: 0 <= i < |s.outcomes| && s.outcomes[i] == Some(Failure(err, true))
    case WaitErrors(errs) => (forall i :: 0 <= i < |s.outcomes| ==> Failed(s, i)) && errs == Errors(s.outcomes)
    case Cancelled => s.cancelled
  }

  ghost predicate Inv<T>(s: State<T>) {
    && |s.goroutines| == |s.outcomes|
    && (forall i :: 0 <= i < |s.goroutines| ==> InStep(s, i))
    && (s.answer.Some? ==> Explained(s, s.answer.value))
    && (!s.waiter.Waiting? ==> forall i :: 0 <= i < |s.goroutines| ==> s.goroutines[i].Ended?)
    && (s.waiter.Sending? ==> s.waiter.errs == Errors(s.outcomes))
    && (s.waiter.Delivered? <==> s.answer.Some? && s.answer.value.WaitErrors?)
  }

  lemma FinishPreserves<T>(s: State<T>, step: Step<T>)
    requires Inv(s) && Enabled(s, step) && step.Finish?
    ensures Inv(Next(s, step))
  {
    var s' := Next(s, step);
    forall i | 0 <= i < |s'.goroutines| ensures InStep(s', i) { assert InStep(s, i); }
    assert s.outcomes[step.i].None? by { assert InStep(s, step.i); }
    if s.answer.Some? {
      assert !Failed(s, step.i);
      match s.answer.value
      case Value(val) =>
        var i :| 0 <= i < |s.outcomes| && s.outcomes[i] == Some(Success(val));
        assert s'.outcomes[i] == s.outcomes[i];
      case HitError(err) =>
        var i :| 0 <= i < |s.outcomes| && s.outcomes[i] == Some(Failure(err, true));
        assert s'.outcomes[i] == s.outcomes[i];
      case _ =>
    }
  }

  lemma Preserved<T>(s: State<T>, step: Step<T>)
    requires Inv(s) && Enabled(s, step)
    ensures Inv(Next(s, step))
  {
    var s' := Next(s, step);
    if step.Finish? {
      FinishPreserves(s, step);
    } else {
      forall i | 0 <= i < |s'.goroutines| ensures InStep(s', i) { assert InStep(s, i); }
      assert s'.outcomes == s.outcomes;
      assert forall i: nat :: i < |s.outcomes| && Failed(s, i) ==> Failed(s', i);
      match step
      case ReceiveVal(i) => assert InStep(s, i) && s.outcomes[i] == Some(Success(s.goroutines[i].val));
      case ReceiveErr(i) => assert InStep(s, i) && s.outcomes[i] == Some(Failure(s.goroutines[i].err, true));
      case ReceiveWait => forall i | 0 <= i < |s.outcomes| ensures Failed(s', i) { assert InStep(s, i); }
      case _ =>
    }
  }

  lemma {:induction false} RunsKeepInv<T>(s: State<T>, steps: seq<Step<T>>)
    requires Inv(s) && IsRun(s, steps)
    ensures Inv(End(s, steps))
    decreases |steps|
  {
    if steps != [] {
      Preserved(s, steps[0]);
      RunsKeepInv(Next(s, steps[0]), steps[1..]);
    }
  }

  // ---- Main results ----

  ghost predicate Reaches<T>(n: nat, steps: seq<Step<T>>, s: State<T>) {
    IsRun(Start(n), steps) && s == End(Start(n), steps)
  }

  /** Whatever the schedule, the answer is what it claims to be: a value of a run that succeeded, an
      error that some run was to return on, or the errors of all runs when every one of them failed. */
  lemma AnswersAreEarned<T>(n: nat, steps: seq<Step<T>>, s: State<T>)
    requires Reaches(n, steps, s) && s.answer.Some?
    ensures Explained(s, s.answer.value)
  {
    assert Inv(Start<T>(n));
    RunsKeepInv(Start(n), steps);
  }

  /** With no error to return on and no cancellation, the caller gets the value of a successful run
      if any run succeeds, and an error only if all of them fail: the wait cannot finish while a
      success has not been received. */
  lemma FirstSuccessWins<T>(n: nat, steps: seq<Step<T>>, s: State<T>)
    requires Reaches(n, steps, s) && s.answer.Some? && n >= 1
    requires !s.cancelled && forall i :: 0 <= i < |s.outcomes| && s.outcomes[i].Some? && s.outcomes[i].value.Failure? ==> !s.outcomes[i].value.hit
    ensures |s.outcomes| == n
    ensures (exists i :: 0 <= i < n && s.outcomes[i].Some? && s.outcomes[i].value.Success?) <==> s.answer.value.Value?
    ensures !s.answer.value.Value? <==> forall i :: 0 <= i < n ==> Failed(s, i)
    ensures !s.answer.value.Value? ==> s.answer.value.WaitErrors? && |s.answer.value.errs| == n
    ensures !s.answer.value.Value? ==> forall i :: 0 <= i < n ==> Failed(s, i) && s.answer.value.errs[i] == s.outcomes[i].value.err
  {
    AnswersAreEarned(n, steps, s);
    SizeKept(Start<T>(n), steps);
    match s.answer.value
    case Value(val) =>
      var i :| 0 <= i < |s.outcomes| && s.outcomes[i] == Some(Success(val));
      assert !Failed(s, i);
    case HitError(_) =>
    case WaitErrors(_) =>
      forall i | 0 <= i < n ensures s.outcomes[i].Some? && !s.outcomes[i].value.Success? { assert Failed(s, i); }
      ErrorsOfAll(s.outcomes);
    case Cancelled =>
  }

  /** When all runs have failed the joined errors are theirs, one each. */
  lemma {:induction false} ErrorsOfAll<T>(outcomes: seq<Option<Outcome<T>>>)
    requires forall i :: 0 <= i < |outcomes| ==> outcomes[i].Some? && outcomes[i].value.Failure?
    ensures |Errors(outcomes)| == |outcomes| && forall i :: 0 <= i < |outcomes| ==> Errors(outcomes)[i] == outcomes[i].value.err
    decreases |outcomes|
  {
    if outcomes != [] {
      ErrorsOfAll(outcomes[..|outcomes| - 1]);
    }
  }

  lemma {:induction false} SizeKept<T>(s: State<T>, steps: seq<Step<T>>)
    requires IsRun(s, steps) && |s.goroutines| == |s.outcomes|
    ensures |End(s, steps).outcomes| == |s.outcomes|
    decreases |steps|
  {
    if steps != [] {
      SizeKept(Next(s, steps[0]), steps[1..]);
    }
  }

  // ---- It always returns ----

  function Pending<T>(goroutines: seq<Goroutine<T>>): nat
    decreases |goroutines|
  {
    if goroutines == [] then 0
    else
      var last := goroutines[|goroutines| - 1];
      Pending(goroutines[..|goroutines| - 1]) + if last.Running? then 2 else if last.Ended? then 0 else 1
  }

  /** What is left to happen. */
  function Remaining<T>(s: State<T>): nat {
    Pending(s.goroutines)
    + (if s.waiter.Waiting? then 2 else if s.waiter.Sending? then 1 else 0)
    + (if s.cancelled then 0 else 1) + (if s.answer.None? then 1 else 0)
  }

  lemma {:induction false} PendingDrops<T>(goroutines: seq<Goroutine<T>>, i: nat, g: Goroutine<T>)
    requires i < |goroutines|
    requires (goroutines[i].Running? && !g.Running?) || (!goroutines[i].Running? && !goroutines[i].Ended? && g.Ended?)
    ensures Pending(goroutines[i := g]) < Pending(goroutines)
    decreases |goroutines|
  {
    var n := |goroutines| - 1;
    if i < n {
      PendingDrops(goroutines[..n], i, g);
      assert goroutines[i := g][..n] == goroutines[..n][i := g];
    } else {
      assert goroutines[i := g][..n] == goroutines[..n];
    }
  }

  /** No schedule is longer than what was left at its start. */
  lemma {:induction false} SchedulesEnd<T>(s: State<T>, steps: seq<Step<T>>)
    requires IsRun(s, steps)
    ensures |steps| + Remaining(End(s, steps)) <= Remaining(s)
    decreases |steps|
  {
    if steps != [] {
      match steps[0] {
        case Finish(i, outcome) => PendingDrops(s.goroutines, i, After(outcome));
        case ReceiveVal(i) => PendingDrops(s.goroutines, i, Ended);
        case ReceiveErr(i) => PendingDrops(s.goroutines, i, Ended);
        case _ =>
      }
      SchedulesEnd(Next(s, steps[0]), steps[1..]);
    }
  }

  /** Something the caller waits for can always happen: either a run is still going, or the caller
      can be handed an answer, or the waiter can be done. */
  lemma NeverStuck<T>(n: nat, steps: seq<Step<T>>, s: State<T>, outcome: Outcome<T>)
    requires Reaches(n, steps, s) && s.answer.None?
    ensures
      || (exists i :: 0 <= i < |s.goroutines| && Enabled(s, Finish(i, outcome)))
      || (exists i :: 0 <= i < |s.goroutines| && (Enabled(s, ReceiveVal(i)) || Enabled(s, ReceiveErr(i))))
      || Enabled(s, WaitReturns) || Enabled(s, ReceiveWait)
  {
    assert Inv(Start<T>(n));
    RunsKeepInv(Start(n), steps);
    if i :| 0 <= i < |s.goroutines| && !s.goroutines[i].Ended? {
      assert s.goroutines[i].Running? ==> Enabled(s, Finish(i, outcome));
      assert s.goroutines[i].SendingVal? ==> Enabled(s, ReceiveVal(i));
      assert s.goroutines[i].SendingErr? ==> Enabled(s, ReceiveErr(i));
    }
  }

  // ---- The losers ----

  /** A goroutine that has a value to send after the caller has returned is blocked for ever, and the
      waiter with it. */
  lemma {:induction false} LosersStayBlocked<T>(s: State<T>, steps: seq<Step<T>>, i: nat)
    requires IsRun(s, steps) && s.answer.Some? && |s.goroutines| == |s.outcomes|
    requires i < |s.goroutines| && (s.goroutines[i].SendingVal? || s.goroutines[i].SendingErr?)
    ensures i < |End(s, steps).goroutines| && End(s, steps).goroutines[i] == s.goroutines[i]
    ensures End(s, steps).waiter == s.waiter && End(s, steps).answer == s.answer
    decreases |steps|
  {
    if steps != [] {
      LosersStayBlocked(Next(s, steps[0]), steps[1..], i);
    }
  }

  /** Nothing can move any more, whatever happens to the context. */
  ghost predicate AtRest<T(!new)>(s: State<T>) { forall step: Step<T> :: !step.Cancel? ==> !Enabled(s, step) }

  /** A goroutine, or the waiter, has not come to its end. */
  predicate LeftBlocked<T>(s: State<T>) {
    !s.waiter.Delivered? || exists i :: 0 <= i < |s.goroutines| && !s.goroutines[i].Ended?
  }

  /** When all has come to rest the caller has its answer, and something is left blocked if and only
      if the answer is not that of the waiter: a value, an error or a cancellation leaves at least
      the waiter behind, on a channel that nobody reads. */
  lemma BlockedUnlessWaited<T(!new)>(n: nat, steps: seq<Step<T>>, s: State<T>)
    requires Reaches(n, steps, s) && AtRest(s)
    ensures s.answer.Some? && (LeftBlocked(s) <==> !s.answer.value.WaitErrors?)
  {
    assert Inv(Start<T>(n));
    RunsKeepInv(Start(n), steps);
    if s.answer.None? {
      NeverStuck(n, steps, s, Failure("", false));
    }
  }
}
