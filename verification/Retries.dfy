/** What becomes of the clients that do not commit: why an EXEC is lost, what a client does then, and
    how one can fail at all. */
module Retries {
  import opened Kernel
  import opened Serialisability
  import opened Serial

  // ---- Failing ----

  /** The client's own function gives up at this step, or its caller does. */
  ghost predicate FailsAt<K(!new), V(!new), R(!new), O(!new)>(jobs: seq<Job<K, V, R, O>>, w: World<K, V, R, O>, step: Step, c: nat)
    requires Enabled(jobs, w, step)
  {
    || step == GiveUp(c)
    || (step == Advance(c) &&
          var p := w.phases[c];
          match jobs[c].body[p.done].act(p.replies)
          case Ask(_) => |p.replies| >= jobs[c].body[p.done].asks
          case Commit(_, _) => false
          case Abort(_) => true)
  }

  ghost predicate EverFails<K(!new), V(!new), R(!new), O(!new)>(jobs: seq<Job<K, V, R, O>>, w: World<K, V, R, O>, steps: seq<Step>, c: nat)
    requires IsRun(jobs, w, steps)
    decreases |steps|
  {
    steps != [] && (FailsAt(jobs, w, steps[0], c) || EverFails(jobs, Next(jobs, w, steps[0]), steps[1..], c))
  }

  lemma StepFails<K(!new), V(!new), R(!new), O(!new)>(jobs: seq<Job<K, V, R, O>>, w: World<K, V, R, O>, step: Step, c: nat)
    requires c < |jobs| && Enabled(jobs, w, step)
    ensures |Next(jobs, w, step).phases| == |jobs|
    ensures Next(jobs, w, step).phases[c].Failed? <==> w.phases[c].Failed? || FailsAt(jobs, w, step, c)
  {
  }

  /** A client fails exactly when a function of its own aborts or it gives up: losing EXEC, however
      often, makes no client fail, and nothing that others do does. */
  lemma {:induction false} FailsByItself<K(!new), V(!new), R(!new), O(!new)>(jobs: seq<Job<K, V, R, O>>, w: World<K, V, R, O>, steps: seq<Step>, c: nat)
    requires c < |jobs| && |w.phases| == |jobs| && IsRun(jobs, w, steps)
    ensures |End(jobs, w, steps).phases| == |jobs|
    ensures End(jobs, w, steps).phases[c].Failed? <==> w.phases[c].Failed? || EverFails(jobs, w, steps, c)
    decreases |steps|
  {
    if steps != [] {
      StepFails(jobs, w, steps[0], c);
      FailsByItself(jobs, Next(jobs, w, steps[0]), steps[1..], c);
    }
  }

  // ---- Losing EXEC ----

  ghost predicate InFlight<K, V, R, O>(p: Phase<K, V, R, O>) { p.Ready? || p.Running? }

  function Attempts<K, V, R, O>(p: Phase<K, V, R, O>): nat
    requires p.Ready? || p.Running?
  {
    p.attempts
  }

  /** How often the client has come to EXEC and lost it. */
  ghost function LostExecs<K(!new), V(!new), R(!new), O(!new)>(jobs: seq<Job<K, V, R, O>>, w: World<K, V, R, O>, steps: seq<Step>, c: nat): nat
    requires IsRun(jobs, w, steps)
    decreases |steps|
  {
    if steps == [] then 0
    else (if steps[0] == Exec(c) && w.phases[c].dirty then 1 else 0) + LostExecs(jobs, Next(jobs, w, steps[0]), steps[1..], c)
  }

  lemma StepAttempts<K(!new), V(!new), R(!new), O(!new)>(jobs: seq<Job<K, V, R, O>>, w: World<K, V, R, O>, step: Step, c: nat)
    requires c < |jobs| && Enabled(jobs, w, step) && InFlight(Next(jobs, w, step).phases[c])
    ensures InFlight(w.phases[c])
    ensures Attempts(Next(jobs, w, step).phases[c]) == Attempts(w.phases[c]) + if step == Exec(c) && w.phases[c].dirty then 1 else 0
  {
  }

  /** A client that has neither committed nor failed has made one attempt more than it has lost. */
  lemma {:induction false} AttemptsAreLostExecs<K(!new), V(!new), R(!new), O(!new)>(jobs: seq<Job<K, V, R, O>>, w: World<K, V, R, O>, steps: seq<Step>, c: nat)
    requires c < |jobs| && |w.phases| == |jobs| && IsRun(jobs, w, steps) && c < |End(jobs, w, steps).phases| && InFlight(End(jobs, w, steps).phases[c])
    ensures InFlight(w.phases[c])
    ensures Attempts(End(jobs, w, steps).phases[c]) == Attempts(w.phases[c]) + LostExecs(jobs, w, steps, c)
    decreases |steps|
  {
    if steps != [] {
      StepFails(jobs, w, steps[0], c);
      AttemptsAreLostExecs(jobs, Next(jobs, w, steps[0]), steps[1..], c);
      StepAttempts(jobs, w, steps[0], c);
    }
  }

  /** So a client can give up only after it has lost EXEC. */
  lemma GivesUpOnlyAfterLosing<K(!new), V(!new), R(!new), O(!new)>(jobs: seq<Job<K, V, R, O>>, s0: map<K, V>, steps: seq<Step>, c: nat)
    requires c < |jobs| && IsRun(jobs, Start(jobs, s0), steps) && Enabled(jobs, End(jobs, Start(jobs, s0), steps), GiveUp(c))
    ensures LostExecs(jobs, Start(jobs, s0), steps, c) >= 1
  {
    AttemptsAreLostExecs(jobs, Start(jobs, s0), steps, c);
  }

  /** A commit of somebody else that writes a key the client watches. */
  ghost predicate Touches<K(!new), V(!new), R(!new), O(!new)>(jobs: seq<Job<K, V, R, O>>, w: World<K, V, R, O>, step: Step, c: nat)
    requires Enabled(jobs, w, step) && c < |jobs|
  {
    step.Exec? && step.c != c && !w.phases[step.c].dirty && jobs[c].watch * Keys(w.phases[step.c].queue) != {}
  }

  /** Such a commit since the client last watched; `before` says whether there was one earlier. */
  ghost predicate TouchedSince<K(!new), V(!new), R(!new), O(!new)>(jobs: seq<Job<K, V, R, O>>, w: World<K, V, R, O>, steps: seq<Step>, c: nat, before: bool)
    requires IsRun(jobs, w, steps) && c < |jobs|
    decreases |steps|
  {
    if steps == [] then before
    else TouchedSince(jobs, Next(jobs, w, steps[0]), steps[1..], c, steps[0] != Watch(c) && (before || Touches(jobs, w, steps[0], c)))
  }

  lemma StepDirties<K(!new), V(!new), R(!new), O(!new)>(jobs: seq<Job<K, V, R, O>>, w: World<K, V, R, O>, step: Step, c: nat, before: bool)
    requires c < |jobs| && Enabled(jobs, w, step) && (w.phases[c].Running? ==> (w.phases[c].dirty <==> before))
    ensures |Next(jobs, w, step).phases| == |jobs|
    ensures Next(jobs, w, step).phases[c].Running? ==>
      (Next(jobs, w, step).phases[c].dirty <==> step != Watch(c) && (before || Touches(jobs, w, step, c)))
  {
  }

  /** An attempt is doomed exactly when somebody else has committed to one of its watched keys since it
      began to watch them; commits to other keys do it no harm. */
  lemma {:induction false} DirtyMeansTouched<K(!new), V(!new), R(!new), O(!new)>(jobs: seq<Job<K, V, R, O>>, w: World<K, V, R, O>, steps: seq<Step>, c: nat, before: bool)
    requires c < |jobs| && |w.phases| == |jobs| && IsRun(jobs, w, steps) && (w.phases[c].Running? ==> (w.phases[c].dirty <==> before))
    ensures |End(jobs, w, steps).phases| == |jobs|
    ensures End(jobs, w, steps).phases[c].Running? ==> (End(jobs, w, steps).phases[c].dirty <==> TouchedSince(jobs, w, steps, c, before))
    decreases |steps|
  {
    if steps != [] {
      StepDirties(jobs, w, steps[0], c, before);
      DirtyMeansTouched(jobs, Next(jobs, w, steps[0]), steps[1..], c, steps[0] != Watch(c) && (before || Touches(jobs, w, steps[0], c)));
    }
  }

  // ---- Retrying ----

  /** Undisturbed, what is left of the attempt comes to EXEC, and if that is lost already, another
      attempt on the store as it is would commit. */
  ghost predicate Prospects<K(!new), V(!new), R(!new), O(!new)>(job: Job<K, V, R, O>, p: Phase<K, V, R, O>, s: map<K, V>) {
    match p
    case Ready(_) => job.ready(s) && Alone(job.body, s).Committing?
    case Running(_, done, replies, outs, queue, dirty) =>
      && done <= |job.body| && From(job.body, done, replies, outs, queue, s).Committing?
      && (dirty ==> job.ready(s) && Alone(job.body, s).Committing?)
    case Committed(_) => true
    case Failed(_) => false
  }

  /** A running client comes to its EXEC when what is left of its body commits. */
  lemma {:induction false} ComesToExec<K(!new), V(!new), R(!new), O(!new)>(jobs: seq<Job<K, V, R, O>>, w: World<K, V, R, O>, c: nat) returns (steps: seq<Step>)
    requires |w.phases| == |jobs| && c < |jobs| && w.phases[c].Running? && w.phases[c].dirty && w.phases[c].done <= |jobs[c].body|
    requires var p := w.phases[c]; From(jobs[c].body, p.done, p.replies, p.outs, p.queue, w.store).Committing?
    ensures IsRun(jobs, w, steps) && OnlyOf(steps, c)
    ensures End(jobs, w, steps) == w.(phases := w.phases[c := Ready(w.phases[c].attempts + 1)])
    decreases |jobs[c].body| - w.phases[c].done, if w.phases[c].done < |jobs[c].body| then jobs[c].body[w.phases[c].done].asks - |w.phases[c].replies| else 0
  {
    if w.phases[c].done == |jobs[c].body| {
      steps := [Exec(c)];
    } else {
      var w' := Next(jobs, w, Advance(c));
      var rest := ComesToExec(jobs, w', c);
      steps := [Advance(c)] + rest;
      assert steps[1..] == rest;
      var again := Ready(w.phases[c].attempts + 1);
      assert w'.phases[c := again] == w.phases[c := again];
    }
  }

  /** A client that has lost its EXEC already, but whose attempt will run to its end, goes on to watch
      again and to commit with the output of its body run alone on the store as it is. */
  lemma RetriesAndCommits<K(!new), V(!new), R(!new), O(!new)>(jobs: seq<Job<K, V, R, O>>, w: World<K, V, R, O>, c: nat) returns (steps: seq<Step>)
    requires |w.phases| == |jobs| && c < |jobs| && w.phases[c].Running? && w.phases[c].dirty && Prospects(jobs[c], w.phases[c], w.store)
    ensures IsRun(jobs, w, steps) && OnlyOf(steps, c) && Watch(c) in steps && Commits(jobs, w, c, End(jobs, w, steps))
  {
    var first := ComesToExec(jobs, w, c);
    var mid := End(jobs, w, first);
    var rest := RunsAlone(jobs, mid, c);
    RunConcat(jobs, w, first, rest);
    steps := first + rest;
    var done := Committed(Alone(jobs[c].body, w.store).outs);
    assert mid.phases[c := done] == w.phases[c := done];
  }

  lemma OwnStepNeedsProspects<K(!new), V(!new), R(!new), O(!new)>(jobs: seq<Job<K, V, R, O>>, w: World<K, V, R, O>, step: Step)
    requires Enabled(jobs, w, step) && Prospects(jobs[step.c], Next(jobs, w, step).phases[step.c], Next(jobs, w, step).store)
    ensures Prospects(jobs[step.c], w.phases[step.c], w.store)
  {
  }

  lemma {:induction false} OwnRunNeedsProspects<K(!new), V(!new), R(!new), O(!new)>(jobs: seq<Job<K, V, R, O>>, w: World<K, V, R, O>, steps: seq<Step>, c: nat)
    requires c < |jobs| && |w.phases| == |jobs| && IsRun(jobs, w, steps) && OnlyOf(steps, c)
    requires c < |End(jobs, w, steps).phases| && End(jobs, w, steps).phases[c].Committed?
    ensures Prospects(jobs[c], w.phases[c], w.store)
    decreases |steps|
  {
    if steps != [] {
      StepFails(jobs, w, steps[0], c);
      assert steps[0].c == c && OnlyOf(steps[1..], c);
      OwnRunNeedsProspects(jobs, Next(jobs, w, steps[0]), steps[1..], c);
      OwnStepNeedsProspects(jobs, w, steps[0]);
    }
  }

  ghost predicate CommitsByItself<K(!new), V(!new), R(!new), O(!new)>(jobs: seq<Job<K, V, R, O>>, w: World<K, V, R, O>, steps: seq<Step>, c: nat) {
    IsRun(jobs, w, steps) && OnlyOf(steps, c) && c < |End(jobs, w, steps).phases| && End(jobs, w, steps).phases[c].Committed?
  }

  lemma GoesOnToCommit<K(!new), V(!new), R(!new), O(!new)>(jobs: seq<Job<K, V, R, O>>, con: Contract<K, V>, s0: map<K, V>, w: World<K, V, R, O>, c: nat) returns (steps: seq<Step>)
    requires Inv(jobs, con, s0, w) && c < |jobs| && Prospects(jobs[c], w.phases[c], w.store)
    ensures CommitsByItself(jobs, w, steps, c)
  {
    assert Tied(jobs[c], w.phases[c], w.store);
    steps := [];
    match w.phases[c]
    case Ready(_) => steps := RunsAlone(jobs, w, c);
    case Running(_, _, _, _, _, dirty) =>
      if dirty { steps := RetriesAndCommits(jobs, w, c); } else { steps := FinishesAlone(jobs, w, c); }
    case _ =>
  }

  /** In every reachable world a client can go on by itself to commit exactly when its attempt runs to
      its end and, if it has lost EXEC, its body run alone on the store commits. */
  lemma ProspectsDecide<K(!new), V(!new), R(!new), O(!new)>(jobs: seq<Job<K, V, R, O>>, con: Contract<K, V>, s0: map<K, V>, w: World<K, V, R, O>, c: nat)
    requires Inv(jobs, con, s0, w) && c < |jobs|
    ensures (exists steps :: CommitsByItself(jobs, w, steps, c)) <==> Prospects(jobs[c], w.phases[c], w.store)
  {
    if Prospects(jobs[c], w.phases[c], w.store) {
      var steps := GoesOnToCommit(jobs, con, s0, w, c);
    } else {
      forall steps | CommitsByItself(jobs, w, steps, c) ensures false { OwnRunNeedsProspects(jobs, w, steps, c); }
    }
  }

  // ---- A torn read ----

  /** Reads two places and aborts if they differ. */
  function CompareAct(replies: seq<int>): Action<bool, int, int, int> {
    if |replies| < 2 then Ask((s: map<bool, int>) => var k := |replies| == 1; if k in s then s[k] else 0)
    else if replies[0] == replies[1] then Commit(replies[0], [])
    else Abort("torn")
  }

  /** One client compares, the other writes 1 to both places. */
  function Comparing(): seq<Job<bool, int, int, int>> {
    [Job([Script(2, CompareAct)], {false, true}, _ => true),
     Job([Script(0, _ => Commit(0, [(false, 1), (true, 1)]))], {}, _ => true)]
  }

  const TORN := [Watch(0), Advance(0), Watch(1), Advance(1), Exec(1)]

  const BEGUN: Phase<bool, int, int, int> := Running(0, 0, [], [], [], false)
  const HALF_READ: Phase<bool, int, int, int> := Running(0, 0, [0], [], [], false)
  const WRITING: Phase<bool, int, int, int> := Running(0, 1, [], [0], [(false, 1), (true, 1)], false)

  ghost function TornWorlds(): seq<World<bool, int, int, int>> {
    [Start(Comparing(), map[]), World(map[], [BEGUN, Ready(0)], []), World(map[], [HALF_READ, Ready(0)], []),
     World(map[], [HALF_READ, BEGUN], []), World(map[], [HALF_READ, WRITING], []),
     World(map[false := 1, true := 1], [HALF_READ.(dirty := true), Committed([0])], [1])]
  }

  /** An attempt that is doomed can still run into an error that no serial execution has, and then its
      client fails and does not retry, although its body run alone would commit. */
  lemma TornReadFails()
    ensures IsRun(Comparing(), Start(Comparing(), map[]), TORN) && End(Comparing(), Start(Comparing(), map[]), TORN) == TornWorlds()[5]
    ensures var w := TornWorlds()[5];
      && w.phases[0].Running? && w.phases[0].dirty && Alone(Comparing()[0].body, w.store) == Committing([1], [])
      && forall steps :: IsRun(Comparing(), w, steps) ==> |End(Comparing(), w, steps).phases| == 2 && !End(Comparing(), w, steps).phases[0].Committed?
  {
    TornReadRuns();
    TornReadHasNoProspects();
    forall steps | IsRun(Comparing(), TornWorlds()[5], steps)
      ensures |End(Comparing(), TornWorlds()[5], steps).phases| == 2 && !End(Comparing(), TornWorlds()[5], steps).phases[0].Committed?
    {
      NeverCommits(Comparing(), TornWorlds()[5], steps, 0);
    }
  }

  lemma TornReadRuns()
    ensures IsRun(Comparing(), Start(Comparing(), map[]), TORN) && End(Comparing(), Start(Comparing(), map[]), TORN) == TornWorlds()[5]
  {
    TornReadBegins();
    TornReadEnds();
    forall i | 0 <= i < 5 ensures Leads(i) { assert i == 0 || i == 1 || i == 2 || i == 3 || i == 4; }
    RunThrough(Comparing(), TornWorlds(), TORN);
  }

  lemma NeverCommits<K(!new), V(!new), R(!new), O(!new)>(jobs: seq<Job<K, V, R, O>>, w: World<K, V, R, O>, steps: seq<Step>, c: nat)
    requires c < |jobs| && |w.phases| == |jobs| && IsRun(jobs, w, steps) && !Prospects(jobs[c], w.phases[c], w.store)
    requires forall d :: 0 <= d < |jobs| && d != c ==> w.phases[d].Committed?
    ensures |End(jobs, w, steps).phases| == |jobs| && !End(jobs, w, steps).phases[c].Committed?
  {
    FailsByItself(jobs, w, steps, c);
    OthersAtRest(jobs, w, steps, c);
    if End(jobs, w, steps).phases[c].Committed? { OwnRunNeedsProspects(jobs, w, steps, c); }
  }

  ghost predicate Leads(i: nat)
    requires i < 5
  {
    Enabled(Comparing(), TornWorlds()[i], TORN[i]) && Next(Comparing(), TornWorlds()[i], TORN[i]) == TornWorlds()[i + 1]
  }

  lemma TornReadBegins()
    ensures Leads(0) && Leads(1) && Leads(2)
  {
    assert [] + [0] == [0];
    assert CompareAct([]).query(map[]) == 0;
    assert Leads(1);
  }

  lemma TornReadEnds()
    ensures Leads(3) && Leads(4)
  {
    var writes := [(false, 1), (true, 1)];
    assert [] + writes == writes && [] + [0] == [0];
    assert Leads(3);
    assert Apply(map[false := 1], [(true, 1)]) == map[false := 1, true := 1];
    assert Apply(map[], writes) == map[false := 1, true := 1] by { assert writes[1..] == [(true, 1)]; }
    assert writes[0].0 in Comparing()[0].watch * Keys(writes);
    assert Next(Comparing(), TornWorlds()[4], Exec(1)).phases == [HALF_READ.(dirty := true), Committed([0])];
    assert Leads(4);
  }

  lemma TornReadHasNoProspects()
    ensures var w := TornWorlds()[5];
      Alone(Comparing()[0].body, w.store) == Committing([1], []) && !Prospects(Comparing()[0], w.phases[0], w.store)
  {
    var f, s: map<bool, int> := Script(2, CompareAct), map[false := 1, true := 1];
    assert [] + [1] == [1] && [1] + [1] == [1, 1] && [0] + [1] == [0, 1];
    assert CompareAct([]).query(s) == 1 && CompareAct([1]).query(s) == 1 && CompareAct([0]).query(s) == 1;
    OneTurn(f, [], s);
    OneTurn(f, [1], s);
    OneTurn(f, [1, 1], s);
    OneTurn(f, [0], s);
    OneTurn(f, [0, 1], s);
  }

  /** When all others have committed, every step is the client's own. */
  lemma {:induction false} OthersAtRest<K(!new), V(!new), R(!new), O(!new)>(jobs: seq<Job<K, V, R, O>>, w: World<K, V, R, O>, steps: seq<Step>, c: nat)
    requires c < |jobs| && |w.phases| == |jobs| && IsRun(jobs, w, steps)
    requires forall d :: 0 <= d < |jobs| && d != c ==> w.phases[d].Committed?
    ensures OnlyOf(steps, c)
    decreases |steps|
  {
    if steps != [] {
      OthersAtRest(jobs, Next(jobs, w, steps[0]), steps[1..], c);
    }
  }
}
