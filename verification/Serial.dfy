/** The converse of serialisability: serial executions are runs of the interleaved machine. */
module Serial {
  import opened Kernel

  lemma {:induction false} RunConcat<K(!new), V(!new), R(!new), O(!new)>(jobs: seq<Job<K, V, R, O>>, w: World<K, V, R, O>, a: seq<Step>, b: seq<Step>)
    requires IsRun(jobs, w, a) && IsRun(jobs, End(jobs, w, a), b)
    ensures IsRun(jobs, w, a + b) && End(jobs, w, a + b) == End(jobs, End(jobs, w, a), b)
    decreases |a|
  {
    if a == [] {
      assert a + b == b;
    } else {
      assert (a + b)[1..] == a[1..] + b;
      RunConcat(jobs, Next(jobs, w, a[0]), a[1..], b);
    }
  }

  /** A run, world by world. */
  lemma {:induction false} RunThrough<K(!new), V(!new), R(!new), O(!new)>(jobs: seq<Job<K, V, R, O>>, worlds: seq<World<K, V, R, O>>, steps: seq<Step>)
    requires |worlds| == |steps| + 1
    requires forall i :: 0 <= i < |steps| ==> Enabled(jobs, worlds[i], steps[i]) && Next(jobs, worlds[i], steps[i]) == worlds[i + 1]
    ensures IsRun(jobs, worlds[0], steps) && End(jobs, worlds[0], steps) == worlds[|steps|]
    decreases |steps|
  {
    if steps != [] {
      RunThrough(jobs, worlds[1..], steps[1..]);
    }
  }

  /** The commit of a client, and its notification of the others. */
  ghost predicate Commits<K(!new), V(!new), R(!new), O(!new)>(jobs: seq<Job<K, V, R, O>>, w: World<K, V, R, O>, c: nat, w': World<K, V, R, O>) {
    && |w.phases| == |jobs| && c < |jobs|
    && var alone := Alone(jobs[c].body, w.store);
       alone.Committing?
       && w' == World(Apply(w.store, alone.writes), Notify(jobs, w.phases[c := Committed(alone.outs)], Keys(alone.writes)), w.log + [c])
  }

  predicate OnlyOf(steps: seq<Step>, c: nat) { forall i :: 0 <= i < |steps| ==> steps[i].c == c }

  /** A running client that nobody disturbs goes on to commit. */
  lemma {:induction false} FinishesAlone<K(!new), V(!new), R(!new), O(!new)>(jobs: seq<Job<K, V, R, O>>, w: World<K, V, R, O>, c: nat) returns (steps: seq<Step>)
    requires |w.phases| == |jobs| && c < |jobs| && w.phases[c].Running? && !w.phases[c].dirty && w.phases[c].done <= |jobs[c].body|
    requires Alone(jobs[c].body, w.store).Committing?
    requires var p := w.phases[c]; From(jobs[c].body, p.done, p.replies, p.outs, p.queue, w.store) == Alone(jobs[c].body, w.store)
    ensures IsRun(jobs, w, steps) && OnlyOf(steps, c) && Commits(jobs, w, c, End(jobs, w, steps))
    decreases |jobs[c].body| - w.phases[c].done, if w.phases[c].done < |jobs[c].body| then jobs[c].body[w.phases[c].done].asks - |w.phases[c].replies| else 0
  {
    if w.phases[c].done == |jobs[c].body| {
      steps := [Exec(c)];
      assert w.phases[c := Committed(w.phases[c].outs)] == w.phases[c := Committed(Alone(jobs[c].body, w.store).outs)];
    } else {
      var w' := Next(jobs, w, Advance(c));
      var rest := FinishesAlone(jobs, w', c);
      steps := [Advance(c)] + rest;
      assert steps[1..] == rest;
      var done := Committed(Alone(jobs[c].body, w.store).outs);
      assert w'.phases[c := done] == w.phases[c := done];
    }
  }

  /** A client that is ready to start, and would commit alone, has a run in which it does just that. */
  lemma RunsAlone<K(!new), V(!new), R(!new), O(!new)>(jobs: seq<Job<K, V, R, O>>, w: World<K, V, R, O>, c: nat) returns (steps: seq<Step>)
    requires |w.phases| == |jobs| && c < |jobs| && w.phases[c].Ready? && jobs[c].ready(w.store)
    requires Alone(jobs[c].body, w.store).Committing?
    ensures IsRun(jobs, w, steps) && OnlyOf(steps, c) && Watch(c) in steps && Commits(jobs, w, c, End(jobs, w, steps))
  {
    var w' := Next(jobs, w, Watch(c));
    var rest := FinishesAlone(jobs, w', c);
    steps := [Watch(c)] + rest;
    assert steps[1..] == rest;
    var done := Committed(Alone(jobs[c].body, w.store).outs);
    assert w'.phases[c := done] == w.phases[c := done];
  }

  /** The clients of `order` can be run one after the other from s0: each is then ready and commits. */
  ghost predicate Runnable<K(!new), V(!new), R(!new), O(!new)>(jobs: seq<Job<K, V, R, O>>, s0: map<K, V>, order: seq<nat>)
    decreases |order|
  {
    order == [] ||
    var before, c := order[..|order| - 1], order[|order| - 1];
    && Runnable(jobs, s0, before)
    && (forall i :: 0 <= i < |order| ==> order[i] < |jobs|) && c !in before
    && jobs[c].ready(Replay(jobs, s0, before)) && Alone(jobs[c].body, Replay(jobs, s0, before)).Committing?
  }

  function UpTo(n: nat): seq<nat> { seq(n, i => i) }

  /** The first clients run in their order, through the stores given. */
  lemma {:induction false} RunnableInOrder<K(!new), V(!new), R(!new), O(!new)>(jobs: seq<Job<K, V, R, O>>, stores: seq<map<K, V>>)
    requires 0 < |stores| <= |jobs| + 1
    requires forall i :: 0 <= i < |stores| - 1 ==>
      jobs[i].ready(stores[i]) && Alone(jobs[i].body, stores[i]).Committing? && stores[i + 1] == After(jobs[i].body, stores[i])
    ensures Runnable(jobs, stores[0], UpTo(|stores| - 1)) && Replay(jobs, stores[0], UpTo(|stores| - 1)) == stores[|stores| - 1]
    decreases |stores|
  {
    if |stores| > 1 {
      var n := |stores| - 2;
      RunnableInOrder(jobs, stores[..n + 1]);
      assert UpTo(n + 1)[..n] == UpTo(n);
    }
  }

  /** Whoever is still to start, or watches nothing, and is not among those of `order`, is as before. */
  ghost predicate OthersStay<K(!new), V(!new), R(!new), O(!new)>(jobs: seq<Job<K, V, R, O>>, w: World<K, V, R, O>, order: seq<nat>, w': World<K, V, R, O>) {
    && |w.phases| == |w'.phases| == |jobs|
    && forall d :: 0 <= d < |jobs| && d !in order && (w.phases[d].Ready? || jobs[d].watch == {}) ==> w'.phases[d] == w.phases[d]
  }

  lemma OthersStayOn<K(!new), V(!new), R(!new), O(!new)>(
      jobs: seq<Job<K, V, R, O>>, w: World<K, V, R, O>, before: seq<nat>, mid: World<K, V, R, O>, c: nat, w': World<K, V, R, O>)
    requires OthersStay(jobs, w, before, mid) && Commits(jobs, mid, c, w')
    ensures OthersStay(jobs, w, before + [c], w')
    ensures w'.store == After(jobs[c].body, mid.store) && w'.log == mid.log + [c]
  {
    forall d | 0 <= d < |jobs| && d !in before + [c] && (w.phases[d].Ready? || jobs[d].watch == {}) ensures w'.phases[d] == w.phases[d] {
      assert d !in before && d != c by { assert (before + [c])[|before|] == c; }
      assert mid.phases[d] == w.phases[d];
    }
  }

  /** The steps run the clients of `order` in turn, and leave the others alone. */
  ghost predicate InTurn<K(!new), V(!new), R(!new), O(!new)>(jobs: seq<Job<K, V, R, O>>, w: World<K, V, R, O>, order: seq<nat>, steps: seq<Step>) {
    && (forall i :: 0 <= i < |order| ==> order[i] < |jobs|)
    && IsRun(jobs, w, steps)
    && var w' := End(jobs, w, steps);
       w'.log == w.log + order && w'.store == Replay(jobs, w.store, order) && OthersStay(jobs, w, order, w')
  }

  lemma OneMoreTurn<K(!new), V(!new), R(!new), O(!new)>(jobs: seq<Job<K, V, R, O>>, w: World<K, V, R, O>, before: seq<nat>, first: seq<Step>, c: nat) returns (steps: seq<Step>)
    requires InTurn(jobs, w, before, first) && c < |jobs| && c !in before && w.phases[c].Ready?
    requires jobs[c].ready(Replay(jobs, w.store, before)) && Alone(jobs[c].body, Replay(jobs, w.store, before)).Committing?
    ensures InTurn(jobs, w, before + [c], steps)
  {
    var mid := End(jobs, w, first);
    assert mid.phases[c] == w.phases[c];
    var last := RunsAlone(jobs, mid, c);
    RunConcat(jobs, w, first, last);
    steps := first + last;
    OthersStayOn(jobs, w, before, mid, c, End(jobs, mid, last));
    assert (before + [c])[..|before|] == before;
  }

  /** From any world in which they are still to start, such clients can run in turn; nobody else who is
      still to start, or watches nothing, notices. */
  lemma {:induction false} RunsInTurn<K(!new), V(!new), R(!new), O(!new)>(jobs: seq<Job<K, V, R, O>>, w: World<K, V, R, O>, order: seq<nat>) returns (steps: seq<Step>)
    requires |w.phases| == |jobs| && Runnable(jobs, w.store, order)
    requires forall i :: 0 <= i < |order| && order[i] < |jobs| ==> w.phases[order[i]].Ready?
    ensures InTurn(jobs, w, order, steps)
    decreases |order|
  {
    if order == [] {
      steps := [];
    } else {
      var before, c := order[..|order| - 1], order[|order| - 1];
      var first := RunsInTurn(jobs, w, before);
      steps := OneMoreTurn(jobs, w, before, first, c);
      assert before + [c] == order;
    }
  }

  /** Every serial execution is an interleaving: the machine admits all that serialisability allows. */
  lemma SerialRuns<K(!new), V(!new), R(!new), O(!new)>(jobs: seq<Job<K, V, R, O>>, s0: map<K, V>, order: seq<nat>) returns (steps: seq<Step>)
    requires Runnable(jobs, s0, order)
    ensures forall i :: 0 <= i < |order| ==> order[i] < |jobs|
    ensures IsRun(jobs, Start(jobs, s0), steps)
    ensures var w := End(jobs, Start(jobs, s0), steps);
      && w.log == order && w.store == Replay(jobs, s0, order) && |w.phases| == |jobs|
      && forall c :: 0 <= c < |jobs| && c !in order ==> w.phases[c] == Ready(0)
  {
    var w: World<K, V, R, O> := Start(jobs, s0);
    steps := RunsInTurn(jobs, w, order);
    assert w.log + order == order;
  }

  /** A client that watches nothing can start first and finish last. */
  lemma LateRuns<K(!new), V(!new), R(!new), O(!new)>(jobs: seq<Job<K, V, R, O>>, s0: map<K, V>, order: seq<nat>, c: nat) returns (steps: seq<Step>)
    requires Runnable(jobs, s0, order) && c < |jobs| && c !in order && jobs[c].watch == {} && jobs[c].ready(s0)
    requires (forall i :: 0 <= i < |order| ==> order[i] < |jobs|) && Alone(jobs[c].body, Replay(jobs, s0, order)).Committing?
    ensures IsRun(jobs, Start(jobs, s0), steps)
    ensures var w := End(jobs, Start(jobs, s0), steps);
      w.log == order + [c] && w.store == After(jobs[c].body, Replay(jobs, s0, order))
  {
    var start: World<K, V, R, O> := Start(jobs, s0);
    var w := Next(jobs, start, Watch(c));
    var mid := RunsInTurn(jobs, w, order);
    var last := FinishesAlone(jobs, End(jobs, w, mid), c);
    RunConcat(jobs, w, mid, last);
    steps := [Watch(c)] + (mid + last);
    assert steps[1..] == mid + last;
    assert w.log + order == order;
  }
}
