/** Every interleaving of clients that keep to their contract is a serial history. */
module Serialisability {
  import opened Kernel

  /** A client that is not dirtied by a commit would still finish the same way. */
  lemma {:induction false} FromUnmoved<K(!new), V(!new), R(!new), O(!new)>(
      job: Job<K, V, R, O>, con: Contract<K, V>, done: nat, replies: seq<R>, outs: seq<O>, queue: seq<(K, V)>,
      s: map<K, V>, s': map<K, V>, touched: set<K>)
    requires Insulated(job, con) && done <= |job.body|
    requires con.safe(s, s', touched) && Frame(s, s', touched) && touched !! job.watch
    requires job.ready(s) && job.ready(s')
    ensures From(job.body, done, replies, outs, queue, s) == From(job.body, done, replies, outs, queue, s')
    decreases |job.body| - done, if done < |job.body| then job.body[done].asks - |replies| else 0
  {
    if done < |job.body| {
      match job.body[done].act(replies)
      case Ask(query) =>
        assert query(s) == query(s');
        if |replies| < job.body[done].asks {
          FromUnmoved(job, con, done, replies + [query(s)], outs, queue, s, s', touched);
        }
      case Commit(out, writes) =>
        FromUnmoved(job, con, done + 1, [], outs + [out], queue + writes, s, s', touched);
      case Abort(_) =>
    }
  }

  lemma TiedAfterCommit<K(!new), V(!new), R(!new), O(!new)>(
      job: Job<K, V, R, O>, con: Contract<K, V>, p: Phase<K, V, R, O>, s: map<K, V>, s': map<K, V>, touched: set<K>)
    requires Insulated(job, con) && Tied(job, p, s)
    requires con.safe(s, s', touched) && Frame(s, s', touched)
    requires p.Running? ==> job.ready(s')
    ensures Tied(job, if p.Running? && job.watch * touched != {} then p.(dirty := true) else p, s')
  {
    if p.Running? && job.watch * touched == {} {
      assert forall k :: k in touched && k in job.watch ==> k in job.watch * touched;
      FromUnmoved(job, con, p.done, p.replies, p.outs, p.queue, s, s', touched);
      FromUnmoved(job, con, 0, [], [], [], s, s', touched);
    }
  }

  lemma {:induction false} HistoryKept<K(!new), V(!new), R(!new), O(!new)>(
      jobs: seq<Job<K, V, R, O>>, con: Contract<K, V>, s0: map<K, V>, order: seq<nat>,
      phases: seq<Phase<K, V, R, O>>, phases': seq<Phase<K, V, R, O>>)
    requires |phases| == |phases'| == |jobs| && forall i :: 0 <= i < |order| ==> order[i] < |jobs|
    requires SerialHistory(jobs, con, s0, order, phases)
    requires forall d :: 0 <= d < |jobs| && d in order ==> phases'[d] == phases[d]
    ensures SerialHistory(jobs, con, s0, order, phases')
    decreases |order|
  {
    if order != [] {
      assert order[|order| - 1] in order;
      HistoryKept(jobs, con, s0, order[..|order| - 1], phases, phases');
    }
  }

  lemma MembersGrow(order: seq<nat>, c: nat)
    ensures Members(order + [c]) == Members(order) + {c}
    ensures forall d :: d in Members(order) <==> d in order
  {
    var order' := order + [c];
    assert order'[|order|] == c;
    forall i | 0 <= i < |order| ensures order[i] in Members(order') { assert order'[i] == order[i]; }
  }

  lemma HistoryAppended<K(!new), V(!new), R(!new), O(!new)>(
      jobs: seq<Job<K, V, R, O>>, con: Contract<K, V>, s0: map<K, V>, order: seq<nat>, phases: seq<Phase<K, V, R, O>>, c: nat)
    requires |phases| == |jobs| && c < |jobs| && (forall i :: 0 <= i < |order| ==> order[i] < |jobs|)
    requires SerialHistory(jobs, con, s0, order, phases) && c !in order
    requires Link(jobs, con, s0, order, c, phases[c])
    ensures SerialHistory(jobs, con, s0, order + [c], phases)
    ensures Replay(jobs, s0, order + [c]) == After(jobs[c].body, Replay(jobs, s0, order))
  {
    var order' := order + [c];
    assert order'[..|order'| - 1] == order && order'[|order'| - 1] == c;
  }

  lemma CommitExtendsHistory<K(!new), V(!new), R(!new), O(!new)>(jobs: seq<Job<K, V, R, O>>, con: Contract<K, V>, s0: map<K, V>, w: World<K, V, R, O>, w': World<K, V, R, O>, c: nat)
    requires History(jobs, con, s0, w) && c < |jobs| && c !in w.log && jobs[c].ready(w.store)
    requires UpholdsAt(jobs, con, c, w.store, Members(w.log))
    requires Alone(jobs[c].body, w.store).Committing?
    requires w'.store == After(jobs[c].body, w.store) && w'.log == w.log + [c]
    requires |w'.phases| == |jobs| && w'.phases[c] == Committed(Alone(jobs[c].body, w.store).outs)
    requires forall d :: 0 <= d < |jobs| && d != c ==> (w'.phases[d].Committed? <==> w.phases[d].Committed?) && (w.phases[d].Committed? ==> w'.phases[d] == w.phases[d])
    ensures History(jobs, con, s0, w')
  {
    MembersGrow(w.log, c);
    HistoryKept(jobs, con, s0, w.log, w.phases, w'.phases);
    NewLink(jobs, con, s0, w, c, w'.phases[c]);
    HistoryAppended(jobs, con, s0, w.log, w'.phases, c);
    CommittedLogged(w.log, c, jobs, w.phases, w'.phases);
  }

  /** The commit is linked to what the log leads to. */
  lemma NewLink<K(!new), V(!new), R(!new), O(!new)>(jobs: seq<Job<K, V, R, O>>, con: Contract<K, V>, s0: map<K, V>, w: World<K, V, R, O>, c: nat, p: Phase<K, V, R, O>)
    requires History(jobs, con, s0, w) && c < |jobs| && c !in w.log && jobs[c].ready(w.store)
    requires UpholdsAt(jobs, con, c, w.store, Members(w.log)) && Alone(jobs[c].body, w.store).Committing?
    requires p == Committed(Alone(jobs[c].body, w.store).outs)
    ensures Link(jobs, con, s0, w.log, c, p)
    ensures con.good(After(jobs[c].body, w.store), Members(w.log + [c]))
  {
    MembersGrow(w.log, c);
  }

  lemma CommittedLogged<K(!new), V(!new), R(!new), O(!new)>(log: seq<nat>, c: nat, jobs: seq<Job<K, V, R, O>>, phases: seq<Phase<K, V, R, O>>, phases': seq<Phase<K, V, R, O>>)
    requires |phases| == |phases'| == |jobs| && c < |jobs| && phases'[c].Committed?
    requires forall d :: 0 <= d < |jobs| ==> (phases[d].Committed? <==> d in log)
    requires forall d :: 0 <= d < |jobs| && d != c ==> (phases'[d].Committed? <==> phases[d].Committed?)
    ensures forall d :: 0 <= d < |jobs| ==> (phases'[d].Committed? <==> d in log + [c])
  {
    forall d | 0 <= d < |jobs| ensures phases'[d].Committed? <==> d in log + [c] {
      assert d in log + [c] <==> d in log || d == c;
    }
  }

  lemma CommitKeepsTies<K(!new), V(!new), R(!new), O(!new)>(jobs: seq<Job<K, V, R, O>>, con: Contract<K, V>, w: World<K, V, R, O>, c: nat, d: nat)
    requires Enabled(jobs, w, Exec(c)) && !w.phases[c].dirty && d < |jobs|
    requires Insulated(jobs[d], con) && Tied(jobs[d], w.phases[d], w.store)
    requires con.safe(w.store, Apply(w.store, w.phases[c].queue), Keys(w.phases[c].queue))
    requires d != c && w.phases[d].Running? ==> jobs[d].ready(Apply(w.store, w.phases[c].queue))
    ensures Tied(jobs[d], Next(jobs, w, Exec(c)).phases[d], Next(jobs, w, Exec(c)).store)
  {
    if d != c {
      ApplyFrames(w.store, w.phases[c].queue);
      TiedAfterCommit(jobs[d], con, w.phases[d], w.store, Apply(w.store, w.phases[c].queue), Keys(w.phases[c].queue));
    }
  }

  lemma CommitPreserves<K(!new), V(!new), R(!new), O(!new)>(jobs: seq<Job<K, V, R, O>>, con: Contract<K, V>, s0: map<K, V>, w: World<K, V, R, O>, c: nat)
    requires Sound(jobs, con) && Inv(jobs, con, s0, w) && Enabled(jobs, w, Exec(c)) && !w.phases[c].dirty
    ensures Inv(jobs, con, s0, Next(jobs, w, Exec(c)))
  {
    var p := w.phases[c];
    assert Tied(jobs[c], p, w.store);
    assert Upholds(jobs, con, c);
    assert UpholdsAt(jobs, con, c, w.store, Members(w.log));
    MembersGrow(w.log, c);
    assert c !in w.log;
    assert After(jobs[c].body, w.store) == Apply(w.store, p.queue);
    CommitExtendsHistory(jobs, con, s0, w, Next(jobs, w, Exec(c)), c);
    forall d | 0 <= d < |jobs| ensures Tied(jobs[d], Next(jobs, w, Exec(c)).phases[d], Next(jobs, w, Exec(c)).store) {
      assert Tied(jobs[d], w.phases[d], w.store);
      assert w.phases[d].Running? ==> d !in w.log;
      CommitKeepsTies(jobs, con, w, c, d);
    }
  }

  lemma OwnStepKeepsTie<K(!new), V(!new), R(!new), O(!new)>(jobs: seq<Job<K, V, R, O>>, w: World<K, V, R, O>, step: Step)
    requires Enabled(jobs, w, step) && (step.Exec? ==> w.phases[step.c].dirty) && Tied(jobs[step.c], w.phases[step.c], w.store)
    ensures var w' := Next(jobs, w, step);
      && w'.store == w.store && w'.log == w.log && |w'.phases| == |w.phases|
      && Tied(jobs[step.c], w'.phases[step.c], w.store)
      && !w.phases[step.c].Committed? && !w'.phases[step.c].Committed?
      && forall d :: 0 <= d < |jobs| && d != step.c ==> w'.phases[d] == w.phases[d]
  {
  }

  lemma Preserved<K(!new), V(!new), R(!new), O(!new)>(jobs: seq<Job<K, V, R, O>>, con: Contract<K, V>, s0: map<K, V>, w: World<K, V, R, O>, step: Step)
    requires Sound(jobs, con) && Inv(jobs, con, s0, w) && Enabled(jobs, w, step)
    ensures Inv(jobs, con, s0, Next(jobs, w, step))
  {
    if step.Exec? && !w.phases[step.c].dirty {
      CommitPreserves(jobs, con, s0, w, step.c);
    } else {
      var w' := Next(jobs, w, step);
      OwnStepKeepsTie(jobs, w, step);
      HistoryKept(jobs, con, s0, w.log, w.phases, w'.phases);
    }
  }

  lemma {:induction false} RunsKeepInv<K(!new), V(!new), R(!new), O(!new)>(jobs: seq<Job<K, V, R, O>>, con: Contract<K, V>, s0: map<K, V>, w: World<K, V, R, O>, steps: seq<Step>)
    requires Sound(jobs, con) && Inv(jobs, con, s0, w) && IsRun(jobs, w, steps)
    ensures Inv(jobs, con, s0, End(jobs, w, steps))
    decreases |steps|
  {
    if steps != [] {
      Preserved(jobs, con, s0, w, steps[0]);
      RunsKeepInv(jobs, con, s0, Next(jobs, w, steps[0]), steps[1..]);
    }
  }

  /** Serialisability of optimistic Execute: after any interleaving, the store is what the committed
      jobs leave when run one at a time in EXEC order, each caller that was told "committed" got
      the output of that serial execution, and jobs that failed, gave up or are still running have
      written nothing. */
  lemma Serialisable<K(!new), V(!new), R(!new), O(!new)>(jobs: seq<Job<K, V, R, O>>, con: Contract<K, V>, s0: map<K, V>, steps: seq<Step>)
    requires Sound(jobs, con) && con.good(s0, {}) && IsRun(jobs, Start(jobs, s0), steps)
    ensures History(jobs, con, s0, End(jobs, Start(jobs, s0), steps))
  {
    assert Members([]) == {};
    RunsKeepInv(jobs, con, s0, Start(jobs, s0), steps);
  }

  /** The case the documentation of Execute promises: when every answer a business function can get
      depends on watched keys only, nothing more is asked of anyone. */
  ghost predicate ReadsWatched<K(!new), V(!new), R(!new), O(!new)>(body: seq<Script<K, V, R, O>>, watch: set<K>) {
    forall i, replies, s, s', touched ::
      && 0 <= i < |body| && body[i].act(replies).Ask?
      && Frame(s, s', touched) && touched !! watch
      ==> body[i].act(replies).query(s) == body[i].act(replies).query(s')
  }

  ghost function Anything<K, V>(): Contract<K, V> { Contract((_, _) => true, (_, _, _) => true) }

  lemma WatchedReadsSerialise<K(!new), V(!new), R(!new), O(!new)>(jobs: seq<Job<K, V, R, O>>, s0: map<K, V>, steps: seq<Step>)
    requires forall c :: 0 <= c < |jobs| ==> ReadsWatched(jobs[c].body, jobs[c].watch) && jobs[c].ready == (_ => true)
    requires IsRun(jobs, Start(jobs, s0), steps)
    ensures History(jobs, Anything(), s0, End(jobs, Start(jobs, s0), steps))
  {
    forall c | 0 <= c < |jobs| ensures Insulated(jobs[c], Anything()) && Upholds(jobs, Anything(), c) {
      assert ReadsWatched(jobs[c].body, jobs[c].watch);
      forall s, done ensures UpholdsAt(jobs, Anything(), c, s, done) { }
    }
    Serialisable(jobs, Anything(), s0, steps);
  }

  /** Whatever every safe change keeps, every run keeps. */
  lemma {:induction false} RunsKeepStable<K(!new), V(!new), R(!new), O(!new)>(
      jobs: seq<Job<K, V, R, O>>, con: Contract<K, V>, s0: map<K, V>, w: World<K, V, R, O>, steps: seq<Step>, kept: map<K, V> -> bool)
    requires Sound(jobs, con) && Inv(jobs, con, s0, w) && IsRun(jobs, w, steps) && kept(w.store)
    requires forall s, s', touched :: con.safe(s, s', touched) && kept(s) ==> kept(s')
    ensures kept(End(jobs, w, steps).store)
    decreases |steps|
  {
    if steps != [] {
      var c, w' := steps[0].c, Next(jobs, w, steps[0]);
      Preserved(jobs, con, s0, w, steps[0]);
      assert Tied(jobs[c], w.phases[c], w.store);
      if w'.store != w.store {
        assert Upholds(jobs, con, c);
        assert UpholdsAt(jobs, con, c, w.store, Members(w.log));
        MembersGrow(w.log, c);
        assert con.safe(w.store, w'.store, Keys(w.phases[c].queue));
      }
      RunsKeepStable(jobs, con, s0, w', steps[1..], kept);
    }
  }
}
