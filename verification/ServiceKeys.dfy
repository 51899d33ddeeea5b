/** Any number of service instances boot at once and make sure there is an encryption key. */
module ServiceKeys {
  import opened Wrappers
  import opened Kernel
  import opened Serialisability
  import opened Serial
  import opened Retries

  datatype Key = ServiceKeyOf(name: string) | Other(name: string)

  datatype Value = ServiceKey(bytes: nat) | Garbage

  type Store = map<Key, Value>

  function Get(s: Store, k: Key): Option<Value> { if k in s then Some(s[k]) else None }

  /** getServiceKey: the key, or why there is none. */
  function GetServiceKey(s: Store, k: Key): Result<nat> {
    match Get(s, k)
    case None => Err("key not found")
    case Some(Garbage) => Err("could not unmarshal service key")
    case Some(ServiceKey(bytes)) => Ok(bytes)
  }

  /** ensureEncryptionKeyExists: create the key only if it is not there. */
  function EnsureAct(k: Key, generated: nat, replies: seq<Result<nat>>): Action<Key, Value, Result<nat>, ()> {
    if |replies| == 0 then Ask(s => GetServiceKey(s, k))
    else match replies[0]
      case Ok(_) => Commit((), [])
      case Err(err) => if err == "key not found" then Commit((), [(k, ServiceKey(generated))]) else Abort(err)
  }

  function Ensure(k: Key, generated: nat): Script<Key, Value, Result<nat>, ()> {
    Script(1, replies => EnsureAct(k, generated, replies))
  }

  function Boots(k: Key, generated: seq<nat>): seq<Job<Key, Value, Result<nat>, ()>> {
    seq(|generated|, i requires 0 <= i < |generated| => Job([Ensure(k, generated[i])], {k}, _ => true))
  }

  lemma EnsureDecides(s: Store, k: Key, generated: nat)
    ensures Alone([Ensure(k, generated)], s) ==
            match GetServiceKey(s, k)
            case Ok(_) => Committing([()], [])
            case Err(err) => if err == "key not found" then Committing([()], [(k, ServiceKey(generated))]) else Aborting(err)
  {
    var b := [Ensure(k, generated)];
    var reply := GetServiceKey(s, k);
    assert [] + [reply] == [reply];
    assert From(b, 0, [], [], [], s) == From(b, 0, [reply], [], [], s);
    if reply.Ok? {
      assert From(b, 0, [reply], [], [], s) == From(b, 1, [], [()], [], s);
    } else if reply.err == "key not found" {
      assert From(b, 0, [reply], [], [], s) == From(b, 1, [], [()], [(k, ServiceKey(generated))], s);
    }
  }

  lemma AfterEnsure(s: Store, k: Key, generated: nat)
    ensures After([Ensure(k, generated)], s) == if k in s then s else s[k := ServiceKey(generated)]
    ensures Alone([Ensure(k, generated)], s).Committing? <==> Get(s, k) != Some(Garbage)
  {
    EnsureDecides(s, k, generated);
    var w := (k, ServiceKey(generated));
    ApplyFew(s, w, w, w, w);
  }

  /** A key, once there, is frozen with everything else. */
  ghost function Terms(k: Key): Contract<Key, Value> {
    Contract((_, _) => true, (s: Store, s': Store, _) => k in s ==> s' == s)
  }

  lemma BootsSound(k: Key, generated: seq<nat>)
    ensures Sound(Boots(k, generated), Terms(k))
  {
    var jobs, con := Boots(k, generated), Terms(k);
    forall c | 0 <= c < |jobs| ensures Insulated(jobs[c], con) && Upholds(jobs, con, c) {
      forall i, replies, s, s', touched |
        && 0 <= i < |jobs[c].body| && jobs[c].body[i].act(replies).Ask? && Frame(s, s', touched) && touched !! jobs[c].watch
        ensures jobs[c].body[i].act(replies).query(s) == jobs[c].body[i].act(replies).query(s')
      {
        assert k in jobs[c].watch && k !in touched;
      }
      forall s, done ensures UpholdsAt(jobs, con, c, s, done) { AfterEnsure(s, k, generated[c]); }
    }
  }

  ghost predicate Reaches(k: Key, generated: seq<nat>, s0: Store, steps: seq<Step>, w: World<Key, Value, Result<nat>, ()>) {
    IsRun(Boots(k, generated), Start(Boots(k, generated), s0), steps) && w == End(Boots(k, generated), Start(Boots(k, generated), s0), steps)
  }

  lemma {:induction false} ReplayKeepsFirst(k: Key, generated: seq<nat>, s0: Store, order: seq<nat>)
    requires forall i :: 0 <= i < |order| ==> order[i] < |generated|
    ensures Replay(Boots(k, generated), s0, order) ==
            if k in s0 || order == [] then s0 else s0[k := ServiceKey(generated[order[0]])]
    decreases |order|
  {
    if order != [] {
      var before, c := order[..|order| - 1], order[|order| - 1];
      ReplayKeepsFirst(k, generated, s0, before);
      AfterEnsure(Replay(Boots(k, generated), s0, before), k, generated[c]);
    }
  }

  /** Boots on a store without the key commit exactly one, that of the first to commit, and nothing
      else; every boot that has succeeded reads that one. */
  lemma OneServiceKey(k: Key, generated: seq<nat>, s0: Store, steps: seq<Step>, w: World<Key, Value, Result<nat>, ()>)
    requires Reaches(k, generated, s0, steps, w) && k !in s0
    ensures forall i :: 0 <= i < |w.log| ==> w.log[i] < |generated|
    ensures w.store == if w.log == [] then s0 else s0[k := ServiceKey(generated[w.log[0]])]
    ensures |w.phases| == |generated|
    ensures forall c :: 0 <= c < |generated| && w.phases[c].Committed? ==> w.log != [] && GetServiceKey(w.store, k) == Ok(generated[w.log[0]])
  {
    BootsSound(k, generated);
    Serialisable(Boots(k, generated), Terms(k), s0, steps);
    ReplayKeepsFirst(k, generated, s0, w.log);
  }

  /** No later boot changes a key that is there. */
  lemma ServiceKeyStays(k: Key, generated: seq<nat>, s0: Store, steps: seq<Step>, w: World<Key, Value, Result<nat>, ()>, more: seq<Step>)
    requires Reaches(k, generated, s0, steps, w) && k in w.store && IsRun(Boots(k, generated), w, more)
    ensures End(Boots(k, generated), w, more).store == w.store
  {
    var jobs, con := Boots(k, generated), Terms(k);
    BootsSound(k, generated);
    assert Members([]) == {};
    RunsKeepInv(jobs, con, s0, Start(jobs, s0), steps);
    RunsKeepStable(jobs, con, s0, w, more, (s: Store) => s == w.store);
  }

  // ---- Boots that lose the race ----

  /** A boot has read a key or that there is none, and queues at most a key. */
  ghost predicate BootPhase(k: Key, p: Phase<Key, Value, Result<nat>, ()>) {
    p.Running? ==>
      && p.done <= 1 && |p.replies| <= 1 && (p.replies != [] ==> p.replies[0].Ok? || p.replies[0].err == "key not found")
      && (p.queue == [] || exists n :: p.queue == [(k, ServiceKey(n))])
      && (p.done == 0 ==> p.queue == [])
  }

  ghost predicate BootInv(k: Key, generated: seq<nat>, w: World<Key, Value, Result<nat>, ()>) {
    && |w.phases| == |generated| && Get(w.store, k) != Some(Garbage)
    && forall c :: 0 <= c < |generated| ==> BootPhase(k, w.phases[c])
  }

  lemma BootStep(k: Key, generated: seq<nat>, w: World<Key, Value, Result<nat>, ()>, step: Step, c: nat)
    requires BootInv(k, generated, w) && Enabled(Boots(k, generated), w, step) && c < |generated|
    ensures BootInv(k, generated, Next(Boots(k, generated), w, step))
    ensures FailsAt(Boots(k, generated), w, step, c) ==> step == GiveUp(c)
  {
    var p := w.phases[step.c];
    assert BootPhase(k, p);
    match step
    case Advance(_) => BootAdvances(k, generated[step.c], p, w.store);
    case Exec(_) =>
      if p.queue != [] {
        var n :| p.queue == [(k, ServiceKey(n))];
        var write := (k, ServiceKey(n));
        ApplyFew(w.store, write, write, write, write);
      }
    case _ =>
  }

  lemma BootAdvances(k: Key, generated: nat, p: Phase<Key, Value, Result<nat>, ()>, s: Store)
    requires BootPhase(k, p) && p.Running? && p.done == 0 && Get(s, k) != Some(Garbage)
    ensures
      var action := EnsureAct(k, generated, p.replies);
      && (action.Ask? ==> |p.replies| == 0 && BootPhase(k, p.(replies := p.replies + [action.query(s)])))
      && (action.Commit? ==> BootPhase(k, p.(done := p.done + 1, replies := [], outs := p.outs + [action.out], queue := p.queue + action.writes)))
      && !action.Abort?
  {
    if p.replies != [] && p.replies[0].Err? {
      assert [] + [(k, ServiceKey(generated))] == [(k, ServiceKey(generated))];
    }
  }

  lemma {:induction false} BootsFailByGivingUp(k: Key, generated: seq<nat>, w: World<Key, Value, Result<nat>, ()>, steps: seq<Step>, c: nat)
    requires BootInv(k, generated, w) && IsRun(Boots(k, generated), w, steps) && c < |generated|
    ensures EverFails(Boots(k, generated), w, steps, c) ==> GiveUp(c) in steps
    ensures BootInv(k, generated, End(Boots(k, generated), w, steps))
    decreases |steps|
  {
    if steps != [] {
      BootStep(k, generated, w, steps[0], c);
      BootsFailByGivingUp(k, generated, Next(Boots(k, generated), w, steps[0]), steps[1..], c);
    }
  }

  /** Where no key is garbage, a boot fails only by giving up; and as long as it has not, it can go on by
      itself to commit, however often it has lost the race. */
  lemma BootsGoOn(k: Key, generated: seq<nat>, s0: Store, steps: seq<Step>, w: World<Key, Value, Result<nat>, ()>, c: nat)
    requires Reaches(k, generated, s0, steps, w) && Get(s0, k) != Some(Garbage) && c < |generated| && GiveUp(c) !in steps
    ensures |w.phases| == |generated| && !w.phases[c].Failed?
    ensures exists more :: CommitsByItself(Boots(k, generated), w, more, c)
  {
    var jobs := Boots(k, generated);
    BootsFailByGivingUp(k, generated, Start(jobs, s0), steps, c);
    FailsByItself(jobs, Start(jobs, s0), steps, c);
    BootsSound(k, generated);
    assert Members([]) == {};
    RunsKeepInv(jobs, Terms(k), s0, Start(jobs, s0), steps);
    AfterEnsure(w.store, k, generated[c]);
    BootHasProspects(k, generated[c], w.phases[c], w.store);
    ProspectsDecide(jobs, Terms(k), s0, w, c);
  }

  lemma BootHasProspects(k: Key, generated: nat, p: Phase<Key, Value, Result<nat>, ()>, s: Store)
    requires BootPhase(k, p) && !p.Failed? && Get(s, k) != Some(Garbage)
    ensures Prospects(Job([Ensure(k, generated)], {k}, _ => true), p, s)
  {
    var body := [Ensure(k, generated)];
    AfterEnsure(s, k, generated);
    if p.Running? && p.done == 0 {
      var reply := GetServiceKey(s, k);
      assert [] + [reply] == [reply];
      var replies := if p.replies == [] then [reply] else p.replies;
      assert From(body, 0, p.replies, p.outs, p.queue, s) == From(body, 0, replies, p.outs, p.queue, s);
      var commit := EnsureAct(k, generated, replies);
      assert commit.Commit? && body[0].act(replies) == commit;
      assert From(body, 0, replies, p.outs, p.queue, s) == From(body, 1, [], p.outs + [commit.out], p.queue + commit.writes, s);
    }
  }
}
