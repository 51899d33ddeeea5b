/** The transactional store kernel: business functions that read the committed store and buffer
    their writes, run by clients that interleave under Redis' optimistic WATCH / MULTI / EXEC. */
module Kernel {

  /** What a business function does next, given the replies to the reads it has made so far. Reads
      go to the committed store, never to the function's own buffered writes. */
  datatype Action<!K, !V, !R, O> =
    | Ask(query: map<K, V> -> R)
    | Commit(out: O, writes: seq<(K, V)>)
    | Abort(err: string)

  /** A business function that makes at most `asks` reads. */
  datatype Script<!K, !V, !R, O> = Script(asks: nat, act: seq<R> -> Action<K, V, R, O>)

  datatype Outcome<K, V, O> =
    | Committing(outs: seq<O>, writes: seq<(K, V)>)
    | Aborting(err: string)

  /** One call of Execute: the business functions it runs in order inside one transaction (one for
      a plain call, several for a batch), its watched keys, and what the caller established by its
      own reads before the call. */
  datatype Job<!K, !V, !R, O> = Job(body: seq<Script<K, V, R, O>>, watch: set<K>, ready: map<K, V> -> bool)

  /** What the clients of one service owe each other: `good` holds of the committed store and the
      set of clients that have committed; `safe` holds of each commit and the keys it touched. */
  datatype Contract<!K, !V> = Contract(good: (map<K, V>, set<nat>) -> bool,
                                       safe: (map<K, V>, map<K, V>, set<K>) -> bool)

  function Apply<K, V>(s: map<K, V>, writes: seq<(K, V)>): map<K, V>
    decreases |writes|
  {
    if writes == [] then s else Apply(s[writes[0].0 := writes[0].1], writes[1..])
  }

  ghost function Keys<K, V>(writes: seq<(K, V)>): set<K> {
    set i | 0 <= i < |writes| :: writes[i].0
  }

  /** What is left of a body after `done` functions and some replies, all reads made in `s`. */
  ghost function From<K(!new), V(!new), R(!new), O(!new)>(
      body: seq<Script<K, V, R, O>>, done: nat, replies: seq<R>, outs: seq<O>, queue: seq<(K, V)>,
      s: map<K, V>): Outcome<K, V, O>
    requires done <= |body|
    decreases |body| - done, if done < |body| then body[done].asks - |replies| else 0
  {
    if done == |body| then Committing(outs, queue) else
    match body[done].act(replies)
    case Ask(query) =>
      if |replies| < body[done].asks then From(body, done, replies + [query(s)], outs, queue, s)
      else Aborting("too many reads")
    case Commit(out, writes) => From(body, done + 1, [], outs + [out], queue + writes, s)
    case Abort(err) => Aborting(err)
  }

  /** The body run alone on `s`, with nobody else about. */
  ghost function Alone<K(!new), V(!new), R(!new), O(!new)>(body: seq<Script<K, V, R, O>>, s: map<K, V>): Outcome<K, V, O> {
    From(body, 0, [], [], [], s)
  }

  ghost function After<K(!new), V(!new), R(!new), O(!new)>(body: seq<Script<K, V, R, O>>, s: map<K, V>): map<K, V> {
    match Alone(body, s)
    case Committing(_, writes) => Apply(s, writes)
    case Aborting(_) => s
  }

  // ---- The interleaved machine ----

  datatype Phase<K, V, R, O> =
    | Ready(attempts: nat)
    | Running(attempts: nat, done: nat, replies: seq<R>, outs: seq<O>, queue: seq<(K, V)>, dirty: bool)
    | Committed(result: seq<O>)
    | Failed(err: string)

  datatype World<K, V, R, O> = World(store: map<K, V>, phases: seq<Phase<K, V, R, O>>, log: seq<nat>)

  datatype Step = Watch(c: nat) | Advance(c: nat) | Exec(c: nat) | GiveUp(c: nat)

  ghost predicate Enabled<K(!new), V(!new), R(!new), O(!new)>(jobs: seq<Job<K, V, R, O>>, w: World<K, V, R, O>, step: Step)
  {
    && |w.phases| == |jobs|
    && step.c < |jobs|
    && var p := w.phases[step.c];
    match step
    case Watch(c) => p.Ready? && jobs[c].ready(w.store)
    case Advance(c) => p.Running? && p.done < |jobs[c].body|
    case Exec(c) => p.Running? && p.done == |jobs[c].body|
    case GiveUp(c) => p.Ready? && p.attempts > 0
  }

  /** EXEC marks every other running client one of whose watched keys it wrote. */
  ghost function Notify<K(!new), V(!new), R(!new), O(!new)>(jobs: seq<Job<K, V, R, O>>, phases: seq<Phase<K, V, R, O>>, touched: set<K>): (r: seq<Phase<K, V, R, O>>)
    requires |phases| == |jobs|
  {
    seq(|phases|, i requires 0 <= i < |phases| =>
      if phases[i].Running? && jobs[i].watch * touched != {} then phases[i].(dirty := true) else phases[i])
  }

  ghost function Next<K(!new), V(!new), R(!new), O(!new)>(jobs: seq<Job<K, V, R, O>>, w: World<K, V, R, O>, step: Step): World<K, V, R, O>
    requires Enabled(jobs, w, step)
  {
    var c := step.c;
    var p := w.phases[c];
    match step
    case Watch(_) => w.(phases := w.phases[c := Running(p.attempts, 0, [], [], [], false)])
    case Advance(_) =>
      var p' := match jobs[c].body[p.done].act(p.replies)
        case Ask(query) =>
          if |p.replies| < jobs[c].body[p.done].asks then p.(replies := p.replies + [query(w.store)])
          else Failed("too many reads")
        case Commit(out, writes) => p.(done := p.done + 1, replies := [], outs := p.outs + [out], queue := p.queue + writes)
        case Abort(err) => Failed(err);
      w.(phases := w.phases[c := p'])
    case Exec(_) =>
      if p.dirty then w.(phases := w.phases[c := Ready(p.attempts + 1)])
      else World(Apply(w.store, p.queue),
                 Notify(jobs, w.phases[c := Committed(p.outs)], Keys(p.queue)),
                 w.log + [c])
    case GiveUp(_) => w.(phases := w.phases[c := Failed("failed to execute after retrying")])
  }

  ghost predicate IsRun<K(!new), V(!new), R(!new), O(!new)>(jobs: seq<Job<K, V, R, O>>, w: World<K, V, R, O>, steps: seq<Step>)
    decreases |steps|
  {
    steps == [] || (Enabled(jobs, w, steps[0]) && IsRun(jobs, Next(jobs, w, steps[0]), steps[1..]))
  }

  ghost function End<K(!new), V(!new), R(!new), O(!new)>(jobs: seq<Job<K, V, R, O>>, w: World<K, V, R, O>, steps: seq<Step>): World<K, V, R, O>
    requires IsRun(jobs, w, steps)
    decreases |steps|
  {
    if steps == [] then w else End(jobs, Next(jobs, w, steps[0]), steps[1..])
  }

  ghost function Start<K, V, R, O>(jobs: seq<Job<K, V, R, O>>, s: map<K, V>): World<K, V, R, O> {
    World(s, seq(|jobs|, _ => Ready(0)), [])
  }

  // ---- What the clients owe each other ----

  ghost predicate Frame<K(!new), V>(s: map<K, V>, s': map<K, V>, touched: set<K>) {
    forall k :: k !in touched ==> (k in s <==> k in s') && (k in s ==> s[k] == s'[k])
  }

  /** No read of the job can tell apart two stores that differ by another client's commit, as long
      as that commit touched none of the job's watched keys. The keys a read inspects need not be
      watched: it is enough that commits which change its answer also touch a watched key. */
  ghost predicate Insulated<K(!new), V(!new), R(!new), O(!new)>(job: Job<K, V, R, O>, con: Contract<K, V>) {
    forall i, replies, s, s', touched ::
      && 0 <= i < |job.body| && job.body[i].act(replies).Ask?
      && con.safe(s, s', touched) && Frame(s, s', touched) && touched !! job.watch
      && job.ready(s) && job.ready(s')
      ==> job.body[i].act(replies).query(s) == job.body[i].act(replies).query(s')
  }

  /** Run alone on a good store, a job leaves a good store, keeps what every client that has not
      committed yet relies on, and makes a safe change. */
  ghost predicate UpholdsAt<K(!new), V(!new), R(!new), O(!new)>(jobs: seq<Job<K, V, R, O>>, con: Contract<K, V>, c: nat, s: map<K, V>, done: set<nat>)
    requires c < |jobs|
  {
    var alone := Alone(jobs[c].body, s);
    con.good(s, done) && c !in done && jobs[c].ready(s) && alone.Committing? ==>
      var s' := Apply(s, alone.writes);
      && con.good(s', done + {c})
      && con.safe(s, s', Keys(alone.writes))
      && forall d :: 0 <= d < |jobs| && d !in done && d != c && jobs[d].ready(s) ==> jobs[d].ready(s')
  }

  ghost predicate Upholds<K(!new), V(!new), R(!new), O(!new)>(jobs: seq<Job<K, V, R, O>>, con: Contract<K, V>, c: nat)
    requires c < |jobs|
  {
    forall s, done :: UpholdsAt(jobs, con, c, s, done)
  }

  ghost predicate Sound<K(!new), V(!new), R(!new), O(!new)>(jobs: seq<Job<K, V, R, O>>, con: Contract<K, V>) {
    forall c :: 0 <= c < |jobs| ==> Insulated(jobs[c], con) && Upholds(jobs, con, c)
  }

  // ---- Serialisability ----

  /** The jobs of `order` run one at a time, each alone. */
  ghost function Replay<K(!new), V(!new), R(!new), O(!new)>(jobs: seq<Job<K, V, R, O>>, s: map<K, V>, order: seq<nat>): map<K, V>
    requires forall i :: 0 <= i < |order| ==> order[i] < |jobs|
    decreases |order|
  {
    if order == [] then s
    else After(jobs[order[|order| - 1]].body, Replay(jobs, s, order[..|order| - 1]))
  }

  ghost function Members(log: seq<nat>): set<nat> { set i | 0 <= i < |log| :: log[i] }

  /** Run alone on what the jobs of `before` leave, job c commits with exactly the output its caller
      was given, from a good store and by a safe change. */
  ghost predicate Link<K(!new), V(!new), R(!new), O(!new)>(jobs: seq<Job<K, V, R, O>>, con: Contract<K, V>, s0: map<K, V>, before: seq<nat>, c: nat, p: Phase<K, V, R, O>)
    requires (forall i :: 0 <= i < |before| ==> before[i] < |jobs|) && c < |jobs|
  {
    var s := Replay(jobs, s0, before);
    var alone := Alone(jobs[c].body, s);
    && con.good(s, Members(before))
    && jobs[c].ready(s)
    && alone.Committing?
    && p == Committed(alone.outs)
    && con.safe(s, After(jobs[c].body, s), Keys(alone.writes))
  }

  /** `order` is a serial history: no job occurs twice, and every one is linked to what the earlier
      ones left. */
  ghost predicate SerialHistory<K(!new), V(!new), R(!new), O(!new)>(jobs: seq<Job<K, V, R, O>>, con: Contract<K, V>, s0: map<K, V>, order: seq<nat>, phases: seq<Phase<K, V, R, O>>)
    requires |phases| == |jobs| && forall i :: 0 <= i < |order| ==> order[i] < |jobs|
    decreases |order|
  {
    order == [] ||
    var before, c := order[..|order| - 1], order[|order| - 1];
    c !in before && Link(jobs, con, s0, before, c, phases[c]) && SerialHistory(jobs, con, s0, before, phases)
  }

  /** The tie between a running client and the same body run alone now. */
  ghost predicate Tied<K(!new), V(!new), R(!new), O(!new)>(job: Job<K, V, R, O>, p: Phase<K, V, R, O>, s: map<K, V>) {
    p.Running? ==>
      && p.done <= |job.body|
      && job.ready(s)
      && (!p.dirty ==> From(job.body, p.done, p.replies, p.outs, p.queue, s) == Alone(job.body, s))
  }

  ghost predicate Inv<K(!new), V(!new), R(!new), O(!new)>(jobs: seq<Job<K, V, R, O>>, con: Contract<K, V>, s0: map<K, V>, w: World<K, V, R, O>) {
    && |w.phases| == |jobs|
    && (forall c :: 0 <= c < |jobs| ==> Tied(jobs[c], w.phases[c], w.store))
    && History(jobs, con, s0, w)
  }

  /** The log is a serial history of exactly the clients that were told "committed", and it leads
      to the store. */
  ghost predicate History<K(!new), V(!new), R(!new), O(!new)>(jobs: seq<Job<K, V, R, O>>, con: Contract<K, V>, s0: map<K, V>, w: World<K, V, R, O>)
  {
    && |w.phases| == |jobs|
    && (forall i :: 0 <= i < |w.log| ==> w.log[i] < |jobs|)
    && (forall c :: 0 <= c < |jobs| ==> (w.phases[c].Committed? <==> c in w.log))
    && SerialHistory(jobs, con, s0, w.log, w.phases)
    && w.store == Replay(jobs, s0, w.log)
    && con.good(w.store, Members(w.log))
  }

  lemma {:induction false} ApplyFrames<K(!new), V>(s: map<K, V>, writes: seq<(K, V)>)
    ensures Frame(s, Apply(s, writes), Keys(writes))
    decreases |writes|
  {
    if writes != [] {
      ApplyFrames(s[writes[0].0 := writes[0].1], writes[1..]);
      assert forall k :: k !in Keys(writes) ==> k != writes[0].0 && k !in Keys(writes[1..]) by {
        assert writes[0].0 in Keys(writes);
        forall k | k in Keys(writes[1..]) ensures k in Keys(writes) {
          var i :| 0 <= i < |writes[1..]| && writes[1..][i].0 == k;
          assert writes[i + 1].0 == k;
        }
      }
    }
  }

  lemma ApplyFew<K(!new), V>(s: map<K, V>, a: (K, V), b: (K, V), c: (K, V), d: (K, V))
    ensures Apply(s, [a]) == s[a.0 := a.1] && Keys([a]) == {a.0}
    ensures Apply(s, [a, b]) == s[a.0 := a.1][b.0 := b.1] && Keys([a, b]) == {a.0, b.0}
    ensures Apply(s, [a, b, c, d]) == s[a.0 := a.1][b.0 := b.1][c.0 := c.1][d.0 := d.1] && Keys([a, b, c, d]) == {a.0, b.0, c.0, d.0}
  {
    var w1, w2, w4 := [a], [a, b], [a, b, c, d];
    assert w1[1..] == [] && w2[1..] == [b] && [b][1..] == [];
    assert w4[1..] == [b, c, d] && [b, c, d][1..] == [c, d] && [c, d][1..] == [d] && [d][1..] == [];
    assert Apply(s, w2) == Apply(s[a.0 := a.1], [b]) == s[a.0 := a.1][b.0 := b.1];
    var s2 := s[a.0 := a.1][b.0 := b.1];
    assert Apply(s, w4) == Apply(s[a.0 := a.1], [b, c, d]) == Apply(s2, [c, d]);
    assert Apply(s2, [c, d]) == Apply(s2[c.0 := c.1], [d]) == s2[c.0 := c.1][d.0 := d.1];
    assert w1[0] == a && w2[0] == a && w2[1] == b;
    assert w4[0] == a && w4[1] == b && w4[2] == c && w4[3] == d;
  }

  lemma {:induction false} ApplyConcat<K, V>(s: map<K, V>, a: seq<(K, V)>, b: seq<(K, V)>)
    ensures Apply(s, a + b) == Apply(Apply(s, a), b)
    decreases |a|
  {
    if a == [] {
      assert a + b == b;
    } else {
      assert (a + b)[1..] == a[1..] + b;
      ApplyConcat(s[a[0].0 := a[0].1], a[1..], b);
    }
  }

  /** One turn of a function that is alone in its transaction. */
  lemma OneTurn<K(!new), V(!new), R(!new), O(!new)>(f: Script<K, V, R, O>, replies: seq<R>, s: map<K, V>)
    ensures
      var action, now := f.act(replies), From([f], 0, replies, [], [], s);
      && (action.Ask? ==> now == if |replies| < f.asks then From([f], 0, replies + [action.query(s)], [], [], s) else Aborting("too many reads"))
      && (action.Commit? ==> now == Committing([action.out], action.writes))
      && (action.Abort? ==> now == Aborting(action.err))
  {
    match f.act(replies)
    case Commit(out, writes) =>
      assert [] + [out] == [out] && [] + writes == writes;
      assert From([f], 1, [], [out], writes, s) == Committing([out], writes);
    case _ =>
  }
}
