/** What the functions of one transaction do to each other: nothing until they commit. */
module Batches {
  import opened Kernel

  /** The functions of a batch run as transactions of their own, one after the other. */
  ghost function OneByOne<K(!new), V(!new), R(!new), O(!new)>(body: seq<Script<K, V, R, O>>, s: map<K, V>): map<K, V>
    decreases |body|
  {
    if body == [] then s else OneByOne(body[1..], After([body[0]], s))
  }

  /** No function of the rest of a batch can tell whether an earlier one has already been committed. */
  ghost predicate Unrelated<K(!new), V(!new), R(!new), O(!new)>(body: seq<Script<K, V, R, O>>, s: map<K, V>)
    decreases |body|
  {
    body != [] ==>
      && (forall i, replies :: 1 <= i < |body| && body[i].act(replies).Ask? ==>
            body[i].act(replies).query(s) == body[i].act(replies).query(After([body[0]], s)))
      && Unrelated(body[1..], After([body[0]], s))
  }

  lemma {:induction false} FromShifts<K(!new), V(!new), R(!new), O(!new)>(
      body: seq<Script<K, V, R, O>>, done: nat, replies: seq<R>, outs: seq<O>, queue: seq<(K, V)>,
      body': seq<Script<K, V, R, O>>, done': nat, outs': seq<O>, queue': seq<(K, V)>, s: map<K, V>, s': map<K, V>)
    requires done <= |body| && done' <= |body'| && body[done..] == body'[done'..]
    requires forall i, rs :: done <= i < |body| && body[i].act(rs).Ask? ==> body[i].act(rs).query(s) == body[i].act(rs).query(s')
    ensures var a, b := From(body, done, replies, outs + outs', queue + queue', s), From(body', done', replies, outs', queue', s');
      match b
      case Committing(o, ws) => a == Committing(outs + o, queue + ws)
      case Aborting(err) => a == Aborting(err)
    decreases |body| - done, if done < |body| then body[done].asks - |replies| else 0
  {
    if done < |body| {
      assert body[done] == body[done..][0] == body'[done'..][0] == body'[done'];
      match body[done].act(replies)
      case Ask(query) =>
        assert query(s) == query(s');
        if |replies| < body[done].asks {
          FromShifts(body, done, replies + [query(s)], outs, queue, body', done', outs', queue', s, s');
        }
      case Commit(out, writes) =>
        assert body[done + 1..] == body[done..][1..] == body'[done'..][1..] == body'[done' + 1..];
        assert (outs + outs') + [out] == outs + (outs' + [out]);
        assert (queue + queue') + writes == queue + (queue' + writes);
        FromShifts(body, done + 1, [], outs, queue, body', done' + 1, outs' + [out], queue' + writes, s, s');
      case Abort(_) =>
    }
  }

  /** Inside a batch a function behaves as it does alone, on the committed store. */
  lemma {:induction false} NextFunction<K(!new), V(!new), R(!new), O(!new)>(
      body: seq<Script<K, V, R, O>>, i: nat, replies: seq<R>, outs: seq<O>, queue: seq<(K, V)>, s: map<K, V>)
    requires i < |body|
    ensures From(body, i, replies, outs, queue, s) ==
            match From([body[i]], 0, replies, [], [], s)
            case Committing(outs', writes) => From(body, i + 1, [], outs + outs', queue + writes, s)
            case Aborting(err) => Aborting(err)
    decreases body[i].asks - |replies|
  {
    match body[i].act(replies)
    case Ask(query) =>
      if |replies| < body[i].asks {
        NextFunction(body, i, replies + [query(s)], outs, queue, s);
      }
    case Commit(out, writes) =>
      assert [] + [out] == [out] && [] + writes == writes;
    case Abort(_) =>
  }

  /** A batch of unrelated functions commits exactly when each of them would, one after the other,
      and leaves the same store, although every one of them read the store as it was before the
      batch. */
  lemma {:induction false} BatchIsSequential<K(!new), V(!new), R(!new), O(!new)>(body: seq<Script<K, V, R, O>>, s: map<K, V>)
    requires Unrelated(body, s)
    ensures Alone(body, s).Committing? ==> After(body, s) == OneByOne(body, s)
    ensures body != [] ==> (Alone(body, s).Committing? <==>
              Alone([body[0]], s).Committing? && Alone(body[1..], After([body[0]], s)).Committing?)
    ensures body != [] && Alone(body, s).Committing? ==>
              && After(body, s) == After(body[1..], After([body[0]], s))
              && Alone(body, s).writes == Alone([body[0]], s).writes + Alone(body[1..], After([body[0]], s)).writes
    decreases |body|
  {
    if body != [] {
      var s1 := After([body[0]], s);
      NextFunction(body, 0, [], [], [], s);
      BatchIsSequential(body[1..], s1);
      if Alone([body[0]], s).Committing? {
        var Committing(outs, writes) := Alone([body[0]], s);
        assert outs + [] == outs == [] + outs && writes + [] == writes == [] + writes;
        FromShifts(body, 1, [], outs, writes, body[1..], 0, [], [], s, s1);
        if Alone(body[1..], s1).Committing? {
          ApplyConcat(s, writes, Alone(body[1..], s1).writes);
        }
      }
    }
  }

  /** A batch runs its first function, then the others, all of them on the same store. */
  lemma FirstThenOthers<K(!new), V(!new), R(!new), O(!new)>(body: seq<Script<K, V, R, O>>, s: map<K, V>)
    requires body != []
    ensures Alone(body, s) == Joined(Alone([body[0]], s), Alone(body[1..], s))
  {
    NextFunction(body, 0, [], [], [], s);
    if Alone([body[0]], s).Committing? {
      var Committing(outs, writes) := Alone([body[0]], s);
      assert outs + [] == outs == [] + outs && writes + [] == writes == [] + writes;
      FromShifts(body, 1, [], outs, writes, body[1..], 0, [], [], s, s);
    }
  }

  /** Two parts of one transaction: the first failure is that of the whole. */
  function Joined<K, V, O>(a: Outcome<K, V, O>, b: Outcome<K, V, O>): Outcome<K, V, O> {
    match (a, b)
    case (Committing(outs, writes), Committing(outs', writes')) => Committing(outs + outs', writes + writes')
    case (Committing(_, _), Aborting(err)) => Aborting(err)
    case (Aborting(err), _) => Aborting(err)
  }

  /** The last function of a batch, too, reads the store as it was before the batch; its writes are
      laid over those of the others. */
  lemma {:induction false} BatchSplits<K(!new), V(!new), R(!new), O(!new)>(body: seq<Script<K, V, R, O>>, last: Script<K, V, R, O>, s: map<K, V>)
    ensures Alone(body + [last], s) == Joined(Alone(body, s), Alone([last], s))
    ensures Alone(body + [last], s).Committing? ==> After(body + [last], s) == Apply(After(body, s), Alone([last], s).writes)
    decreases |body|
  {
    if body == [] {
      assert body + [last] == [last];
      assert Alone(body, s) == Committing([], []);
      JoinedWithNothing(Alone([last], s));
    } else {
      var all := body + [last];
      assert all[1..] == body[1..] + [last];
      FirstThenOthers(all, s);
      FirstThenOthers(body, s);
      BatchSplits(body[1..], last, s);
      JoinedAssociates(Alone([body[0]], s), Alone(body[1..], s), Alone([last], s));
    }
    if Alone(body + [last], s).Committing? {
      ApplyConcat(s, Alone(body, s).writes, Alone([last], s).writes);
    }
  }

  lemma JoinedWithNothing<K, V, O>(a: Outcome<K, V, O>)
    ensures Joined(Committing([], []), a) == a
  {
    if a.Committing? { assert [] + a.outs == a.outs && [] + a.writes == a.writes; }
  }

  lemma JoinedAssociates<K, V, O>(a: Outcome<K, V, O>, b: Outcome<K, V, O>, c: Outcome<K, V, O>)
    ensures Joined(a, Joined(b, c)) == Joined(Joined(a, b), c)
  {
    if a.Committing? && b.Committing? && c.Committing? {
      assert a.outs + (b.outs + c.outs) == (a.outs + b.outs) + c.outs && a.writes + (b.writes + c.writes) == (a.writes + b.writes) + c.writes;
    }
  }
}
