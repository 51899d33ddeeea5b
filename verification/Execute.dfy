/** The two executors of business functions as the code runs them: Redis retries an attempt whose
    watched keys were overwritten, Bolt holds the store for itself. */
module Execute {
  import opened Wrappers
  import opened Kernel
  import opened Serialisability

  const RETRIES_EXHAUSTED := "failed to execute after retrying"

  function ApplyAll<K, V>(s: map<K, V>, batches: seq<seq<(K, V)>>): map<K, V>
    decreases |batches|
  {
    if batches == [] then s else Apply(ApplyAll(s, batches[..|batches| - 1]), batches[|batches| - 1])
  }

  predicate Writes<K(==), V>(writes: seq<(K, V)>, keys: set<K>) {
    exists i | 0 <= i < |writes| :: writes[i].0 in keys
  }

  function Verdict<K, V, O>(outcome: Outcome<K, V, O>): Result<seq<O>> {
    match outcome
    case Committing(outs, _) => Ok(outs)
    case Aborting(err) => Err(err)
  }

  ghost predicate NeverAborts<K(!new), V(!new), R(!new), O(!new)>(body: seq<Script<K, V, R, O>>) {
    forall i, replies :: 0 <= i < |body| ==>
      !body[i].act(replies).Abort? && (body[i].act(replies).Ask? ==> |replies| < body[i].asks)
  }

  /** Buffers the writes of one transaction. */
  class Tx<K(!new), V(!new)> {
    var queue: seq<(K, V)>

    constructor ()
      ensures queue == []
    {
      queue := [];
    }

    method Write(key: K, value: V)
      modifies this
      ensures queue == old(queue) + [(key, value)]
    {
      queue := queue + [(key, value)];
    }
  }

  class RedisDB<K(==, !new), V(!new)> {
    var data: map<K, V>

    constructor ()
      ensures data == map[]
    {
      data := map[];
    }

    /** One command slot: whatever another client commits just before this client's next command. */
    method Interfere(rivals: seq<seq<(K, V)>>, watch: set<K>, slot: nat, dirty: bool) returns (slot': nat, dirty': bool)
      requires slot <= |rivals|
      modifies this
      ensures if slot == |rivals| then slot' == slot && dirty' == dirty && data == old(data)
              else slot' == slot + 1 && data == Apply(old(data), rivals[slot]) && dirty' == (dirty || Writes(rivals[slot], watch))
    {
      slot', dirty' := slot, dirty;
      if slot < |rivals| {
        data := Apply(data, rivals[slot]);
        dirty' := dirty || Writes(rivals[slot], watch);
        slot' := slot + 1;
      }
    }

    /** Execute against any interference: `rivals` are the commits of other clients, one slot before
        each command of this one, `budget` bounds the attempts that the backoff clock allows. The
        body may read keys that are not watched, as long as the rivals keep to the contract. A
        success means the business functions ran, in effect, alone on the store found at EXEC. */
    method Execute<R(!new), O(!new)>(body: seq<Script<K, V, R, O>>, watch: set<K>, rivals: seq<seq<(K, V)>>, budget: nat,
                                     ghost con: Contract<K, V>, ghost ready: map<K, V> -> bool)
      returns (r: Result<seq<O>>, ghost seen: nat)
      requires Insulated(Job(body, watch, ready), con) && KeepTo(con, ready, data, rivals)
      modifies this
      ensures seen <= |rivals|
      ensures r.Ok? ==>
        var found := ApplyAll(old(data), rivals[..seen]);
        && Alone(body, found).Committing?
        && r.value == Alone(body, found).outs
        && data == After(body, found)
      ensures r.Err? ==> data == ApplyAll(old(data), rivals[..seen])
      // An attempt is lost only to a rival's commit, so a budget above their number suffices.
      ensures budget > |rivals| && NeverAborts(body) ==> r.Ok?
      // Undisturbed, it answers as the exclusive transaction does.
      ensures rivals == [] && budget > 0 ==> r == Verdict(Alone(body, old(data)))
    {
      var slot: nat := 0;
      var attempts: nat := 0;
      assert rivals[..0] == [];
      while attempts < budget
        invariant slot <= |rivals|
        invariant data == ApplyAll(old(data), rivals[..slot])
        invariant attempts <= slot
      {
        var done, replies, outs, queue, dirty := 0, [], [], [], false;
        while done < |body|
          invariant slot <= |rivals| && done <= |body|
          invariant data == ApplyAll(old(data), rivals[..slot])
          invariant attempts <= slot && (dirty ==> attempts < slot)
          invariant !dirty ==> From(body, done, replies, outs, queue, data) == Alone(body, data)
          decreases |body| - done, if done < |body| then body[done].asks - |replies| else 0
        {
          slot, dirty := NextSlot(body, done, replies, outs, queue, rivals, watch, slot, dirty, con, ready, old(data));
          match body[done].act(replies)
          case Ask(query) =>
            if |replies| >= body[done].asks {
              return Err("too many reads"), slot;
            }
            replies := replies + [query(data)];
          case Commit(out, writes) =>
            done, replies, outs, queue := done + 1, [], outs + [out], queue + writes;
          case Abort(err) =>
            return Err(err), slot;
        }
        slot, dirty := NextSlot(body, done, replies, outs, queue, rivals, watch, slot, dirty, con, ready, old(data));
        if !dirty {
          data := Apply(data, queue);
          return Ok(outs), slot;
        }
        attempts := attempts + 1;
      }
      return Err(RETRIES_EXHAUSTED), slot;
    }

    /** Interference between two commands of an attempt leaves a clean attempt on course. */
    method NextSlot<R(!new), O(!new)>(body: seq<Script<K, V, R, O>>, done: nat, replies: seq<R>, outs: seq<O>, queue: seq<(K, V)>,
                                      rivals: seq<seq<(K, V)>>, watch: set<K>, slot: nat, dirty: bool,
                                      ghost con: Contract<K, V>, ghost ready: map<K, V> -> bool, ghost start: map<K, V>)
      returns (slot': nat, dirty': bool)
      requires Insulated(Job(body, watch, ready), con) && KeepTo(con, ready, start, rivals)
      requires done <= |body| && slot <= |rivals|
      requires data == ApplyAll(start, rivals[..slot])
      requires !dirty ==> From(body, done, replies, outs, queue, data) == Alone(body, data)
      modifies this
      ensures slot' <= |rivals| && data == ApplyAll(start, rivals[..slot'])
      ensures slot <= slot' && (dirty' && !dirty ==> slot < slot') && (slot == |rivals| ==> dirty' == dirty)
      ensures !dirty' ==> From(body, done, replies, outs, queue, data) == Alone(body, data)
    {
      slot', dirty' := Interfere(rivals, watch, slot, dirty);
      if slot < slot' {
        assert rivals[..slot'][..slot] == rivals[..slot];
        if !dirty' {
          ghost var touched := Keys(rivals[slot]);
          assert KeptAt(con, ready, start, rivals, slot) && KeptAt(con, ready, start, rivals, slot');
          ApplyFrames(old(data), rivals[slot]);
          assert touched !! watch;
          FromUnmoved(Job(body, watch, ready), con, done, replies, outs, queue, old(data), data, touched);
          FromUnmoved(Job(body, watch, ready), con, 0, [], [], [], old(data), data, touched);
        }
      }
    }
  }

  /** Around the n-th commit of the others the caller's assumption holds, and the commit is a
      permitted one. */
  ghost predicate KeptAt<K(!new), V(!new)>(con: Contract<K, V>, ready: map<K, V> -> bool, start: map<K, V>, rivals: seq<seq<(K, V)>>, n: nat)
    requires n <= |rivals|
  {
    var s := ApplyAll(start, rivals[..n]);
    ready(s) && (n < |rivals| ==> con.safe(s, Apply(s, rivals[n]), Keys(rivals[n])))
  }

  /** The others keep to the contract. */
  ghost predicate KeepTo<K(!new), V(!new)>(con: Contract<K, V>, ready: map<K, V> -> bool, start: map<K, V>, rivals: seq<seq<(K, V)>>) {
    forall n :: 0 <= n <= |rivals| ==> KeptAt(con, ready, start, rivals, n)
  }

  /** When all that a body reads is watched, any commits of others will do. */
  lemma AnyRivalsKeep<K(!new), V(!new), R(!new), O(!new)>(body: seq<Script<K, V, R, O>>, watch: set<K>, start: map<K, V>, rivals: seq<seq<(K, V)>>)
    requires ReadsWatched(body, watch)
    ensures Insulated(Job(body, watch, _ => true), Anything()) && KeepTo(Anything(), _ => true, start, rivals)
  {
  }

  class BoltDB<K(==, !new), V(!new)> {
    var data: map<K, V>

    constructor ()
      ensures data == map[]
    {
      data := map[];
    }

    /** Exclusive transaction: reads see the committed data, writes go to the transaction's own
        copy, which is committed as a whole or rolled back. */
    method Execute<R(!new), O(!new)>(body: seq<Script<K, V, R, O>>) returns (r: Result<seq<O>>)
      modifies this
      ensures data == After(body, old(data))
      ensures r == Verdict(Alone(body, old(data)))
      ensures r.Ok? ==> Alone(body, old(data)) == Committing(r.value, Alone(body, old(data)).writes)
      ensures r.Err? ==> Alone(body, old(data)) == Aborting(r.err) && data == old(data)
    {
      var pending := data;
      var done, replies, outs := 0, [], [];
      ghost var queue := [];
      while done < |body|
        invariant done <= |body| && data == old(data)
        invariant pending == Apply(data, queue)
        invariant From(body, done, replies, outs, queue, data) == Alone(body, data)
        decreases |body| - done, if done < |body| then body[done].asks - |replies| else 0
      {
        match body[done].act(replies)
        case Ask(query) =>
          if |replies| >= body[done].asks {
            return Err("too many reads");
          }
          replies := replies + [query(data)];
        case Commit(out, writes) =>
          ApplyConcat(data, queue, writes);
          pending := Apply(pending, writes);
          done, replies, outs, queue := done + 1, [], outs + [out], queue + writes;
        case Abort(err) =>
          return Err(err);
      }
      data := pending;
      return Ok(outs);
    }
  }
}
