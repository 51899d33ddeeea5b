/** Where the allocator and the status lists do not keep their promise. */
module StatusLimits {
  import opened Wrappers
  import opened Kernel
  import opened Batches
  import opened Status
  import opened StatusSteps
  import opened StatusUpdates
  import opened StatusRuns

  // ---- Several requests for one triple in one batch ----

  /** The cursor that a create leaves, whatever else is in its batch. */
  ghost function NextCursor(s: Store, t: Triple): Value {
    if ListKey(t) in s && CursorKey(t) in s && s[CursorKey(t)].CursorV? then CursorV(Min(s[CursorKey(t)].cursor + 1, BIT_STRING_LENGTH - 1)) else CursorV(1)
  }

  ghost predicate CursorMoved(s: Store, s': Store, t: Triple) {
    (CursorKey(t) in s' && s'[CursorKey(t)] == NextCursor(s, t)) || SameAt(s, s', CursorKey(t))
  }

  /** What a batch of creates leaves of credentials and cursors when every request has read the
      store as it was before the batch. */
  ghost predicate CreatedTogether(s: Store, s': Store, reqs: seq<CreateRequest>) {
    && (forall i :: 0 <= i < |reqs| ==> MadeFor(s', CredKey(reqs[i].id), reqs, i))
    && (forall id :: id !in Ids(Creating(reqs)) ==> SameAt(s, s', CredKey(id)))
    && (forall t :: CursorMoved(s, s', t))
    && (forall i :: 0 <= i < |reqs| && reqs[i].HasStatus() ==>
          CursorKey(reqs[i].StatusTriple()) in s' && s'[CursorKey(reqs[i].StatusTriple())] == NextCursor(s, reqs[i].StatusTriple()))
  }

  /** New requests, with lists that nothing can be taken for. */
  ghost predicate NewRequests(s: Store, reqs: seq<CreateRequest>) {
    && FreshRequests(reqs)
    && forall i :: 0 <= i < |reqs| ==> CredKey(reqs[i].id) !in s && (reqs[i].HasStatus() ==> ClearLists(s, reqs[i].StatusTriple()))
  }

  lemma {:induction false} WrittenByCreates(s: Store, reqs: seq<CreateRequest>, strict: bool)
    requires Good(s, strict) && NewRequests(s, reqs) && Alone(Body(reqs, strict), s).Committing?
    ensures CreatedTogether(s, After(Body(reqs, strict), s), reqs)
    decreases |reqs|
  {
    if reqs == [] {
      assert Alone(Body(reqs, strict), s) == Committing([], []);
    } else {
      var n := |reqs| - 1;
      var rest, last := reqs[..n], reqs[n];
      assert rest + [last] == reqs;
      SplitCreates(s, rest, last, strict);
      RestIsNew(s, rest, last);
      WrittenByCreates(s, rest, strict);
      LastCreate(s, last, strict);
      OneMoreCreate(s, After(Body(rest, strict), s), rest, last, Alone(Create(last, strict), s).outs[0].cred);
    }
  }

  lemma SplitCreates(s: Store, rest: seq<CreateRequest>, last: CreateRequest, strict: bool)
    requires Alone(Body(rest + [last], strict), s).Committing?
    ensures Alone(Body(rest, strict), s).Committing? && Alone(Create(last, strict), s).Committing?
    ensures Alone(Body(rest + [last], strict), s).outs == Alone(Body(rest, strict), s).outs + Alone(Create(last, strict), s).outs
    ensures After(Body(rest + [last], strict), s) == Apply(After(Body(rest, strict), s), Alone(Create(last, strict), s).writes)
  {
    assert Body(rest + [last], strict) == Body(rest, strict) + [CreateScript(last, strict)];
    BatchSplits(Body(rest, strict), CreateScript(last, strict), s);
  }

  lemma RestIsNew(s: Store, rest: seq<CreateRequest>, last: CreateRequest)
    requires NewRequests(s, rest + [last])
    ensures NewRequests(s, rest) && last.id !in Ids(Creating(rest)) && IsShuffle(last.shuffle) && (last.HasStatus() ==> ClearLists(s, last.StatusTriple()))
  {
    var reqs := rest + [last];
    assert forall i :: 0 <= i < |rest| ==> rest[i] == reqs[i];
    assert reqs[|rest|] == last;
  }

  /** The last create of a batch writes what it would write alone. */
  lemma LastCreate(s: Store, last: CreateRequest, strict: bool)
    requires Good(s, strict) && IsShuffle(last.shuffle) && (last.HasStatus() ==> ClearLists(s, last.StatusTriple()))
    requires Alone(Create(last, strict), s).Committing?
    ensures last.HasStatus() && ListKey(last.StatusTriple()) in s ==> ListExists(s, last.StatusTriple())
    ensures var outcome := Alone(Create(last, strict), s);
      |outcome.outs| == 1 && outcome.outs[0].Created? && CreatedFor(outcome.outs[0].cred, last) && outcome.writes == WriteList(s, last, outcome.outs[0].cred)
  {
    assert TripleGood(s, strict, last.StatusTriple());
    WrittenByCreate(s, last, strict);
  }

  lemma OneMoreCreate(s: Store, s1: Store, rest: seq<CreateRequest>, last: CreateRequest, c: Cred)
    requires CreatedTogether(s, s1, rest) && last.id !in Ids(Creating(rest)) && CreatedFor(c, last)
    requires last.HasStatus() && ListKey(last.StatusTriple()) in s ==> ListExists(s, last.StatusTriple())
    ensures CreatedTogether(s, Apply(s1, WriteList(s, last, c)), rest + [last])
  {
    var reqs, w := rest + [last], WriteList(s, last, c);
    var s' := Apply(s1, w);
    LaidOver(s, s1, last, c);
    forall i | 0 <= i < |rest| ensures reqs[i] == rest[i] && MadeFor(s', CredKey(reqs[i].id), reqs, i) {
      assert MadeFor(s1, CredKey(rest[i].id), rest, i);
      assert rest[i].id in Ids(Creating(rest));
    }
    assert MadeFor(s', CredKey(last.id), reqs, |rest|);
    forall id | id !in Ids(Creating(reqs)) ensures SameAt(s, s', CredKey(id)) {
      assert reqs[|rest|].id in Ids(Creating(reqs));
      forall i | 0 <= i < |rest| ensures rest[i].id != id { assert reqs[i].id in Ids(Creating(reqs)); }
    }
    forall i | 0 <= i < |reqs| && reqs[i].HasStatus()
      ensures CursorKey(reqs[i].StatusTriple()) in s' && s'[CursorKey(reqs[i].StatusTriple())] == NextCursor(s, reqs[i].StatusTriple())
    {
      if i < |rest| { assert reqs[i] == rest[i]; } else { assert reqs[i] == last; }
    }
  }

  /** A create's writes, laid over what others of its batch have written. */
  lemma LaidOver(s: Store, s1: Store, req: CreateRequest, c: Cred)
    requires req.HasStatus() && ListKey(req.StatusTriple()) in s ==> ListExists(s, req.StatusTriple())
    requires forall t :: CursorMoved(s, s1, t)
    ensures
      var s' := Apply(s1, WriteList(s, req, c));
      && CredKey(req.id) in s' && s'[CredKey(req.id)] == CredV(c)
      && (forall id :: id != req.id ==> SameAt(s1, s', CredKey(id)))
      && (forall t :: !(req.HasStatus() && t == req.StatusTriple()) ==> SameAt(s1, s', CursorKey(t)))
      && (forall t :: CursorMoved(s, s', t))
      && (req.HasStatus() ==> CursorKey(req.StatusTriple()) in s' && s'[CursorKey(req.StatusTriple())] == NextCursor(s, req.StatusTriple()))
      && (req.HasStatus() && ListKey(req.StatusTriple()) !in s ==>
            ListKey(req.StatusTriple()) in s' && s'[ListKey(req.StatusTriple())] == ListV(BitList(req.listID, req.StatusTriple().purpose, {})))
  {
    var t, w := req.StatusTriple(), WriteList(s, req, c);
    assert CursorMoved(s, s1, t);
    if req.HasStatus() && ListKey(t) !in s {
      assert w == [w[0], w[1], w[2], w[3]];
      ApplyFew(s1, w[0], w[1], w[2], w[3]);
    } else if req.HasStatus() && s[CursorKey(t)].cursor < BIT_STRING_LENGTH - 1 {
      assert w == [w[0], w[1]];
      ApplyFew(s1, w[0], w[1], w[0], w[0]);
    } else {
      assert w == [w[0]];
      ApplyFew(s1, w[0], w[0], w[0], w[0]);
      assert Apply(s1, w) == s1[CredKey(req.id) := CredV(c)];
    }
    forall t' ensures CursorMoved(s, Apply(s1, w), t') { assert CursorMoved(s, s1, t'); }
  }

  /** The bearers grow by two where the cursor moves by one. */
  lemma CursorFallsBehind(s: Store, s': Store, reqs: seq<CreateRequest>, i: nat, j: nat, strict: bool)
    requires Good(s, strict) && NewRequests(s, reqs) && CreatedTogether(s, s', reqs)
    requires i < j < |reqs| && reqs[i].HasStatus() && reqs[j].HasStatus() && reqs[i].StatusTriple() == reqs[j].StatusTriple()
    requires |Bearers(s', reqs[i].StatusTriple())| <= BIT_STRING_LENGTH - 1
    ensures !TripleGood(s', strict, reqs[i].StatusTriple())
  {
    var t := reqs[i].StatusTriple();
    assert TripleGood(s, strict, t);
    BearersAdded(s, s', reqs, t);
    TwoMore(Bearers(s, t), Bearers(s', t), CredKey(reqs[i].id), CredKey(reqs[j].id));
    CursorTooSmall(s, s', t, strict);
  }

  lemma TwoMore<T>(a: set<T>, b: set<T>, x: T, y: T)
    requires a <= b && x in b && y in b && x !in a && y !in a && x != y
    ensures |a| + 2 <= |b|
  {
    SubsetSize(a + {x, y}, b);
    assert |a + {x, y}| == |a| + 2;
  }

  lemma CursorTooSmall(s: Store, s': Store, t: Triple, strict: bool)
    requires TripleGood(s, strict, t) && CursorKey(t) in s' && s'[CursorKey(t)] == NextCursor(s, t)
    requires |Bearers(s, t)| + 2 <= |Bearers(s', t)| <= BIT_STRING_LENGTH - 1
    ensures !TripleGood(s', strict, t)
  {
  }

  lemma BearersAdded(s: Store, s': Store, reqs: seq<CreateRequest>, t: Triple)
    requires NewRequests(s, reqs) && CreatedTogether(s, s', reqs)
    ensures Bearers(s, t) <= Bearers(s', t)
    ensures forall i :: 0 <= i < |reqs| ==> CredKey(reqs[i].id) !in Bearers(s, t)
    ensures forall i :: 0 <= i < |reqs| && reqs[i].HasStatus() && reqs[i].StatusTriple() == t ==> CredKey(reqs[i].id) in Bearers(s', t)
  {
    forall k | k in Bearers(s, t) ensures k in Bearers(s', t) {
      assert k == CredKey(k.id);
      assert SameAt(s, s', k) by {
        forall n | 0 <= n < |reqs| ensures reqs[n].id != k.id { }
      }
    }
    forall i | 0 <= i < |reqs| && reqs[i].HasStatus() && reqs[i].StatusTriple() == t ensures CredKey(reqs[i].id) in Bearers(s', t) {
      assert MadeFor(s', CredKey(reqs[i].id), reqs, i);
    }
  }

  lemma {:induction false} SubsetSize<T>(a: set<T>, b: set<T>)
    requires a <= b
    ensures |a| <= |b|
    decreases |a|
  {
    if x :| x in a { SubsetSize(a - {x}, b - {x}); }
  }

  /** A batch of any length that commits below the limit leaves a good store if and only if no two of
      its status-bearing requests are for one triple. */
  lemma GoodAfterCreates(s: Store, reqs: seq<CreateRequest>, strict: bool)
    requires Good(s, strict) && NewRequests(s, reqs) && Alone(Body(reqs, strict), s).Committing?
    requires forall t :: |Bearers(After(Body(reqs, strict), s), t)| <= BIT_STRING_LENGTH - 1
    ensures Good(After(Body(reqs, strict), s), strict) <==> OnePerTriple(reqs)
  {
    if OnePerTriple(reqs) {
      BatchKeepsGood(s, reqs, strict);
    } else {
      var i, j :| 0 <= i < j < |reqs| && reqs[i].HasStatus() && reqs[j].HasStatus() && reqs[i].StatusTriple() == reqs[j].StatusTriple();
      WrittenByCreates(s, reqs, strict);
      CursorFallsBehind(s, After(Body(reqs, strict), s), reqs, i, j, strict);
    }
  }

  /** What goes wrong first: with an existing list both requests get the index at the committed
      cursor; without one each makes a list, and the credential of the first names one that has
      been overwritten. */
  lemma BatchOfTwoCollides(s: Store, a: CreateRequest, b: CreateRequest, strict: bool)
    requires Good(s, strict) && NewRequests(s, [a, b])
    requires a.HasStatus() && b.HasStatus() && a.StatusTriple() == b.StatusTriple()
    requires Alone([CreateScript(a, strict)] + [CreateScript(b, strict)], s).Committing?
    ensures
      var s', t := After([CreateScript(a, strict)] + [CreateScript(b, strict)], s), a.StatusTriple();
      && CredKey(a.id) in Bearers(s', t) && CredKey(b.id) in Bearers(s', t)
      && if ListKey(t) in s then IndexAt(s', CredKey(a.id)) == IndexAt(s', CredKey(b.id))
         else ListKey(t) in s' && s'[ListKey(t)] == ListV(BitList(b.listID, t.purpose, {}))
              && s'[CredKey(a.id)].cred.status.value.listID == a.listID
  {
    var t := a.StatusTriple();
    assert TripleGood(s, strict, t);
    assert [a, b][0] == a && [a, b][1] == b;
    BatchSplits([CreateScript(a, strict)], CreateScript(b, strict), s);
    WrittenByCreate(s, a, strict);
    WrittenByCreate(s, b, strict);
    SecondOverFirst(s, After(Create(a, strict), s), a, b, strict, Alone(Create(a, strict), s).outs[0].cred, Alone(Create(b, strict), s).outs[0].cred);
  }

  lemma SecondOverFirst(s: Store, s1: Store, a: CreateRequest, b: CreateRequest, strict: bool, ca: Cred, cb: Cred)
    requires a.HasStatus() && b.HasStatus() && a.StatusTriple() == b.StatusTriple() && a.id != b.id
    requires ListKey(a.StatusTriple()) in s ==> ListExists(s, a.StatusTriple())
    requires IsShuffle(a.shuffle) && IsShuffle(b.shuffle) && CreatedFor(ca, a) && CreatedFor(cb, b)
    requires Written(s, s1, a, strict, ca) && Written(s, Apply(s, WriteList(s, b, cb)), b, strict, cb)
    ensures
      var s', t := Apply(s1, WriteList(s, b, cb)), a.StatusTriple();
      && CredKey(a.id) in s' && s'[CredKey(a.id)] == CredV(ca) && CredKey(b.id) in s' && s'[CredKey(b.id)] == CredV(cb)
      && if ListKey(t) in s then ca.status.value.index == cb.status.value.index
         else ListKey(t) in s' && s'[ListKey(t)] == ListV(BitList(b.listID, t.purpose, {})) && ca.status.value.listID == a.listID
  {
    forall t ensures CursorMoved(s, s1, t) { }
    LaidOver(s, s1, b, cb);
    assert SameAt(s1, Apply(s1, WriteList(s, b, cb)), CredKey(a.id));
  }

  // ---- The limit ----

  /** At the limit, whether a create aborts is decided by the SDK function alone. If it does not, it
      gets the last index of the pool, which is new only to the first to get it. */
  lemma CreateAtLimit(s: Store, a: CreateRequest, strict: bool)
    requires Good(s, strict) && CredKey(a.id) !in s && IsShuffle(a.shuffle) && a.builds && a.HasStatus() && a.IsStatusValid()
    requires ListKey(a.StatusTriple()) in s && ClearLists(s, a.StatusTriple()) && |Bearers(s, a.StatusTriple())| >= BIT_STRING_LENGTH - 1
    ensures Alone(Create(a, strict), s).Committing? <==> !strict
    ensures !strict ==>
      var s', t := After(Create(a, strict), s), a.StatusTriple();
      && ListExists(s, t)
      && s' == s[CredKey(a.id) := CredV(a.NewCred(Some(Entry(t.purpose, s[PoolKey(t)].pool[BIT_STRING_LENGTH - 1], s[ListKey(t)].list.id))))]
      && Good(s', strict) && |Bearers(s', t)| == |Bearers(s, t)| + 1 && CredKey(a.id) in Bearers(s', t)
      && (|Bearers(s, t)| == BIT_STRING_LENGTH - 1 ==> Distinct(s', t))
  {
    var t := a.StatusTriple();
    assert TripleGood(s, strict, t);
    LimitDecides(s, a, strict);
    if !strict {
      WrittenByCreate(s, a, strict);
      var s', c := After(Create(a, strict), s), Alone(Create(a, strict), s).outs[0].cred;
      WrittenKeepsGood(s, s', a, strict, c);
      AddsBearer(s, s', c, t);
      assert TripleGood(s', strict, t);
    }
  }

  lemma LimitDecides(s: Store, a: CreateRequest, strict: bool)
    requires ListExists(s, a.StatusTriple()) && s[CursorKey(a.StatusTriple())].cursor == BIT_STRING_LENGTH - 1 && ClearLists(s, a.StatusTriple())
    requires a.builds && a.HasStatus() && a.IsStatusValid()
    ensures Alone(Create(a, strict), s).Committing? <==> !strict
  {
    var t := a.StatusTriple();
    var l, p, c := Lookup(ListKey(t))(s), Lookup(PoolKey(t))(s), Lookup(CursorKey(t))(s);
    CreateDecides(s, a, strict);
    FindListExact(s, t);
    assert [l, p, c, c][1..] == [p, c, c];
  }

  /** The cursor stands still, and the one after that gets the same index again. */
  lemma ExhaustionRepeatsTheLastIndex(s: Store, a: CreateRequest, b: CreateRequest)
    requires Good(s, false) && NewRequests(s, [a, b]) && a.builds && b.builds
    requires a.HasStatus() && b.HasStatus() && a.IsStatusValid() && b.IsStatusValid() && a.StatusTriple() == b.StatusTriple()
    requires ListKey(a.StatusTriple()) in s && |Bearers(s, a.StatusTriple())| >= BIT_STRING_LENGTH - 1
    ensures
      var t := a.StatusTriple();
      var s1 := After(Create(a, false), s);
      var s2 := After(Create(b, false), s1);
      && CredKey(a.id) in Bearers(s2, t) && CredKey(b.id) in Bearers(s2, t)
      && IndexAt(s2, CredKey(a.id)) == IndexAt(s2, CredKey(b.id)) && !Distinct(s2, t)
  {
    var t := a.StatusTriple();
    assert [a, b][0] == a && [a, b][1] == b;
    CreateAtLimit(s, a, false);
    var s1 := After(Create(a, false), s);
    assert ClearLists(s1, t);
    CreateAtLimit(s1, b, false);
  }
}
