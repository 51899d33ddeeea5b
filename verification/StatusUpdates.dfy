/** Updates of credential flags on a good store: one by one, and in batches. */
module StatusUpdates {
  import opened Wrappers
  import opened Kernel
  import opened Batches
  import opened Status
  import opened StatusSteps

  type UpdateScripts = seq<Script<Key, Value, Reply, Response>>

  predicate SameButFlags(v: Value, v': Value) {
    v.CredV? && v'.CredV? && v.cred == v'.cred.(revoked := v.cred.revoked, suspended := v.cred.suspended)
  }

  // ---- Stores that differ in flags and bits only ----

  /** Only flags of credentials, and purposes and bits of lists, are different. */
  ghost predicate FlagsMoved(s: Store, s': Store) {
    && (forall id :: CredKey(id) in s' <==> CredKey(id) in s)
    && (forall id :: CredKey(id) in s ==> s[CredKey(id)].CredV? ==> SameButFlags(s[CredKey(id)], s'[CredKey(id)]))
    && (forall t :: (PoolKey(t) in s' <==> PoolKey(t) in s) && (PoolKey(t) in s ==> s'[PoolKey(t)] == s[PoolKey(t)]))
    && (forall t :: (CursorKey(t) in s' <==> CursorKey(t) in s) && (CursorKey(t) in s ==> s'[CursorKey(t)] == s[CursorKey(t)]))
    && (forall t :: ListKey(t) in s' <==> ListKey(t) in s)
    && (forall t :: ListKey(t) in s && s[ListKey(t)].ListV? ==> s'[ListKey(t)].ListV? && s'[ListKey(t)].list.id == s[ListKey(t)].list.id)
  }

  lemma BearersStay(s: Store, s': Store, t: Triple)
    requires FlagsMoved(s, s') && CredsPure(s)
    ensures Bearers(s', t) == Bearers(s, t)
    ensures forall k :: k in Bearers(s, t) ==> IndexAt(s', k) == IndexAt(s, k) && s'[k].cred.status == s[k].cred.status
  {
    forall k: Key | k.CredKey? ensures k in Bearers(s', t) <==> k in Bearers(s, t) { assert k == CredKey(k.id); }
    forall k | k in Bearers(s, t) ensures s'[k].cred.status == s[k].cred.status { assert k == CredKey(k.id); }
  }

  ghost function FlaggedIndexes(s: Store, t: Triple): set<int> {
    set k | k in Bearers(s, t) && Flagged(s[k].cred, t.purpose) :: IndexAt(s, k)
  }

  lemma MovedTriple(s: Store, s': Store, strict: bool, t: Triple)
    requires TripleGood(s, strict, t) && CredsPure(s) && FlagsMoved(s, s') && (ListKey(t) in s ==> Agrees(s', t))
    ensures TripleGood(s', strict, t)
  {
    BearersStay(s, s', t);
  }

  /** Such a change keeps the store good exactly if the lists agree afterwards and the flags are still
      their owners'. */
  lemma MovedGood(s: Store, s': Store, strict: bool)
    requires Good(s, strict) && FlagsMoved(s, s')
    ensures Good(s', strict) <==> CredsPure(s') && forall t :: ListKey(t) in s ==> Agrees(s', t)
  {
    if CredsPure(s') && forall t :: ListKey(t) in s ==> Agrees(s', t) {
      forall t ensures TripleGood(s', strict, t) {
        assert TripleGood(s, strict, t);
        MovedTriple(s, s', strict, t);
      }
    }
    if Good(s', strict) {
      forall t | ListKey(t) in s ensures Agrees(s', t) { assert TripleGood(s', strict, t); }
    }
  }

  /** A triple whose list and bearers are as they were still agrees. */
  lemma UnmovedAgrees(s: Store, s': Store, t: Triple)
    requires Agrees(s, t) && Bearers(s', t) == Bearers(s, t) && ListKey(t) in s' && s'[ListKey(t)] == s[ListKey(t)]
    requires forall k :: k in Bearers(s, t) ==> s'[k] == s[k]
    ensures Agrees(s', t)
  {
    assert FlaggedIndexes(s', t) == FlaggedIndexes(s, t);
  }

  // ---- One update ----

  lemma UpdatedMoves(s: Store, req: UpdateRequest, bits: set<int>, strict: bool)
    requires Good(s, strict) && Holds(s, req)
    ensures
      var s' := UpdatedStore(s, req, bits);
      && FlagsMoved(s, s')
      && (CredsPure(s') <==> req.SetsOwnFlag() || req.Clears())
      && (forall t :: t != req.t && ListKey(t) in s ==> Agrees(s', t))
  {
    var s', k0 := UpdatedStore(s, req, bits), CredKey(req.id);
    assert TripleGood(s, strict, req.t);
    assert k0 in Bearers(s, req.t);
    assert CredsPure(s') ==> s'[k0].cred.revoked ==> s[k0].cred.status.value.purpose == Revocation;
    OthersUnmoved(s, req, bits, strict);
  }

  lemma OthersUnmoved(s: Store, req: UpdateRequest, bits: set<int>, strict: bool)
    requires Good(s, strict) && Holds(s, req) && FlagsMoved(s, UpdatedStore(s, req, bits))
    ensures forall t :: t != req.t && ListKey(t) in s ==> Agrees(UpdatedStore(s, req, bits), t)
  {
    var s' := UpdatedStore(s, req, bits);
    forall t | t != req.t && ListKey(t) in s ensures Agrees(s', t) {
      assert TripleGood(s, strict, t);
      BearersStay(s, s', t);
      UnmovedAgrees(s, s', t);
    }
  }

  /** The flagged indexes after an update: the others', and its own if the own flag was set. */
  lemma FlaggedAfterUpdate(s: Store, req: UpdateRequest, bits: set<int>)
    requires Holds(s, req)
    ensures
      var s', t := UpdatedStore(s, req, bits), req.t;
      FlaggedIndexes(s', t) == OtherFlagged(s, t, req.id) + if Flagged(s'[CredKey(req.id)].cred, t.purpose) then {IndexAt(s, CredKey(req.id))} else {}
  {
    var s', t, k0 := UpdatedStore(s, req, bits), req.t, CredKey(req.id);
    assert Bearers(s', t) == Bearers(s, t) && k0 in Bearers(s, t);
    assert forall k :: k in Bearers(s, t) && k != k0 ==> s'[k] == s[k];
    forall x | x in FlaggedIndexes(s', t) ensures x in OtherFlagged(s, t, req.id) || (x == IndexAt(s, k0) && Flagged(s'[k0].cred, t.purpose)) {
      var k :| k in Bearers(s', t) && Flagged(s'[k].cred, t.purpose) && IndexAt(s', k) == x;
      if k != k0 { assert x in OtherFlagged(s, t, req.id); }
    }
    forall x | x in OtherFlagged(s, t, req.id) ensures x in FlaggedIndexes(s', t) {
      var k :| k in Bearers(s, t) && k != k0 && Flagged(s[k].cred, t.purpose) && IndexAt(s, k) == x;
      assert k in Bearers(s', t) && IndexAt(s', k) == x;
    }
    if Flagged(s'[k0].cred, t.purpose) { assert k0 in Bearers(s', t) && IndexAt(s', k0) == IndexAt(s, k0); }
  }

  /** What an update must be for the lists to stay in order: one that finds nothing to do; one that
      sets the credential's own flag where every stray the scan takes has an index that is flagged
      anyway; or one that clears the flag of a revocable credential when no other is revoked. A list
      that has been cleared is written as a revocation list, whatever it was. */
  ghost predicate Harmless(s: Store, req: UpdateRequest)
    requires Holds(s, req)
  {
    || NoAction(s, req)
    || (req.SetsOwnFlag() && Strays(s, req.t, req.id) <= OtherFlagged(s, req.t, req.id) + {IndexAt(s, CredKey(req.id))})
    || (req.Clears() && req.t.purpose == Revocation && OtherFlagged(s, req.t, req.id) == {})
  }

  /** An update that commits on a good store leaves a good one if and only if it is harmless; and it
      is the updated list that is wrong otherwise. */
  lemma GoodAfterUpdate(s: Store, req: UpdateRequest, strict: bool)
    requires Good(s, strict) && Holds(s, req) && Alone(Update(req), s).Committing?
    ensures Good(After(Update(req), s), strict) <==> Harmless(s, req)
    ensures Agrees(After(Update(req), s), req.t) <==> Harmless(s, req)
  {
    WrittenByUpdate(s, req);
    assert TripleGood(s, strict, req.t);
    assert CredKey(req.id) in Bearers(s, req.t);
    if !NoAction(s, req) {
      var bits := ScanOthers(req)(s).ix + if req.Clears() then {} else {IndexAt(s, CredKey(req.id))};
      UpdatedMoves(s, req, bits, strict);
      ListIsRight(s, req);
      MovedGood(s, UpdatedStore(s, req, bits), strict);
    }
  }

  lemma ListIsRight(s: Store, req: UpdateRequest)
    requires Holds(s, req) && !NoAction(s, req) && !(req.suspended && req.revoked)
    ensures
      var bits := ScanOthers(req)(s).ix + if req.Clears() then {} else {IndexAt(s, CredKey(req.id))};
      Agrees(UpdatedStore(s, req, bits), req.t) <==> Harmless(s, req)
  {
    var bits := ScanOthers(req)(s).ix + if req.Clears() then {} else {IndexAt(s, CredKey(req.id))};
    FlaggedAfterUpdate(s, req, bits);
    ScanFinds(s, req.t, req.id);
  }

  // ---- Batches of updates ----

  ghost function UpdateBody(reqs: seq<UpdateRequest>): UpdateScripts {
    seq(|reqs|, i requires 0 <= i < |reqs| => UpdateScript(reqs[i]))
  }

  ghost predicate AllHold(s: Store, reqs: seq<UpdateRequest>) {
    forall i :: 0 <= i < |reqs| ==> Holds(s, reqs[i]) && reqs[i].SetsOwnFlag()
  }

  /** A request that finds something to do. */
  ghost predicate Acts(s: Store, req: UpdateRequest) { Holds(s, req) && !NoAction(s, req) }

  /** The credentials that a batch changes. */
  ghost function ChangedIds(s: Store, reqs: seq<UpdateRequest>): set<string>
    decreases |reqs|
  {
    if reqs == [] then {}
    else ChangedIds(s, reqs[..|reqs| - 1]) + if Acts(s, reqs[|reqs| - 1]) then {reqs[|reqs| - 1].id} else {}
  }

  /** The request that writes the triple's list last. */
  ghost function LastOn(s: Store, reqs: seq<UpdateRequest>, t: Triple): (r: Option<UpdateRequest>)
    ensures r.Some? ==> Acts(s, r.value) && r.value.t == t && r.value in reqs
    decreases |reqs|
  {
    if reqs == [] then None
    else if Acts(s, reqs[|reqs| - 1]) && reqs[|reqs| - 1].t == t then Some(reqs[|reqs| - 1])
    else LastOn(s, reqs[..|reqs| - 1], t)
  }

  lemma {:induction false} ActingIsSeen(s: Store, reqs: seq<UpdateRequest>, i: nat)
    requires i < |reqs| && Acts(s, reqs[i])
    ensures reqs[i].id in ChangedIds(s, reqs) && LastOn(s, reqs, reqs[i].t).Some?
    decreases |reqs|
  {
    if i < |reqs| - 1 { ActingIsSeen(s, reqs[..|reqs| - 1], i); }
  }

  lemma {:induction false} ChangedByOne(s: Store, reqs: seq<UpdateRequest>, id: string) returns (i: nat)
    requires id in ChangedIds(s, reqs)
    ensures i < |reqs| && Acts(s, reqs[i]) && reqs[i].id == id
    decreases |reqs|
  {
    i := |reqs| - 1;
    if !(Acts(s, reqs[i]) && reqs[i].id == id) { i := ChangedByOne(s, reqs[..i], id); }
  }

  ghost function OwnFlagSet(v: Value): Value
    requires v.CredV? && v.cred.status.Some?
  {
    CredV(v.cred.(revoked := v.cred.status.value.purpose == Revocation, suspended := v.cred.status.value.purpose == Suspension))
  }

  /** The list that a request writes, from the store as it was before the batch. */
  ghost function ListFor(s: Store, req: UpdateRequest): BitList
    requires Holds(s, req)
  {
    BitList(s[CredKey(req.id)].cred.status.value.listID, req.t.purpose, Others(s, req.t, req.id) + {IndexAt(s, CredKey(req.id))})
  }

  ghost predicate CredsUpdated(s: Store, s': Store, changed: set<string>) {
    forall id :: if id in changed && CredKey(id) in s && s[CredKey(id)].CredV? && s[CredKey(id)].cred.status.Some?
                 then CredKey(id) in s' && s'[CredKey(id)] == OwnFlagSet(s[CredKey(id)])
                 else SameAt(s, s', CredKey(id))
  }

  ghost predicate ListsUpdated(s: Store, s': Store, reqs: seq<UpdateRequest>) {
    forall t :: match LastOn(s, reqs, t)
                case None => SameAt(s, s', ListKey(t))
                case Some(req) => ListKey(t) in s' && s'[ListKey(t)] == ListV(ListFor(s, req))
  }

  /** The batch sets the flags of the credentials it changes, and on each list it changes it leaves
      what the last request wrote. */
  ghost predicate BatchUpdated(s: Store, s': Store, reqs: seq<UpdateRequest>) {
    && CredsUpdated(s, s', ChangedIds(s, reqs))
    && ListsUpdated(s, s', reqs)
    && (forall k: Key :: k.PoolKey? || k.CursorKey? ==> SameAt(s, s', k))
  }

  ghost predicate Touches(s: Store, reqs: seq<UpdateRequest>, k: Key) {
    (k.CredKey? && k.id in ChangedIds(s, reqs)) || (k.ListKey? && LastOn(s, reqs, k.t).Some?)
  }

  /** What a committed batch of updates writes. */
  lemma {:induction false} WrittenByUpdates(s: Store, reqs: seq<UpdateRequest>)
    requires AllHold(s, reqs) && Alone(UpdateBody(reqs), s).Committing?
    ensures BatchUpdated(s, After(UpdateBody(reqs), s), reqs)
    ensures forall k :: k in Keys(Alone(UpdateBody(reqs), s).writes) <==> Touches(s, reqs, k)
    decreases |reqs|
  {
    if reqs == [] {
      assert Alone(UpdateBody(reqs), s) == Committing([], []);
    } else {
      var n := |reqs| - 1;
      var rest, last := reqs[..n], reqs[n];
      assert rest + [last] == reqs;
      SplitUpdates(s, rest, last);
      WrittenByUpdates(s, rest);
      OneMoreUpdate(s, After(UpdateBody(rest), s), rest, last);
      KeysOfConcat(Alone(UpdateBody(rest), s).writes, Alone(Update(last), s).writes);
    }
  }

  lemma SplitUpdates(s: Store, rest: seq<UpdateRequest>, last: UpdateRequest)
    requires Alone(UpdateBody(rest + [last]), s).Committing?
    ensures Alone(UpdateBody(rest), s).Committing? && Alone(Update(last), s).Committing?
    ensures Alone(UpdateBody(rest + [last]), s).outs == Alone(UpdateBody(rest), s).outs + Alone(Update(last), s).outs
    ensures Alone(UpdateBody(rest + [last]), s).writes == Alone(UpdateBody(rest), s).writes + Alone(Update(last), s).writes
    ensures After(UpdateBody(rest + [last]), s) == Apply(After(UpdateBody(rest), s), Alone(Update(last), s).writes)
  {
    assert UpdateBody(rest + [last]) == UpdateBody(rest) + [UpdateScript(last)];
    BatchSplits(UpdateBody(rest), UpdateScript(last), s);
  }

  lemma OneMoreUpdate(s: Store, s1: Store, rest: seq<UpdateRequest>, last: UpdateRequest)
    requires Holds(s, last) && last.SetsOwnFlag() && Alone(Update(last), s).Committing? && BatchUpdated(s, s1, rest)
    ensures BatchUpdated(s, Apply(s1, Alone(Update(last), s).writes), rest + [last])
    ensures forall k :: Touches(s, rest + [last], k) <==> Touches(s, rest, k) || k in Keys(Alone(Update(last), s).writes)
  {
    TouchesMore(s, rest, last);
    WritesOfOne(s, last);
    if Acts(s, last) {
      var a, b := (CredKey(last.id), OwnFlagSet(s[CredKey(last.id)])), (ListKey(last.t), ListV(ListFor(s, last)));
      ApplyFew(s1, a, b, a, b);
      LaidOver(s, s1, rest, last);
    } else {
      IdleUpdate(s, s1, rest, last);
    }
  }

  lemma WritesOfOne(s: Store, req: UpdateRequest)
    requires Holds(s, req) && req.SetsOwnFlag() && Alone(Update(req), s).Committing?
    ensures Alone(Update(req), s).writes ==
            if Acts(s, req) then [(CredKey(req.id), OwnFlagSet(s[CredKey(req.id)])), (ListKey(req.t), ListV(ListFor(s, req)))] else []
  {
    WrittenByUpdate(s, req);
    if !Acts(s, req) { UpdateDecides(s, req); }
  }

  lemma TouchesMore(s: Store, rest: seq<UpdateRequest>, last: UpdateRequest)
    ensures forall k :: Touches(s, rest + [last], k) <==> Touches(s, rest, k) || (Acts(s, last) && (k == CredKey(last.id) || k == ListKey(last.t)))
  {
    assert (rest + [last])[..|rest + [last]| - 1] == rest;
  }

  lemma IdleUpdate(s: Store, s1: Store, rest: seq<UpdateRequest>, last: UpdateRequest)
    requires !Acts(s, last) && BatchUpdated(s, s1, rest)
    ensures BatchUpdated(s, s1, rest + [last])
  {
    var reqs := rest + [last];
    assert reqs[..|reqs| - 1] == rest;
    assert forall t :: LastOn(s, reqs, t) == LastOn(s, rest, t);
    assert ListsUpdated(s, s1, reqs);
  }

  lemma LaidOver(s: Store, s1: Store, rest: seq<UpdateRequest>, last: UpdateRequest)
    requires Acts(s, last) && BatchUpdated(s, s1, rest)
    ensures BatchUpdated(s, s1[CredKey(last.id) := OwnFlagSet(s[CredKey(last.id)])][ListKey(last.t) := ListV(ListFor(s, last))], rest + [last])
  {
    var reqs := rest + [last];
    var s' := s1[CredKey(last.id) := OwnFlagSet(s[CredKey(last.id)])][ListKey(last.t) := ListV(ListFor(s, last))];
    assert reqs[..|reqs| - 1] == rest;
    assert ChangedIds(s, reqs) == ChangedIds(s, rest) + {last.id};
    assert CredsUpdated(s, s', ChangedIds(s, reqs));
    ListsLaidOver(s, s1, s', rest, last);
  }

  lemma ListsLaidOver(s: Store, s1: Store, s': Store, rest: seq<UpdateRequest>, last: UpdateRequest)
    requires Acts(s, last) && ListsUpdated(s, s1, rest)
    requires ListKey(last.t) in s' && s'[ListKey(last.t)] == ListV(ListFor(s, last))
    requires forall t :: t != last.t ==> SameAt(s1, s', ListKey(t))
    ensures ListsUpdated(s, s', rest + [last])
  {
    var reqs := rest + [last];
    assert reqs[..|reqs| - 1] == rest;
    forall t ensures LastOn(s, reqs, t) == if last.t == t then Some(last) else LastOn(s, rest, t) { }
  }

  lemma KeysOfConcat(a: seq<(Key, Value)>, b: seq<(Key, Value)>)
    ensures Keys(a + b) == Keys(a) + Keys(b)
  {
    var c := a + b;
    forall i | 0 <= i < |a| ensures a[i].0 in Keys(c) { assert c[i] == a[i]; }
    forall i | 0 <= i < |b| ensures b[i].0 in Keys(c) { assert c[|a| + i] == b[i]; }
  }

  lemma BatchMoves(s: Store, s': Store, reqs: seq<UpdateRequest>, strict: bool)
    requires Good(s, strict) && AllHold(s, reqs) && BatchUpdated(s, s', reqs)
    ensures FlagsMoved(s, s') && CredsPure(s')
  {
    forall t | LastOn(s, reqs, t).Some? ensures ListKey(t) in s && s[ListKey(t)].ListV? && s'[ListKey(t)].list.id == s[ListKey(t)].list.id {
      var req := LastOn(s, reqs, t).value;
      assert TripleGood(s, strict, t);
      assert CredKey(req.id) in Bearers(s, t);
    }
    forall id | CredKey(id) in s ensures CredKey(id) in s' && SameButFlags(s[CredKey(id)], s'[CredKey(id)]) {
      assert id in ChangedIds(s, reqs) || SameAt(s, s', CredKey(id));
    }
    forall id ensures CredKey(id) in s' <==> CredKey(id) in s { assert id in ChangedIds(s, reqs) || SameAt(s, s', CredKey(id)); }
    forall k | k in s' && k.CredKey? ensures k == CredKey(k.id) && k in s { }
    forall t ensures SameAt(s, s', PoolKey(t)) && SameAt(s, s', CursorKey(t)) && (LastOn(s, reqs, t).None? ==> SameAt(s, s', ListKey(t))) { }
  }

  /** The indexes of a triple's credentials that the batch changes. */
  ghost function NewlyFlagged(s: Store, reqs: seq<UpdateRequest>, t: Triple): set<int> {
    set k | k in Bearers(s, t) && k.id in ChangedIds(s, reqs) :: IndexAt(s, k)
  }

  lemma FlaggedAfterBatch(s: Store, s': Store, reqs: seq<UpdateRequest>, t: Triple, strict: bool)
    requires Good(s, strict) && AllHold(s, reqs) && BatchUpdated(s, s', reqs)
    ensures FlaggedIndexes(s', t) == FlaggedIndexes(s, t) + NewlyFlagged(s, reqs, t)
  {
    BatchMoves(s, s', reqs, strict);
    BearersStay(s, s', t);
    forall k | k in Bearers(s, t) ensures Flagged(s'[k].cred, t.purpose) <==> Flagged(s[k].cred, t.purpose) || k.id in ChangedIds(s, reqs) {
      assert k == CredKey(k.id);
      assert k.id in ChangedIds(s, reqs) || SameAt(s, s', k);
    }
    forall x | x in FlaggedIndexes(s', t) ensures x in FlaggedIndexes(s, t) + NewlyFlagged(s, reqs, t) {
      var k :| k in Bearers(s', t) && Flagged(s'[k].cred, t.purpose) && IndexAt(s', k) == x;
      assert k in Bearers(s, t) && IndexAt(s, k) == x;
    }
    forall x | x in FlaggedIndexes(s, t) + NewlyFlagged(s, reqs, t) ensures x in FlaggedIndexes(s', t) {
      var k :| k in Bearers(s, t) && (Flagged(s[k].cred, t.purpose) || k.id in ChangedIds(s, reqs)) && IndexAt(s, k) == x;
      assert k in Bearers(s', t) && IndexAt(s', k) == x;
    }
  }

  /** A request's list adds its own index to what was flagged before. */
  lemma ListForFlagged(s: Store, req: UpdateRequest, strict: bool)
    requires Good(s, strict) && Acts(s, req) && req.SetsOwnFlag() && ClearScan(s, req.t)
    ensures ListFor(s, req).bits == FlaggedIndexes(s, req.t) + {IndexAt(s, CredKey(req.id))}
    ensures !Flagged(s[CredKey(req.id)].cred, req.t.purpose)
  {
    var t, k0 := req.t, CredKey(req.id);
    ScanFinds(s, t, req.id);
    ScanIsExact(s, t, req.id);
    forall x | x in FlaggedIndexes(s, t) ensures x in OtherFlagged(s, t, req.id) {
      var k :| k in Bearers(s, t) && Flagged(s[k].cred, t.purpose) && IndexAt(s, k) == x;
      assert k != k0;
    }
  }

  /** Two different credentials of one list are changed. */
  ghost predicate SharesList(s: Store, reqs: seq<UpdateRequest>) {
    exists i, j :: 0 <= i < |reqs| && 0 <= j < |reqs| && Acts(s, reqs[i]) && Acts(s, reqs[j]) && reqs[i].t == reqs[j].t && reqs[i].id != reqs[j].id
  }

  /** A changed bearer of a triple belongs to a request on its list. */
  lemma ChangedOn(s: Store, reqs: seq<UpdateRequest>, t: Triple, k: Key) returns (i: nat)
    requires AllHold(s, reqs) && k in Bearers(s, t) && k.id in ChangedIds(s, reqs)
    ensures i < |reqs| && Acts(s, reqs[i]) && CredKey(reqs[i].id) == k && reqs[i].t == t && LastOn(s, reqs, t).Some?
  {
    i := ChangedByOne(s, reqs, k.id);
    ActingIsSeen(s, reqs, i);
  }

  lemma AgreesAfterBatch(s: Store, s': Store, reqs: seq<UpdateRequest>, t: Triple, strict: bool)
    requires Good(s, strict) && AllHold(s, reqs) && BatchUpdated(s, s', reqs) && ListKey(t) in s
    requires LastOn(s, reqs, t).Some? ==> ClearScan(s, t)
    ensures LastOn(s, reqs, t).None? ==> Agrees(s', t)
    ensures LastOn(s, reqs, t).Some? ==>
      (Agrees(s', t) <==> NewlyFlagged(s, reqs, t) <= FlaggedIndexes(s, t) + {IndexAt(s, CredKey(LastOn(s, reqs, t).value.id))})
  {
    if LastOn(s, reqs, t).None? {
      AgreesUnwritten(s, s', reqs, t, strict);
    } else {
      assert TripleGood(s, strict, t);
      FlaggedAfterBatch(s, s', reqs, t, strict);
      OwnIndexIsNew(s, reqs, t);
      ListForFlagged(s, LastOn(s, reqs, t).value, strict);
      OneForAll(FlaggedIndexes(s, t), IndexAt(s, CredKey(LastOn(s, reqs, t).value.id)), NewlyFlagged(s, reqs, t));
    }
  }

  lemma OneForAll(xs: set<int>, x: int, more: set<int>)
    requires x in more
    ensures xs + {x} == xs + more <==> more <= xs + {x}
  {
  }

  lemma AgreesUnwritten(s: Store, s': Store, reqs: seq<UpdateRequest>, t: Triple, strict: bool)
    requires Good(s, strict) && AllHold(s, reqs) && BatchUpdated(s, s', reqs) && ListKey(t) in s && LastOn(s, reqs, t).None?
    ensures Agrees(s', t)
  {
    assert TripleGood(s, strict, t);
    FlaggedAfterBatch(s, s', reqs, t, strict);
    NothingNew(s, reqs, t);
    assert SameAt(s, s', ListKey(t));
  }

  lemma NothingNew(s: Store, reqs: seq<UpdateRequest>, t: Triple)
    requires AllHold(s, reqs) && LastOn(s, reqs, t).None?
    ensures NewlyFlagged(s, reqs, t) == {}
  {
    forall k | k in Bearers(s, t) ensures k.id !in ChangedIds(s, reqs) {
      if k.id in ChangedIds(s, reqs) { var i := ChangedOn(s, reqs, t, k); }
    }
  }

  lemma OwnIndexIsNew(s: Store, reqs: seq<UpdateRequest>, t: Triple)
    requires AllHold(s, reqs) && LastOn(s, reqs, t).Some?
    ensures LastOn(s, reqs, t).value.SetsOwnFlag()
    ensures IndexAt(s, CredKey(LastOn(s, reqs, t).value.id)) in NewlyFlagged(s, reqs, t)
  {
    var req := LastOn(s, reqs, t).value;
    var i: nat :| i < |reqs| && reqs[i] == req;
    ActingIsSeen(s, reqs, i);
    assert CredKey(req.id) in Bearers(s, t);
  }

  /** When no two credentials of a list are changed, the one index written is all that is new. */
  lemma OneIndexNew(s: Store, reqs: seq<UpdateRequest>, t: Triple)
    requires AllHold(s, reqs) && !SharesList(s, reqs) && LastOn(s, reqs, t).Some?
    ensures NewlyFlagged(s, reqs, t) <= {IndexAt(s, CredKey(LastOn(s, reqs, t).value.id))}
  {
    var req := LastOn(s, reqs, t).value;
    var j: nat :| j < |reqs| && reqs[j] == req;
    forall k | k in Bearers(s, t) && k.id in ChangedIds(s, reqs) ensures k == CredKey(req.id) {
      var i := ChangedOn(s, reqs, t, k);
    }
  }

  /** When two are, and indexes are distinct, one of them is missing. */
  lemma TwoIndexesNew(s: Store, reqs: seq<UpdateRequest>, i: nat, j: nat, strict: bool)
    requires Good(s, strict) && AllHold(s, reqs) && i < |reqs| && j < |reqs|
    requires Acts(s, reqs[i]) && Acts(s, reqs[j]) && reqs[i].t == reqs[j].t && reqs[i].id != reqs[j].id
    requires Distinct(s, reqs[i].t) && ClearScan(s, reqs[i].t)
    ensures var t := reqs[i].t;
      LastOn(s, reqs, t).Some? && !(NewlyFlagged(s, reqs, t) <= FlaggedIndexes(s, t) + {IndexAt(s, CredKey(LastOn(s, reqs, t).value.id))})
  {
    var t := reqs[i].t;
    ActingIsSeen(s, reqs, i);
    ActingIsSeen(s, reqs, j);
    var last := LastOn(s, reqs, t).value;
    var lost := if last.id == reqs[i].id then reqs[j] else reqs[i];
    var k := CredKey(lost.id);
    assert k in Bearers(s, t) && CredKey(last.id) in Bearers(s, t) && IndexAt(s, k) in NewlyFlagged(s, reqs, t);
    ListForFlagged(s, lost, strict);
    forall k' | k' in Bearers(s, t) && Flagged(s[k'].cred, t.purpose) ensures IndexAt(s, k') != IndexAt(s, k) { assert k' != k; }
  }

  /** A batch of updates, each setting its credential's own flag, leaves a good store if no list has
      two different credentials changed by it. */
  lemma UpdatesKeepGood(s: Store, s': Store, reqs: seq<UpdateRequest>, strict: bool)
    requires Good(s, strict) && AllHold(s, reqs) && BatchUpdated(s, s', reqs) && !SharesList(s, reqs)
    requires forall i :: 0 <= i < |reqs| ==> ClearScan(s, reqs[i].t)
    ensures Good(s', strict)
  {
    BatchMoves(s, s', reqs, strict);
    forall t | ListKey(t) in s ensures Agrees(s', t) {
      AgreesAfterBatch(s, s', reqs, t, strict);
      if LastOn(s, reqs, t).Some? { OneIndexNew(s, reqs, t); }
    }
    MovedGood(s, s', strict);
  }

  /** And only if, while the triples have handed out no index twice: exactly then all lists agree
      with the flags after a batch of any length. */
  lemma GoodAfterUpdates(s: Store, reqs: seq<UpdateRequest>, strict: bool)
    requires Good(s, strict) && AllHold(s, reqs) && Alone(UpdateBody(reqs), s).Committing?
    requires forall i :: 0 <= i < |reqs| ==> ClearScan(s, reqs[i].t) && |Bearers(s, reqs[i].t)| <= BIT_STRING_LENGTH
    ensures Good(After(UpdateBody(reqs), s), strict) <==> !SharesList(s, reqs)
  {
    var s' := After(UpdateBody(reqs), s);
    WrittenByUpdates(s, reqs);
    if SharesList(s, reqs) {
      var i, j :| 0 <= i < |reqs| && 0 <= j < |reqs| && Acts(s, reqs[i]) && Acts(s, reqs[j]) && reqs[i].t == reqs[j].t && reqs[i].id != reqs[j].id;
      SharedListIsWrong(s, s', reqs, i, j, strict);
    } else {
      UpdatesKeepGood(s, s', reqs, strict);
    }
  }

  lemma SharedListIsWrong(s: Store, s': Store, reqs: seq<UpdateRequest>, i: nat, j: nat, strict: bool)
    requires Good(s, strict) && AllHold(s, reqs) && BatchUpdated(s, s', reqs) && i < |reqs| && j < |reqs|
    requires Acts(s, reqs[i]) && Acts(s, reqs[j]) && reqs[i].t == reqs[j].t && reqs[i].id != reqs[j].id
    requires ClearScan(s, reqs[i].t) && |Bearers(s, reqs[i].t)| <= BIT_STRING_LENGTH
    ensures !TripleGood(s', strict, reqs[i].t)
  {
    var t := reqs[i].t;
    HolderHasList(s, reqs[i], strict);
    TwoIndexesNew(s, reqs, i, j, strict);
    AgreesAfterBatch(s, s', reqs, t, strict);
    assert ListsUpdated(s, s', reqs);
    assert ListKey(t) in s';
  }

  lemma HolderHasList(s: Store, req: UpdateRequest, strict: bool)
    requires Good(s, strict) && Holds(s, req)
    ensures ListKey(req.t) in s && ListExists(s, req.t) && (|Bearers(s, req.t)| <= BIT_STRING_LENGTH ==> Distinct(s, req.t))
  {
    assert TripleGood(s, strict, req.t) && CredKey(req.id) in Bearers(s, req.t);
  }

  /** To a triple whose list the batch does not write, and whose scan cannot mistake anything, the
      batch makes no difference at all. */
  lemma UpdatesAreQuiet(s: Store, s': Store, reqs: seq<UpdateRequest>, t: Triple, strict: bool)
    requires Good(s, strict) && AllHold(s, reqs) && BatchUpdated(s, s', reqs)
    requires ClearScan(s, t) && LastOn(s, reqs, t).None?
    ensures Quiet(s, s', t)
  {
    BatchMoves(s, s', reqs, strict);
    forall k | k in Bearers(s, t) ensures k in s' && s'[k] == s[k] {
      if k.id in ChangedIds(s, reqs) { var i := ChangedOn(s, reqs, t, k); }
      assert k == CredKey(k.id) && SameAt(s, s', k);
    }
    forall k: Key | k.CredKey? && k in s ensures s'[k].CredV? && (IsMarked(s'[k], t) ==> Bears(s[k], t)) && (IsMarked(s[k], t) ==> Bears(s[k], t)) {
      assert k == CredKey(k.id);
      assert SameButFlags(s[k], s'[k]) && CredPicked(s'[k].cred, t) == CredPicked(s[k].cred, t) by { assert s'[k].cred.Name() == s[k].cred.Name(); }
      assert !Mistakable(s[k].cred, t);
    }
    forall m | m in Marked(s, t) ensures m in Marked(s', t) {
      var k :| k in s && k.CredKey? && IsMarked(s[k], t) && m == (k.id, s[k].cred.status.value.index);
      assert k in Bearers(s, t);
    }
    forall m | m in Marked(s', t) ensures m in Marked(s, t) {
      var k :| k in s' && k.CredKey? && IsMarked(s'[k], t) && m == (k.id, s'[k].cred.status.value.index);
      assert k == CredKey(k.id) && k in s && k in Bearers(s, t);
    }
  }

  /** The smallest such batch: both flags are set, and the list has the second index alone. */
  lemma BatchOfTwoUpdatesLosesABit(s: Store, a: UpdateRequest, b: UpdateRequest, strict: bool)
    requires Good(s, strict) && AllHold(s, [a, b]) && Acts(s, a) && Acts(s, b) && a.t == b.t && a.id != b.id
    requires ClearScan(s, a.t) && |Bearers(s, a.t)| <= BIT_STRING_LENGTH
    requires Alone(UpdateBody([a, b]), s).Committing?
    ensures
      var s', t := After(UpdateBody([a, b]), s), a.t;
      && CredKey(a.id) in Bearers(s', t) && Flagged(s'[CredKey(a.id)].cred, t.purpose)
      && CredKey(b.id) in Bearers(s', t) && Flagged(s'[CredKey(b.id)].cred, t.purpose)
      && ListKey(t) in s' && s'[ListKey(t)].ListV?
      && IndexAt(s', CredKey(b.id)) in s'[ListKey(t)].list.bits && IndexAt(s', CredKey(a.id)) !in s'[ListKey(t)].list.bits
  {
    var reqs, t, s' := [a, b], a.t, After(UpdateBody([a, b]), s);
    assert TripleGood(s, strict, t);
    WrittenByUpdates(s, reqs);
    TwoRequests(s, a, b);
    BatchMoves(s, s', reqs, strict);
    BearersStay(s, s', t);
    assert CredKey(a.id) in Bearers(s, t) && CredKey(b.id) in Bearers(s, t);
    assert s'[ListKey(t)] == ListV(ListFor(s, b));
    FirstIsMissing(s, a, b, strict);
  }

  lemma FirstIsMissing(s: Store, a: UpdateRequest, b: UpdateRequest, strict: bool)
    requires Good(s, strict) && Acts(s, a) && Acts(s, b) && a.SetsOwnFlag() && b.SetsOwnFlag() && a.t == b.t && a.id != b.id
    requires ClearScan(s, a.t) && Distinct(s, a.t)
    ensures IndexAt(s, CredKey(a.id)) !in ListFor(s, b).bits && IndexAt(s, CredKey(b.id)) in ListFor(s, b).bits
  {
    ListForFlagged(s, a, strict);
    ListForFlagged(s, b, strict);
    var k := CredKey(a.id);
    assert k in Bearers(s, a.t) && CredKey(b.id) in Bearers(s, a.t);
    forall k' | k' in Bearers(s, a.t) && Flagged(s[k'].cred, a.t.purpose) ensures IndexAt(s, k') != IndexAt(s, k) { assert k' != k; }
  }

  lemma TwoRequests(s: Store, a: UpdateRequest, b: UpdateRequest)
    requires Acts(s, a) && Acts(s, b)
    ensures a.id in ChangedIds(s, [a, b]) && b.id in ChangedIds(s, [a, b]) && LastOn(s, [a, b], b.t) == Some(b)
  {
    var reqs := [a, b];
    assert reqs[0] == a && reqs[1] == b;
    ActingIsSeen(s, reqs, 0);
    ActingIsSeen(s, reqs, 1);
  }
}
