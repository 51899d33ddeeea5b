/** One create or update of a credential status, run alone on a good store. */
module StatusSteps {
  import opened Wrappers
  import opened Kernel
  import ScanKeys
  import opened Status

  ghost function Create(req: CreateRequest, strict: bool): seq<Script<Key, Value, Reply, Response>> { [CreateScript(req, strict)] }

  ghost function Update(req: UpdateRequest): seq<Script<Key, Value, Reply, Response>> { [UpdateScript(req)] }

  /** The scan for a triple's list finds exactly that list, unless the key of another one is taken
      for it. */
  lemma FindListExact(s: Store, t: Triple)
    ensures ClearLists(s, t) ==> FindList(t)(s) == Lookup(ListKey(t))(s)
    ensures ListKey(t) in s ==> ListKey(t) in ListsFound(s, t)
    ensures ListsFound(s, t) <= {ListKey(t)} <==> ClearLists(s, t)
  {
    ScanKeys.OwnKeyMatches(t.Name());
    assert forall k: Key :: k.ListKey? && k.t == t ==> k == ListKey(t);
    var found := ListsFound(s, t);
    forall k | k in s && k.ListKey? ensures k in found <==> ListPicked(k.t, t) { }
    if ClearLists(s, t) {
      assert found == if ListKey(t) in s then {ListKey(t)} else {};
    }
  }

  predicate IsList(reply: Reply) { reply.Found? && reply.v.Some? && reply.v.value.ListV? }

  /** The reads of a create, and the decision taken on them. */
  lemma CreateDecides(s: Store, req: CreateRequest, strict: bool)
    ensures
      var t := req.StatusTriple();
      var rs := if !req.IsStatusValid() || !req.HasStatus() then [] else
                if !IsList(FindList(t)(s)) then [FindList(t)(s)] else
                if !IsPool(Lookup(PoolKey(t))(s)) then [FindList(t)(s), Lookup(PoolKey(t))(s)] else
                [FindList(t)(s), Lookup(PoolKey(t))(s), Lookup(CursorKey(t))(s), Lookup(CursorKey(t))(s)];
      Alone(Create(req, strict), s) == Decided(CreateAct(req, strict, rs))
  {
    var t := req.StatusTriple();
    DecidesOn(s, req, strict, FindList(t)(s), Lookup(PoolKey(t))(s), Lookup(CursorKey(t))(s));
  }

  /** What an outcome of a single function says of its last action. */
  ghost function Decided(action: Action<Key, Value, Reply, Response>): Outcome<Key, Value, Response> {
    match action
    case Commit(out, writes) => Committing([out], writes)
    case Abort(err) => Aborting(err)
    case Ask(_) => Aborting("too many reads")
  }

  predicate IsPool(reply: Reply) { reply.Found? && reply.v.Some? && reply.v.value.PoolV? && reply.v.value.pool != [] }

  lemma DecidesOn(s: Store, req: CreateRequest, strict: bool, l: Reply, p: Reply, c: Reply)
    requires l == FindList(req.StatusTriple())(s) && p == Lookup(PoolKey(req.StatusTriple()))(s) && c == Lookup(CursorKey(req.StatusTriple()))(s)
    ensures
      var rs := if !req.IsStatusValid() || !req.HasStatus() then [] else if !IsList(l) then [l] else if !IsPool(p) then [l, p] else [l, p, c, c];
      Alone(Create(req, strict), s) == Decided(CreateAct(req, strict, rs))
  {
    var f := CreateScript(req, strict);
    OneTurn(f, [], s);
    if req.IsStatusValid() && req.HasStatus() {
      assert [] + [l] == [l];
      OneTurn(f, [l], s);
      if IsList(l) {
        AllocationTurns(s, req, strict, l, p, c);
      }
    }
  }

  /** The reads that follow once there is a list. */
  lemma AllocationTurns(s: Store, req: CreateRequest, strict: bool, l: Reply, p: Reply, c: Reply)
    requires p == Lookup(PoolKey(req.StatusTriple()))(s) && c == Lookup(CursorKey(req.StatusTriple()))(s)
    requires req.IsStatusValid() && req.HasStatus() && IsList(l)
    ensures From(Create(req, strict), 0, [l], [], [], s) == Decided(CreateAct(req, strict, if IsPool(p) then [l, p, c, c] else [l, p]))
  {
    var f := CreateScript(req, strict);
    assert [l][1..] == [] && [l, p][1..] == [p];
    OneTurn(f, [l], s);
    assert [l] + [p] == [l, p];
    OneTurn(f, [l, p], s);
    if IsPool(p) {
      assert [l, p] + [c] == [l, p, c] && [l, p, c][1..] == [p, c];
      OneTurn(f, [l, p, c], s);
      assert [l, p, c] + [c] == [l, p, c, c] && [l, p, c, c][1..] == [p, c, c];
      OneTurn(f, [l, p, c, c], s);
    }
  }

  lemma UpdateDecides(s: Store, req: UpdateRequest)
    ensures
      var rs := if req.suspended && req.revoked then [] else
                if CredKey(req.id) !in s || !s[CredKey(req.id)].CredV? then [Lookup(CredKey(req.id))(s)] else
                var got := s[CredKey(req.id)].cred;
                if (got.revoked == req.revoked && got.suspended == req.suspended) || got.status.None? then [Lookup(CredKey(req.id))(s)] else
                [Lookup(CredKey(req.id))(s), ScanOthers(req)(s)];
      Alone(Update(req), s) == Decided(UpdateAct(req, rs))
  {
    var f, g, x := UpdateScript(req), Lookup(CredKey(req.id))(s), ScanOthers(req)(s);
    OneTurn(f, [], s);
    if !(req.suspended && req.revoked) {
      assert [] + [g] == [g];
      OneTurn(f, [g], s);
      if UpdateAct(req, [g]).Ask? {
        assert [g] + [x] == [g, x];
        OneTurn(f, [g, x], s);
      }
    }
  }

  /** The stores differ, among credentials, by one new unflagged credential. */
  ghost predicate Adds(s: Store, s': Store, c: Cred) {
    && CredKey(c.id) !in s && CredKey(c.id) in s' && s'[CredKey(c.id)] == CredV(c)
    && !c.revoked && !c.suspended
    && forall id :: id != c.id ==> (CredKey(id) in s <==> CredKey(id) in s') && (CredKey(id) in s ==> s'[CredKey(id)] == s[CredKey(id)])
  }

  lemma AddsBearer(s: Store, s': Store, c: Cred, t: Triple)
    requires Adds(s, s', c)
    ensures Bearers(s', t) == Bearers(s, t) + if c.status.Some? && TripleOf(c) == t then {CredKey(c.id)} else {}
    ensures CredKey(c.id) !in Bearers(s, t)
    ensures Quiet(s, s', t)
  {
    forall k | k in s && k.CredKey? ensures k in s' && s'[k] == s[k] { assert k == CredKey(k.id); }
    forall k | k in s' && k.CredKey? && k != CredKey(c.id) ensures k in s && s'[k] == s[k] { assert k == CredKey(k.id); }
    forall m | m in Marked(s, t) ensures m in Marked(s', t) {
      var k :| k in s && k.CredKey? && IsMarked(s[k], t) && m == (k.id, s[k].cred.status.value.index);
      assert k in s' && s'[k] == s[k];
    }
    forall m | m in Marked(s', t) ensures m in Marked(s, t) {
      var k :| k in s' && k.CredKey? && IsMarked(s'[k], t) && m == (k.id, s'[k].cred.status.value.index);
      assert k in s && s'[k] == s[k];
    }
  }

  /** A triple whose list, pool and cursor stay, and that gains no bearer, stays good. */
  lemma UntouchedTriple(s: Store, s': Store, strict: bool, c: Cred, t: Triple)
    requires Adds(s, s', c) && TripleGood(s, strict, t) && !(c.status.Some? && TripleOf(c) == t)
    requires forall k :: k == ListKey(t) || k == PoolKey(t) || k == CursorKey(t) ==> (k in s <==> k in s') && (k in s ==> s'[k] == s[k])
    ensures TripleGood(s', strict, t)
  {
    AddsBearer(s, s', c, t);
    assert Bearers(s', t) == Bearers(s, t);
    assert forall k :: k in Bearers(s, t) ==> s'[k] == s[k];
    SameBearers(s, s', strict, t);
  }

  /** Bearers, list, pool and cursor as they were leave a triple as good as it was. */
  lemma SameBearers(s: Store, s': Store, strict: bool, t: Triple)
    requires TripleGood(s, strict, t) && Bearers(s', t) == Bearers(s, t)
    requires forall k :: k in Bearers(s, t) ==> s'[k] == s[k]
    requires forall k :: k == ListKey(t) || k == PoolKey(t) || k == CursorKey(t) ==> (k in s <==> k in s') && (k in s ==> s'[k] == s[k])
    ensures TripleGood(s', strict, t)
  {
    assert (set k | k in Bearers(s, t) && Flagged(s[k].cred, t.purpose) :: IndexAt(s, k))
        == (set k | k in Bearers(s', t) && Flagged(s'[k].cred, t.purpose) :: IndexAt(s', k));
  }

  /** The triple that hands out an index stays good. */
  lemma AllocatingTriple(s: Store, s': Store, strict: bool, c: Cred, t: Triple)
    requires Adds(s, s', c) && TripleGood(s, strict, t) && c.status.Some? && TripleOf(c) == t
    requires ListExists(s', t) && c.status.value.listID == s'[ListKey(t)].list.id
    requires
      if ListKey(t) in s then
        var cursor := s[CursorKey(t)].cursor;
        && ListExists(s, t)
        && s'[ListKey(t)] == s[ListKey(t)] && s'[PoolKey(t)] == s[PoolKey(t)]
        && c.status.value.index == s[PoolKey(t)].pool[cursor]
        && s'[CursorKey(t)].cursor == (if cursor >= BIT_STRING_LENGTH - 1 then cursor else cursor + 1)
        && !(strict && cursor >= BIT_STRING_LENGTH - 1)
      else
        && s'[CursorKey(t)].cursor == 1 && s'[ListKey(t)].list.bits == {}
        && c.status.value.index == s'[PoolKey(t)].pool[0]
    ensures TripleGood(s', strict, t)
  {
    AddsBearer(s, s', c, t);
    assert Bearers(s', t) == Bearers(s, t) + {CredKey(c.id)};
    assert |Bearers(s', t)| == |Bearers(s, t)| + 1;
    AgreesKept(s, s', c, t);
    AllocationKept(s, s', c, t);
    ListNamed(s, s', c, t);
  }

  /** All bearers, the new one too, name the list that is there. */
  lemma ListNamed(s: Store, s': Store, c: Cred, t: Triple)
    requires Adds(s, s', c) && c.status.Some? && TripleOf(c) == t && ListExists(s', t) && c.status.value.listID == s'[ListKey(t)].list.id
    requires if ListKey(t) in s then s'[ListKey(t)] == s[ListKey(t)] && forall k :: k in Bearers(s, t) ==> s[k].cred.status.value.listID == s[ListKey(t)].list.id
             else Bearers(s, t) == {}
    ensures forall k :: k in Bearers(s', t) ==> s'[k].cred.status.value.listID == s'[ListKey(t)].list.id
  {
    AddsBearer(s, s', c, t);
    assert forall k :: k in Bearers(s, t) ==> s'[k] == s[k];
  }

  lemma AllocationKept(s: Store, s': Store, c: Cred, t: Triple)
    requires Adds(s, s', c) && c.status.Some? && TripleOf(c) == t && ListExists(s', t)
    requires
      if ListKey(t) in s then
        && ListExists(s, t) && Allocated(s, t) && s'[PoolKey(t)] == s[PoolKey(t)]
        && c.status.value.index == s[PoolKey(t)].pool[s[CursorKey(t)].cursor]
        && s'[CursorKey(t)].cursor == Min(s[CursorKey(t)].cursor + 1, BIT_STRING_LENGTH - 1)
      else Bearers(s, t) == {} && s'[CursorKey(t)].cursor == 1 && c.status.value.index == s'[PoolKey(t)].pool[0]
    ensures Allocated(s', t)
  {
    if ListKey(t) in s && |Bearers(s, t)| >= BIT_STRING_LENGTH {
      LastIndexAgain(s, s', c, t);
    } else {
      NextIndexIsNew(s, s', c, t, |Bearers(s, t)|);
    }
  }

  lemma AgreesKept(s: Store, s': Store, c: Cred, t: Triple)
    requires Adds(s, s', c) && ListExists(s', t) && c.status.Some? && TripleOf(c) == t
    requires if ListKey(t) in s then Agrees(s, t) && s'[ListKey(t)] == s[ListKey(t)] else Bearers(s, t) == {} && s'[ListKey(t)].list.bits == {}
    ensures Agrees(s', t)
  {
    AddsBearer(s, s', c, t);
    assert !Flagged(c, t.purpose);
    assert forall k :: k in Bearers(s, t) ==> s'[k] == s[k];
    var flagged := set k | k in Bearers(s, t) && Flagged(s[k].cred, t.purpose) :: IndexAt(s, k);
    var flagged' := set k | k in Bearers(s', t) && Flagged(s'[k].cred, t.purpose) :: IndexAt(s', k);
    assert flagged == flagged';
  }

  /** The pool entry at the cursor is held by nobody yet. */
  lemma NextIndexIsNew(s: Store, s': Store, c: Cred, t: Triple, n: nat)
    requires Adds(s, s', c) && ListExists(s', t) && c.status.Some? && TripleOf(c) == t
    requires n < BIT_STRING_LENGTH && c.status.value.index == s'[PoolKey(t)].pool[n]
    requires s'[CursorKey(t)].cursor == Min(n + 1, BIT_STRING_LENGTH - 1)
    requires |Bearers(s, t)| == n && Distinct(s, t)
    requires forall k :: k in Bearers(s, t) ==> IndexAt(s, k) in s'[PoolKey(t)].pool[..n]
    ensures Allocated(s', t)
    ensures forall k :: k in Bearers(s, t) ==> IndexAt(s, k) != c.status.value.index
  {
    AddsBearer(s, s', c, t);
    var k0 := CredKey(c.id);
    var pool := s'[PoolKey(t)].pool;
    assert Bearers(s', t) == Bearers(s, t) + {k0};
    assert |Bearers(s', t)| == n + 1;
    assert IndexAt(s', k0) == pool[n] == pool[..n + 1][n];
    forall k | k in Bearers(s, t)
      ensures s'[k] == s[k] && IndexAt(s', k) in pool[..n + 1] && IndexAt(s', k) != IndexAt(s', k0)
    {
      var i :| 0 <= i < n && pool[..n][i] == IndexAt(s, k);
      assert pool[..n + 1][i] == pool[i] != pool[n];
    }
  }

  /** Once all indexes are handed out the last one is handed out again. */
  lemma LastIndexAgain(s: Store, s': Store, c: Cred, t: Triple)
    requires Adds(s, s', c) && ListExists(s', t) && c.status.Some? && TripleOf(c) == t
    requires c.status.value.index == s'[PoolKey(t)].pool[BIT_STRING_LENGTH - 1] && s'[CursorKey(t)].cursor == BIT_STRING_LENGTH - 1
    requires |Bearers(s, t)| >= BIT_STRING_LENGTH
    requires forall k :: k in Bearers(s, t) ==> IndexAt(s, k) in s'[PoolKey(t)].pool[..BIT_STRING_LENGTH]
    ensures Allocated(s', t)
  {
    AddsBearer(s, s', c, t);
    var k0 := CredKey(c.id);
    var pool := s'[PoolKey(t)].pool;
    assert Bearers(s', t) == Bearers(s, t) + {k0};
    assert |Bearers(s', t)| == |Bearers(s, t)| + 1;
    assert IndexAt(s', k0) == pool[..BIT_STRING_LENGTH][BIT_STRING_LENGTH - 1];
    assert forall k :: k in Bearers(s, t) ==> s'[k] == s[k];
  }

  predicate CreatedFor(c: Cred, req: CreateRequest) {
    && c.Name() == req.NewCred(None).Name()
    && if req.HasStatus() then c.status.Some? && TripleOf(c) == req.StatusTriple() else c.status.None?
  }

  lemma AddsKeepsPure(s: Store, s': Store, c: Cred)
    requires Adds(s, s', c) && CredsPure(s)
    ensures CredsPure(s')
  {
    forall k | k in s' && k.CredKey? && k.id != c.id ensures k in s && s'[k] == s[k] { assert k == CredKey(k.id); }
  }

  /** What a committed create writes: its credential, and for a status-bearing one either the
      pool, cursor and list of a new triple or, up to the limit, the next cursor. */
  lemma WrittenByCreate(s: Store, req: CreateRequest, strict: bool)
    requires TripleGood(s, strict, req.StatusTriple()) && (req.HasStatus() ==> ClearLists(s, req.StatusTriple())) && IsShuffle(req.shuffle)
    requires Alone(Create(req, strict), s).Committing?
    ensures
      var outcome := Alone(Create(req, strict), s);
      && |outcome.outs| == 1 && outcome.outs[0].Created?
      && CreatedFor(outcome.outs[0].cred, req) && !outcome.outs[0].cred.revoked && !outcome.outs[0].cred.suspended
      && Written(s, After(Create(req, strict), s), req, strict, outcome.outs[0].cred)
      && outcome.writes == WriteList(s, req, outcome.outs[0].cred)
  {
    var c := req.NewCred(StatusFor(s, req));
    if req.HasStatus() { StatusOutcome(s, req, strict); } else { PlainOutcome(s, req, strict); }
    AppliedCreate(s, req, strict, c);
  }

  /** The status entry that a create gives its credential. */
  ghost function StatusFor(s: Store, req: CreateRequest): Option<Entry>
    requires req.HasStatus() && ListKey(req.StatusTriple()) in s ==> ListExists(s, req.StatusTriple())
    requires IsShuffle(req.shuffle)
  {
    var t := req.StatusTriple();
    if !req.HasStatus() then None
    else if ListKey(t) !in s then Some(Entry(t.purpose, req.shuffle[0], req.listID))
    else Some(Entry(t.purpose, s[PoolKey(t)].pool[s[CursorKey(t)].cursor], s[ListKey(t)].list.id))
  }

  lemma PlainOutcome(s: Store, req: CreateRequest, strict: bool)
    requires !req.HasStatus() && IsShuffle(req.shuffle) && Alone(Create(req, strict), s).Committing?
    ensures var c := req.NewCred(None); Alone(Create(req, strict), s) == Committing([Created(c)], WriteList(s, req, c))
  {
    CreateDecides(s, req, strict);
  }

  lemma StatusOutcome(s: Store, req: CreateRequest, strict: bool)
    requires req.HasStatus() && ClearLists(s, req.StatusTriple()) && IsShuffle(req.shuffle) && Alone(Create(req, strict), s).Committing?
    requires ListKey(req.StatusTriple()) in s ==> ListExists(s, req.StatusTriple())
    ensures var c := req.NewCred(StatusFor(s, req)); Alone(Create(req, strict), s) == Committing([Created(c)], WriteList(s, req, c))
    ensures ListKey(req.StatusTriple()) in s && s[CursorKey(req.StatusTriple())].cursor >= BIT_STRING_LENGTH - 1 ==> !strict
  {
    var t := req.StatusTriple();
    CreateDecides(s, req, strict);
    FindListExact(s, t);
    if ListKey(t) in s {
      AllocatedOutcome(s, req, strict, Lookup(ListKey(t))(s), Lookup(PoolKey(t))(s), Lookup(CursorKey(t))(s));
    }
  }

  lemma AllocatedOutcome(s: Store, req: CreateRequest, strict: bool, l: Reply, p: Reply, c: Reply)
    requires req.HasStatus() && req.IsStatusValid() && IsShuffle(req.shuffle) && ListExists(s, req.StatusTriple())
    requires var t := req.StatusTriple(); l == Lookup(ListKey(t))(s) && p == Lookup(PoolKey(t))(s) && c == Lookup(CursorKey(t))(s)
    ensures IsPool(p)
    ensures
      var cred, limit := req.NewCred(StatusFor(s, req)), s[CursorKey(req.StatusTriple())].cursor >= BIT_STRING_LENGTH - 1;
      Decided(CreateAct(req, strict, [l, p, c, c])) ==
        if limit && strict then Aborting("no more indexes available for status list index")
        else if !req.builds then Aborting("could not build credential")
        else Committing([Created(cred)], WriteList(s, req, cred))
  {
    assert [l, p, c, c][1..] == [p, c, c];
  }

  /** What the writes of a create make of the store. */
  lemma AppliedCreate(s: Store, req: CreateRequest, strict: bool, c: Cred)
    requires IsShuffle(req.shuffle) && (req.HasStatus() && ListKey(req.StatusTriple()) in s ==> ListExists(s, req.StatusTriple()))
    requires c == req.NewCred(StatusFor(s, req))
    requires req.HasStatus() && ListKey(req.StatusTriple()) in s && s[CursorKey(req.StatusTriple())].cursor >= BIT_STRING_LENGTH - 1 ==> !strict
    ensures Written(s, Apply(s, WriteList(s, req, c)), req, strict, c)
  {
    var t, w := req.StatusTriple(), WriteList(s, req, c);
    if req.HasStatus() && ListKey(t) !in s {
      assert w == [w[0], w[1], w[2], w[3]];
      ApplyFew(s, w[0], w[1], w[2], w[3]);
    } else if req.HasStatus() && s[CursorKey(t)].cursor < BIT_STRING_LENGTH - 1 {
      assert w == [w[0], w[1]];
      ApplyFew(s, w[0], w[1], w[0], w[0]);
    } else {
      assert w == [w[0]];
      ApplyFew(s, w[0], w[0], w[0], w[0]);
    }
  }

  ghost function WriteList(s: Store, req: CreateRequest, c: Cred): seq<(Key, Value)>
    requires req.HasStatus() && ListKey(req.StatusTriple()) in s ==> ListExists(s, req.StatusTriple())
  {
    var t := req.StatusTriple();
    (if !req.HasStatus() then []
     else if ListKey(t) !in s then
       [(PoolKey(t), PoolV(req.shuffle)), (CursorKey(t), CursorV(1)), (ListKey(t), ListV(BitList(req.listID, t.purpose, {})))]
     else if s[CursorKey(t)].cursor >= BIT_STRING_LENGTH - 1 then []
     else [(CursorKey(t), CursorV(s[CursorKey(t)].cursor + 1))])
    + [(CredKey(req.id), CredV(c))]
  }

  ghost predicate Written(s: Store, s': Store, req: CreateRequest, strict: bool, c: Cred)
    requires IsShuffle(req.shuffle)
    requires req.HasStatus() && ListKey(req.StatusTriple()) in s ==> ListExists(s, req.StatusTriple())
  {
    var t := req.StatusTriple();
    var cred := CredV(c);
    if !req.HasStatus() then s' == s[CredKey(req.id) := cred]
    else if ListKey(t) !in s then
      && s' == s[PoolKey(t) := PoolV(req.shuffle)][CursorKey(t) := CursorV(1)][ListKey(t) := ListV(BitList(req.listID, t.purpose, {}))][CredKey(req.id) := cred]
      && c.status == Some(Entry(t.purpose, req.shuffle[0], req.listID))
    else
      var cursor := s[CursorKey(t)].cursor;
      && c.status == Some(Entry(t.purpose, s[PoolKey(t)].pool[cursor], s[ListKey(t)].list.id))
      && if cursor >= BIT_STRING_LENGTH - 1 then !strict && s' == s[CredKey(req.id) := cred]
         else s' == s[CursorKey(t) := CursorV(cursor + 1)][CredKey(req.id) := cred]
  }

  lemma WrittenKeepsGood(s: Store, s': Store, req: CreateRequest, strict: bool, c: Cred)
    requires Good(s, strict) && CredKey(req.id) !in s && IsShuffle(req.shuffle)
    requires CreatedFor(c, req) && !c.revoked && !c.suspended
    requires req.HasStatus() && ListKey(req.StatusTriple()) in s ==> ListExists(s, req.StatusTriple())
    requires Written(s, s', req, strict, c)
    ensures Adds(s, s', c) && Good(s', strict)
    ensures forall t :: Quiet(s, s', t)
  {
    AddsKeepsPure(s, s', c);
    forall t ensures Quiet(s, s', t) { AddsBearer(s, s', c, t); }
    forall t ensures TripleGood(s', strict, t) {
      assert TripleGood(s, strict, t);
      if req.HasStatus() && t == req.StatusTriple() {
        AllocatingTriple(s, s', strict, c, t);
      } else {
        UntouchedTriple(s, s', strict, c, t);
      }
    }
  }

  // ---- Updates ----

  ghost predicate Holds(s: Store, req: UpdateRequest) {
    CredKey(req.id) in s && Bears(s[CredKey(req.id)], req.t)
  }

  ghost predicate NoAction(s: Store, req: UpdateRequest)
    requires Holds(s, req)
  {
    s[CredKey(req.id)].cred.revoked == req.revoked && s[CredKey(req.id)].cred.suspended == req.suspended
  }

  /** The indexes of the other bearers that carry their triple's flag. */
  ghost function OtherFlagged(s: Store, t: Triple, id: string): set<int> {
    set k | k in Bearers(s, t) && k != CredKey(id) && Flagged(s[k].cred, t.purpose) :: IndexAt(s, k)
  }

  ghost function UpdatedStore(s: Store, req: UpdateRequest, bits: set<int>): Store
    requires Holds(s, req)
  {
    var got := s[CredKey(req.id)].cred;
    s[CredKey(req.id) := CredV(got.(revoked := req.revoked, suspended := req.suspended))]
     [ListKey(req.t) := ListV(BitList(got.status.value.listID, if req.suspended then Suspension else Revocation, bits))]
  }

  ghost function UpdateWrites(s: Store, req: UpdateRequest): seq<(Key, Value)>
    requires Holds(s, req)
  {
    var got := s[CredKey(req.id)].cred;
    var bits := ScanOthers(req)(s).ix + if req.Clears() then {} else {IndexAt(s, CredKey(req.id))};
    [(CredKey(req.id), CredV(got.(revoked := req.revoked, suspended := req.suspended))),
     (ListKey(req.t), ListV(BitList(got.status.value.listID, if req.suspended then Suspension else Revocation, bits)))]
  }

  lemma WrittenByUpdate(s: Store, req: UpdateRequest)
    requires Holds(s, req) && Alone(Update(req), s).Committing?
    ensures !(req.suspended && req.revoked)
    ensures NoAction(s, req) ==> After(Update(req), s) == s && Keys(Alone(Update(req), s).writes) == {}
    ensures !NoAction(s, req) ==>
      && After(Update(req), s) == UpdatedStore(s, req, ScanOthers(req)(s).ix + if req.Clears() then {} else {IndexAt(s, CredKey(req.id))})
      && Alone(Update(req), s).writes == UpdateWrites(s, req)
      && Keys(Alone(Update(req), s).writes) == {CredKey(req.id), ListKey(req.t)}
  {
    UpdateDecides(s, req);
    if !NoAction(s, req) {
      var got := s[CredKey(req.id)].cred;
      var bits := ScanOthers(req)(s).ix + if req.Clears() then {} else {got.status.value.index};
      var a := (CredKey(req.id), CredV(got.(revoked := req.revoked, suspended := req.suspended)));
      var b := (ListKey(req.t), ListV(BitList(got.status.value.listID, if req.suspended then Suspension else Revocation, bits)));
      assert Alone(Update(req), s).writes == [a, b];
      ApplyFew(s, a, b, a, b);
    }
  }

  // ---- What the scan of an update finds ----

  /** The flagged credentials that the scan takes although they are not on the triple's list. */
  function Strays(s: Store, t: Triple, id: string): set<int> {
    set k | k in s && k.CredKey? && k.id != id && IsMarked(s[k], t) && !Bears(s[k], t) :: s[k].cred.status.value.index
  }

  /** In every store the scan finds the triple's own flagged bearers, and the strays with them. */
  lemma ScanFinds(s: Store, t: Triple, id: string)
    ensures Others(s, t, id) == OtherFlagged(s, t, id) + Strays(s, t, id)
  {
    forall x | x in Others(s, t, id) ensures x in OtherFlagged(s, t, id) + Strays(s, t, id) {
      var m :| m in Marked(s, t) && m.0 != id && m.1 == x;
      var k :| k in s && k.CredKey? && IsMarked(s[k], t) && m == (k.id, s[k].cred.status.value.index);
      if Bears(s[k], t) { assert k in Bearers(s, t) && IndexAt(s, k) == x; }
    }
    forall x | x in OtherFlagged(s, t, id) ensures x in Others(s, t, id) {
      var k :| k in Bearers(s, t) && k != CredKey(id) && Flagged(s[k].cred, t.purpose) && IndexAt(s, k) == x;
      assert k == CredKey(k.id);
      ScanKeys.OwnCredentialMatches(s[k].cred.Name());
      assert (k.id, IndexAt(s, k)) in Marked(s, t);
    }
    forall x | x in Strays(s, t, id) ensures x in Others(s, t, id) {
      var k :| k in s && k.CredKey? && k.id != id && IsMarked(s[k], t) && !Bears(s[k], t) && s[k].cred.status.value.index == x;
      assert (k.id, x) in Marked(s, t);
    }
  }

  /** Exactly when the scan's indexes are those of the triple's own flagged bearers: no stray has an
      index that is not among theirs. */
  lemma ScanIsExact(s: Store, t: Triple, id: string)
    ensures Others(s, t, id) == OtherFlagged(s, t, id) <==> Strays(s, t, id) <= OtherFlagged(s, t, id)
    ensures CredsPure(s) && ClearScan(s, t) ==> Strays(s, t, id) == {}
  {
    ScanFinds(s, t, id);
    if CredsPure(s) && ClearScan(s, t) {
      forall k | k in s && k.CredKey? && k.id != id && IsMarked(s[k], t) && !Bears(s[k], t) ensures false {
        assert Mistakable(s[k].cred, t);
      }
    }
  }

  /** With colon-free schemas, a credential can be mistaken for one of a triple exactly when another
      issuer issued it, for the same schema and purpose, and the triple's issuer occurs somewhere in
      its key: in the other issuer's name, in the subject, or in the id. */
  lemma MistakableDecides(c: Cred, t: Triple)
    requires ScanKeys.Plain(c.schema) && ScanKeys.Plain(t.schema)
    ensures Mistakable(c, t) <==>
      && c.status.Some? && c.status.value.purpose == t.purpose && c.schema == t.schema && c.issuer != t.issuer
      && ScanKeys.Contains(ScanKeys.PrefixKey(c.Name()), t.issuer)
  {
    ScanKeys.CredentialScanDecides(c.Name(), t.issuer, t.schema);
  }
}
