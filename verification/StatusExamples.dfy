/** Concrete stores on which an update breaks the lists. */
module StatusExamples {
  import opened Wrappers
  import opened Kernel
  import ScanKeys
  import opened Status
  import opened StatusSteps
  import opened StatusUpdates

  ghost function Counting(): (pool: seq<int>)
    ensures IsShuffle(pool) && pool[0] == 1 && pool[1] == 2
  {
    seq(BIT_STRING_LENGTH, i => i + 1)
  }

  ghost function Rotated(): (pool: seq<int>)
    ensures IsShuffle(pool) && pool[0] == 2
  {
    seq(BIT_STRING_LENGTH, i => if i == BIT_STRING_LENGTH - 1 then 1 else i + 2)
  }

  function Holder(id: string, t: Triple, subject: string, index: int, flagged: bool): Cred {
    Cred(id, t.issuer, subject, t.schema, Some(Entry(t.purpose, index, "list")), flagged && t.purpose == Revocation, flagged && t.purpose == Suspension)
  }

  function List(t: Triple, bits: set<int>): Value { ListV(BitList("list", t.purpose, bits)) }

  // ---- Clearing ----

  /** Two flagged credentials with the indexes 1 and 2, and a list that says so. */
  ghost function TwoFlagged(t: Triple, x: string, y: string, subject: string): Store {
    map[ListKey(t) := List(t, {1, 2}), PoolKey(t) := PoolV(Counting()), CursorKey(t) := CursorV(2),
        CredKey(x) := CredV(Holder(x, t, subject, 1, true)), CredKey(y) := CredV(Holder(y, t, subject, 2, true))]
  }

  lemma TwoFlaggedIsGood(t: Triple, x: string, y: string, subject: string, strict: bool)
    requires x != y
    ensures Good(TwoFlagged(t, x, y, subject), strict)
    ensures Bearers(TwoFlagged(t, x, y, subject), t) == {CredKey(x), CredKey(y)}
  {
    var s, pool := TwoFlagged(t, x, y, subject), Counting();
    assert Bearers(s, t) == {CredKey(x), CredKey(y)};
    assert IndexAt(s, CredKey(x)) == pool[0] && IndexAt(s, CredKey(y)) == pool[1];
    TwoBearersGood(s, t, CredKey(x), CredKey(y), strict);
    TwoFlaggedPure(t, x, y, subject);
  }

  lemma TwoFlaggedPure(t: Triple, x: string, y: string, subject: string)
    requires x != y
    ensures CredsPure(TwoFlagged(t, x, y, subject))
    ensures forall t' :: t' != t ==> ListKey(t') !in TwoFlagged(t, x, y, subject) && Bearers(TwoFlagged(t, x, y, subject), t') == {}
  {
  }

  lemma TwoBearersGood(s: Store, t: Triple, k: Key, k': Key, strict: bool)
    requires ListExists(s, t) && s[CursorKey(t)].cursor == 2 && k != k' && Bearers(s, t) == {k, k'}
    requires s[k].cred.status.value.listID == s[k'].cred.status.value.listID == s[ListKey(t)].list.id
    requires IndexAt(s, k) == s[PoolKey(t)].pool[0] && IndexAt(s, k') == s[PoolKey(t)].pool[1]
    requires Flagged(s[k].cred, t.purpose) && Flagged(s[k'].cred, t.purpose)
    requires s[ListKey(t)].list.bits == {IndexAt(s, k), IndexAt(s, k')}
    ensures TripleGood(s, strict, t)
  {
    var pool := s[PoolKey(t)].pool;
    assert pool[..2][0] == pool[0] && pool[..2][1] == pool[1];
    BothFlagged(s, t, k, k');
  }

  lemma BothFlagged(s: Store, t: Triple, k: Key, k': Key)
    requires Bearers(s, t) == {k, k'} && Flagged(s[k].cred, t.purpose) && Flagged(s[k'].cred, t.purpose)
    ensures FlaggedIndexes(s, t) == {IndexAt(s, k), IndexAt(s, k')}
  {
    assert IndexAt(s, k) in FlaggedIndexes(s, t) && IndexAt(s, k') in FlaggedIndexes(s, t);
  }

  /** Clearing one of two flags empties the list: the other credential is still revoked. */
  lemma ClearingLosesTheOthers(t: Triple, x: string, y: string, subject: string, strict: bool)
    requires x != y && t.purpose == Revocation
    ensures
      var s, req := TwoFlagged(t, x, y, subject), UpdateRequest(x, false, false, t, true);
      var s' := After(Update(req), s);
      && Good(s, strict) && Alone(Update(req), s).Committing?
      && CredKey(y) in s' && s'[CredKey(y)] == CredV(Holder(y, t, subject, 2, true))
      && ListKey(t) in s' && s'[ListKey(t)] == List(t, {})
      && !Agrees(s', t)
  {
    var s, req := TwoFlagged(t, x, y, subject), UpdateRequest(x, false, false, t, true);
    TwoFlaggedIsGood(t, x, y, subject, strict);
    UpdateDecides(s, req);
    WrittenByUpdate(s, req);
    assert IndexAt(s, CredKey(y)) in OtherFlagged(s, t, x);
    GoodAfterUpdate(s, req, strict);
  }

  /** One flagged credential and its list. */
  ghost function OneFlagged(t: Triple, x: string, subject: string): Store {
    map[ListKey(t) := List(t, {1}), PoolKey(t) := PoolV(Counting()), CursorKey(t) := CursorV(1),
        CredKey(x) := CredV(Holder(x, t, subject, 1, true))]
  }

  lemma OneFlaggedIsGood(t: Triple, x: string, subject: string, strict: bool)
    ensures Good(OneFlagged(t, x, subject), strict) && Bearers(OneFlagged(t, x, subject), t) == {CredKey(x)}
  {
    var s := OneFlagged(t, x, subject);
    assert Bearers(s, t) == {CredKey(x)};
    OneBearerGood(s, t, CredKey(x), strict);
    forall t' | t' != t ensures TripleGood(s, strict, t') { assert Bearers(s, t') == {}; }
  }

  /** Clearing the last flag of a suspension list leaves the right bits on the wrong kind of list. */
  lemma ClearingTurnsTheList(t: Triple, x: string, subject: string, strict: bool)
    requires t.purpose == Suspension
    ensures
      var s, req := OneFlagged(t, x, subject), UpdateRequest(x, false, false, t, true);
      var s' := After(Update(req), s);
      && Good(s, strict) && Alone(Update(req), s).Committing?
      && ListKey(t) in s' && s'[ListKey(t)] == ListV(BitList("list", Revocation, {}))
      && FlaggedIndexes(s', t) == {} && !Agrees(s', t) && !Good(s', strict)
  {
    var s, req := OneFlagged(t, x, subject), UpdateRequest(x, false, false, t, true);
    OneFlaggedIsGood(t, x, subject, strict);
    UpdateDecides(s, req);
    WrittenByUpdate(s, req);
    FlaggedAfterUpdate(s, req, {});
    assert OtherFlagged(s, t, x) == {};
    GoodAfterUpdate(s, req, strict);
  }

  // ---- A credential issued to an issuer ----

  function Degree(issuer: string): Triple { Triple(issuer, "degree", Revocation) }

  /** a has issued a credential to b, revoked or not, and b one of the same schema to somebody. */
  ghost function TwoIssuers(a: string, b: string, x: string, y: string, revoked: bool): Store {
    var (ta, tb) := (Degree(a), Degree(b));
    map[ListKey(ta) := List(ta, if revoked then {2} else {}), PoolKey(ta) := PoolV(Rotated()), CursorKey(ta) := CursorV(1),
        ListKey(tb) := List(tb, {}), PoolKey(tb) := PoolV(Counting()), CursorKey(tb) := CursorV(1),
        CredKey(x) := CredV(Holder(x, ta, b, 2, revoked)), CredKey(y) := CredV(Holder(y, tb, "somebody", 1, false))]
  }

  lemma TwoIssuersBearers(a: string, b: string, x: string, y: string, revoked: bool)
    requires a != b && x != y
    ensures var s := TwoIssuers(a, b, x, y, revoked);
      Bearers(s, Degree(a)) == {CredKey(x)} && Bearers(s, Degree(b)) == {CredKey(y)}
    ensures forall t :: t != Degree(a) && t != Degree(b) ==> Bearers(TwoIssuers(a, b, x, y, revoked), t) == {}
  {
    var s := TwoIssuers(a, b, x, y, revoked);
    assert forall k :: k in s && k.CredKey? ==> k == CredKey(x) || k == CredKey(y);
  }

  lemma TwoIssuersIsGood(a: string, b: string, x: string, y: string, revoked: bool, strict: bool)
    requires a != b && x != y
    ensures Good(TwoIssuers(a, b, x, y, revoked), strict)
    ensures Bearers(TwoIssuers(a, b, x, y, revoked), Degree(a)) == {CredKey(x)} && Bearers(TwoIssuers(a, b, x, y, revoked), Degree(b)) == {CredKey(y)}
  {
    var s, ta, tb := TwoIssuers(a, b, x, y, revoked), Degree(a), Degree(b);
    TwoIssuersBearers(a, b, x, y, revoked);
    IssuersTripleGood(a, b, x, y, revoked, true, strict);
    IssuersTripleGood(a, b, x, y, revoked, false, strict);
    TwoIssuersPure(a, b, x, y, revoked);
  }

  lemma IssuersTripleGood(a: string, b: string, x: string, y: string, revoked: bool, first: bool, strict: bool)
    requires a != b && x != y
    ensures TripleGood(TwoIssuers(a, b, x, y, revoked), strict, Degree(if first then a else b))
  {
    TwoIssuersBearers(a, b, x, y, revoked);
    OneBearerGood(TwoIssuers(a, b, x, y, revoked), Degree(if first then a else b), CredKey(if first then x else y), strict);
  }

  lemma TwoIssuersPure(a: string, b: string, x: string, y: string, revoked: bool)
    requires a != b && x != y
    ensures CredsPure(TwoIssuers(a, b, x, y, revoked))
    ensures forall t :: t != Degree(a) && t != Degree(b) ==> ListKey(t) !in TwoIssuers(a, b, x, y, revoked)
  {
  }

  lemma OneBearerGood(s: Store, t: Triple, k: Key, strict: bool)
    requires ListExists(s, t) && s[CursorKey(t)].cursor == 1 && Bearers(s, t) == {k}
    requires s[k].cred.status.value.listID == s[ListKey(t)].list.id && IndexAt(s, k) == s[PoolKey(t)].pool[0]
    requires s[ListKey(t)].list.bits == if Flagged(s[k].cred, t.purpose) then {IndexAt(s, k)} else {}
    ensures TripleGood(s, strict, t)
  {
    assert IndexAt(s, k) == s[PoolKey(t)].pool[..1][0];
    if Flagged(s[k].cred, t.purpose) { assert IndexAt(s, k) in FlaggedIndexes(s, t); }
    assert FlaggedIndexes(s, t) == if Flagged(s[k].cred, t.purpose) then {IndexAt(s, k)} else {};
  }

  /** b's scan takes what a has issued to b, once it is revoked, and nothing else but b's own. */
  lemma ScanOfB(s: Store, a: string, b: string, x: string, y: string, revoked: bool)
    requires a != b && x != y && forall id :: SameAt(TwoIssuers(a, b, x, y, revoked), s, CredKey(id))
    ensures OtherFlagged(s, Degree(b), y) == {} && Strays(s, Degree(b), y) == (if revoked then {2} else {})
    ensures Others(s, Degree(b), y) == (if revoked then {2} else {})
    ensures Mistakable(Holder(x, Degree(a), b, 2, revoked), Degree(b))
  {
    var c := Holder(x, Degree(a), b, 2, revoked);
    ScanKeys.SubjectIsMistaken(x, a, b, "degree");
    assert c.Name() == ScanKeys.CredentialName(x, a, b, "degree");
    assert SameAt(TwoIssuers(a, b, x, y, revoked), s, CredKey(x)) && SameAt(TwoIssuers(a, b, x, y, revoked), s, CredKey(y));
    forall k | k in s && k.CredKey? ensures k == CredKey(x) || k == CredKey(y) {
      assert k == CredKey(k.id) && SameAt(TwoIssuers(a, b, x, y, revoked), s, CredKey(k.id));
    }
    if revoked { assert IsMarked(s[CredKey(x)], Degree(b)) && s[CredKey(x)].cred.status.value.index in Strays(s, Degree(b), y); }
    ScanFinds(s, Degree(b), y);
  }

  /** b revokes its own credential, and a's index is on b's list. */
  lemma ForeignIndexOnTheList(a: string, b: string, x: string, y: string, strict: bool)
    requires a != b && x != y
    ensures
      var s, t := TwoIssuers(a, b, x, y, true), Degree(b);
      var req := UpdateRequest(y, true, false, t, true);
      var s' := After(Update(req), s);
      && Good(s, strict) && Alone(Update(req), s).Committing?
      && ListKey(t) in s' && s'[ListKey(t)] == List(t, {1, 2})
      && FlaggedIndexes(s', t) == {1} && !Agrees(s', t)
  {
    var s, t := TwoIssuers(a, b, x, y, true), Degree(b);
    var req := UpdateRequest(y, true, false, t, true);
    TwoIssuersIsGood(a, b, x, y, true, strict);
    ScanOfB(s, a, b, x, y, true);
    UpdateDecides(s, req);
    WrittenByUpdate(s, req);
    assert ScanOthers(req)(s).ix + {IndexAt(s, CredKey(y))} == {1, 2};
    FlaggedAfterUpdate(s, req, {1, 2});
    assert 2 !in FlaggedIndexes(UpdatedStore(s, req, {1, 2}), t);
  }

  /** a's own revocation changes the answer of b's scan without touching b's list key, so the key is
      no lock between the two. */
  lemma ForeignCommitMovesTheScan(a: string, b: string, x: string, y: string, strict: bool)
    requires a != b && x != y
    ensures
      var s, first, second := TwoIssuers(a, b, x, y, false), UpdateRequest(x, true, false, Degree(a), true), UpdateRequest(y, true, false, Degree(b), true);
      && Good(s, strict) && Alone(Update(first), s).Committing?
      && ListKey(Degree(b)) !in Keys(Alone(Update(first), s).writes)
      && ScanOthers(second)(s) == Indexes({}) && ScanOthers(second)(After(Update(first), s)) == Indexes({2})
  {
    var s, first := TwoIssuers(a, b, x, y, false), UpdateRequest(x, true, false, Degree(a), true);
    TwoIssuersIsGood(a, b, x, y, false, strict);
    FirstRevoked(a, b, x, y);
    ScanOfB(s, a, b, x, y, false);
    ScanOfB(After(Update(first), s), a, b, x, y, true);
  }

  lemma FirstRevoked(a: string, b: string, x: string, y: string)
    requires a != b && x != y
    ensures
      var s, first := TwoIssuers(a, b, x, y, false), UpdateRequest(x, true, false, Degree(a), true);
      && Alone(Update(first), s).Committing? && Keys(Alone(Update(first), s).writes) == {CredKey(x), ListKey(Degree(a))}
      && forall id :: SameAt(TwoIssuers(a, b, x, y, true), After(Update(first), s), CredKey(id))
  {
    var s, first := TwoIssuers(a, b, x, y, false), UpdateRequest(x, true, false, Degree(a), true);
    UpdateDecides(s, first);
    WrittenByUpdate(s, first);
    assert After(Update(first), s)[CredKey(x)] == CredV(Holder(x, Degree(a), b, 2, true));
    ApplyFrames(s, Alone(Update(first), s).writes);
    OneCredentialMoved(a, b, x, y, After(Update(first), s));
  }

  lemma OneCredentialMoved(a: string, b: string, x: string, y: string, s: Store)
    requires a != b && x != y && CredKey(x) in s && s[CredKey(x)] == CredV(Holder(x, Degree(a), b, 2, true))
    requires Frame(TwoIssuers(a, b, x, y, false), s, {CredKey(x), ListKey(Degree(a))})
    ensures forall id :: SameAt(TwoIssuers(a, b, x, y, true), s, CredKey(id))
  {
  }
}
