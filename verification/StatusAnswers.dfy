/** What the callers are told, and what they find in the store afterwards, in terms of what they asked
    for. */
module StatusAnswers {
  import opened Wrappers
  import opened Kernel
  import opened Batches
  import ScanKeys
  import opened Status
  import opened StatusSteps
  import opened StatusUpdates
  import opened StatusRuns
  import opened StatusLimits

  predicate IsCred(s: Store, id: string) { CredKey(id) in s && s[CredKey(id)].CredV? }

  function CredAt(s: Store, id: string): Cred
    requires IsCred(s, id)
  {
    s[CredKey(id)].cred
  }

  // ---- Key strings ----

  /** What lists and credentials are stored under. */
  lemma KeyTexts(issuer: string, schema: string, c: Cred)
    ensures ScanKeys.StatusListKey(Triple(issuer, schema, Revocation).Name()) == "is:" + issuer + ":sc:" + schema + ":sp:revocation"
    ensures ScanKeys.StatusListKey(Triple(issuer, schema, Suspension).Name()) == "is:" + issuer + ":sc:" + schema + ":sp:suspension"
    ensures ScanKeys.PrefixKey(c.Name()) == c.id + ":is:" + c.issuer + ":su:" + c.subject + ":sc:" + c.schema
  {
    ListKeyText(issuer, schema, "revocation");
    ListKeyText(issuer, schema, "suspension");
    ScanKeys.PrefixKeyParts(c.Name());
  }

  lemma ListKeyText(issuer: string, schema: string, purpose: string)
    ensures ScanKeys.StatusListKey(ScanKeys.ListName(issuer, schema, purpose)) == "is:" + issuer + ":sc:" + schema + ":sp:" + purpose
  {
    ScanKeys.JoinSix("is", issuer, "sc", schema, "sp", purpose);
    ScanKeys.JoinFour("sc", schema, "sp", purpose);
  }

  // ---- Creating ----

  /** The credential is what the request asks for: issuer, subject and schema, an entry if and only if
      it is to have a status, for the purpose it names, and no flag yet. */
  predicate AsRequested(c: Cred, req: CreateRequest) {
    && c.id == req.id && c.issuer == req.issuer && c.subject == req.subject && c.schema == req.schema
    && !c.revoked && !c.suspended
    && (c.status.Some? <==> req.revocable || req.suspendable)
    && (c.status.Some? ==> (c.status.value.purpose == Revocation <==> req.revocable) && (c.status.value.purpose == Suspension <==> req.suspendable))
  }

  /** The writes end with the credential that the caller is told of. */
  predicate Creates(outcome: Outcome<Key, Value, Response>, req: CreateRequest) {
    outcome.Committing? ==>
      && |outcome.outs| == 1 && outcome.outs[0].Created? && AsRequested(outcome.outs[0].cred, req)
      && outcome.writes != [] && outcome.writes[|outcome.writes| - 1] == (CredKey(req.id), CredV(outcome.outs[0].cred))
      && forall i :: 0 <= i < |outcome.writes| - 1 ==> !outcome.writes[i].0.CredKey?
  }

  lemma ActServes(req: CreateRequest, strict: bool, replies: seq<Reply>)
    ensures Creates(Decided(CreateAct(req, strict, replies)), req)
  {
  }

  lemma CreateServes(s: Store, req: CreateRequest, strict: bool)
    ensures Alone(Create(req, strict), s).Committing? ==> !(req.revocable && req.suspendable)
    ensures Creates(Alone(Create(req, strict), s), req)
  {
    var t := req.StatusTriple();
    var rs := if !req.IsStatusValid() || !req.HasStatus() then [] else
              if !IsList(FindList(t)(s)) then [FindList(t)(s)] else
              if !IsPool(Lookup(PoolKey(t))(s)) then [FindList(t)(s), Lookup(PoolKey(t))(s)] else
              [FindList(t)(s), Lookup(PoolKey(t))(s), Lookup(CursorKey(t))(s), Lookup(CursorKey(t))(s)];
    CreateDecides(s, req, strict);
    ActServes(req, strict, rs);
  }

  lemma LastWriteStands(s: Store, writes: seq<(Key, Value)>)
    requires writes != []
    ensures var last := writes[|writes| - 1]; last.0 in Apply(s, writes) && Apply(s, writes)[last.0] == last.1
  {
    var before, last := writes[..|writes| - 1], writes[|writes| - 1];
    assert before + [last] == writes;
    ApplyConcat(s, before, [last]);
    ApplyFew(Apply(s, before), last, last, last, last);
  }

  /** A create that commits, on whatever store, is for at most one purpose, stores under its id the
      credential that it answers with, and that is the one asked for. */
  lemma CreatedAsRequested(s: Store, req: CreateRequest, strict: bool)
    requires Alone(Create(req, strict), s).Committing?
    ensures !(req.revocable && req.suspendable)
    ensures var s' := After(Create(req, strict), s);
      IsCred(s', req.id) && AsRequested(CredAt(s', req.id), req) && Alone(Create(req, strict), s).outs == [Created(CredAt(s', req.id))]
  {
    CreateServes(s, req, strict);
    LastWriteStands(s, Alone(Create(req, strict), s).writes);
  }

  /** The list that a request is for, from its own fields. */
  function RequestedTriple(req: CreateRequest): Triple { Triple(req.issuer, req.schema, if req.revocable then Revocation else Suspension) }

  /** And a status entry names the list of the issuer, the schema and the purpose asked for, which is
      there with that purpose, and has one of its indexes. */
  lemma EntryNamesRequestedList(s: Store, req: CreateRequest, strict: bool)
    requires Alone(Create(req, strict), s).Committing? && (req.revocable || req.suspendable) && IsShuffle(req.shuffle)
    requires TripleGood(s, strict, RequestedTriple(req)) && ClearLists(s, RequestedTriple(req))
    ensures
      var s', t := After(Create(req, strict), s), RequestedTriple(req);
      && IsCred(s', req.id) && CredAt(s', req.id).status.Some?
      && ListKey(t) in s' && s'[ListKey(t)].ListV? && s'[ListKey(t)].list.purpose == t.purpose
      && CredAt(s', req.id).status.value.listID == s'[ListKey(t)].list.id
      && 1 <= CredAt(s', req.id).status.value.index <= BIT_STRING_LENGTH
  {
    CreatedAsRequested(s, req, strict);
    assert req.StatusTriple() == RequestedTriple(req);
    WrittenByCreate(s, req, strict);
  }

  /** Exactly when a create is refused. */
  lemma CreateRefused(s: Store, req: CreateRequest, strict: bool)
    requires TripleGood(s, strict, RequestedTriple(req)) && ClearLists(s, RequestedTriple(req)) && IsShuffle(req.shuffle)
    ensures
      var t := RequestedTriple(req);
      Alone(Create(req, strict), s).Aborting? <==>
        || (req.revocable && req.suspendable) || !req.builds
        || ((req.revocable || req.suspendable) && strict && ListKey(t) in s && s[CursorKey(t)].cursor == BIT_STRING_LENGTH - 1)
  {
    var t := RequestedTriple(req);
    CreateDecides(s, req, strict);
    if req.revocable != req.suspendable {
      assert req.StatusTriple() == t;
      FindListExact(s, t);
      if ListKey(t) in s { AllocationRefused(s, req, strict, t, Lookup(ListKey(t))(s), Lookup(PoolKey(t))(s), Lookup(CursorKey(t))(s)); }
    }
  }

  lemma AllocationRefused(s: Store, req: CreateRequest, strict: bool, t: Triple, l: Reply, p: Reply, c: Reply)
    requires req.revocable != req.suspendable && t == req.StatusTriple() && ListExists(s, t)
    requires l == Lookup(ListKey(t))(s) && p == Lookup(PoolKey(t))(s) && c == Lookup(CursorKey(t))(s)
    ensures IsList(l) && IsPool(p)
    ensures CreateAct(req, strict, [l, p, c, c]).Abort? <==> !req.builds || (strict && s[CursorKey(t)].cursor == BIT_STRING_LENGTH - 1)
    ensures CreateAct(req, strict, [l, p, c, c]).Abort? || CreateAct(req, strict, [l, p, c, c]).Commit?
  {
    assert [l, p, c, c][1..] == [p, c, c];
  }

  /** Nor is any credential created for a list that cannot be told from another one: when the keys of
      two stored lists are taken by the scan for it. */
  lemma AmbiguousListRefused(s: Store, req: CreateRequest, strict: bool, a: Triple, b: Triple)
    requires (req.revocable || req.suspendable) && a != b && ListKey(a) in s && ListKey(b) in s
    requires ListPicked(a, RequestedTriple(req)) && ListPicked(b, RequestedTriple(req))
    ensures Alone(Create(req, strict), s).Aborting?
  {
    CreateDecides(s, req, strict);
    if req.revocable != req.suspendable {
      var t := RequestedTriple(req);
      assert req.StatusTriple() == t;
      assert ListKey(a) in ListsFound(s, t) && ListKey(b) in ListsFound(s, t);
      TwoAreMany(ListsFound(s, t), ListKey(a), ListKey(b));
    }
  }

  lemma TwoAreMany(found: set<Key>, a: Key, b: Key)
    requires a in found && b in found && a != b
    ensures found != {} && |found| > 1
  {
    assert |{a, b}| == 2 && {a, b} <= found;
    assert found == {a, b} + (found - {a, b});
  }

  // ---- Updating ----

  /** The credentials are told by their ids: those not among the ids are as they were. */
  ghost predicate LeavesOthers(s: Store, s': Store, ids: set<string>) { forall id :: id !in ids ==> SameAt(s, s', CredKey(id)) }

  predicate CarriesFlags(s: Store, req: UpdateRequest) {
    IsCred(s, req.id) && CredAt(s, req.id).revoked == req.revoked && CredAt(s, req.id).suspended == req.suspended
  }

  /** The first of the writes, if there are any, is to the credential and sets the flags. */
  predicate SetsFlags(s: Store, req: UpdateRequest, writes: seq<(Key, Value)>) {
    IsCred(s, req.id) &&
    if writes == [] then CarriesFlags(s, req)
    else |writes| == 2 && writes[0] == (CredKey(req.id), CredV(CredAt(s, req.id).(revoked := req.revoked, suspended := req.suspended))) && !writes[1].0.CredKey?
  }

  lemma UpdateServes(s: Store, req: UpdateRequest)
    requires Alone(Update(req), s).Committing?
    ensures Alone(Update(req), s).outs == [Updated(req.revoked, req.suspended)] && SetsFlags(s, req, Alone(Update(req), s).writes)
  {
    UpdateDecides(s, req);
  }

  /** Laid over a store that agrees about the credential, the writes leave it with the flags asked for. */
  lemma FlagsStand(s: Store, s1: Store, req: UpdateRequest, writes: seq<(Key, Value)>)
    requires SetsFlags(s, req, writes) && (writes == [] ==> CarriesFlags(s1, req))
    ensures CarriesFlags(Apply(s1, writes), req) && LeavesOthers(s1, Apply(s1, writes), {req.id})
    ensures writes != [] ==> CredAt(Apply(s1, writes), req.id) == CredAt(s, req.id).(revoked := req.revoked, suspended := req.suspended)
  {
    if writes != [] {
      var a, b := writes[0], writes[1];
      assert writes == [a, b];
      ApplyFew(s1, a, b, a, b);
    }
  }

  /** An update that commits answers the flags that its credential carries afterwards, and they are
      those asked for; nothing else of the credential is different, and no other credential. */
  lemma UpdateAnswersTheFlags(s: Store, req: UpdateRequest)
    requires Alone(Update(req), s).Committing?
    ensures
      var s' := After(Update(req), s);
      && IsCred(s, req.id) && CarriesFlags(s', req)
      && Alone(Update(req), s).outs == [Updated(CredAt(s', req.id).revoked, CredAt(s', req.id).suspended)]
      && CredAt(s', req.id) == CredAt(s, req.id).(revoked := req.revoked, suspended := req.suspended)
      && LeavesOthers(s, s', {req.id})
  {
    UpdateServes(s, req);
    FlagsStand(s, s, req, Alone(Update(req), s).writes);
  }

  /** Exactly when an update is refused: it asks for both flags, or there is no such credential, or it
      asks for a change of one that has no status or whose list cannot be built. */
  lemma UpdateRefused(s: Store, req: UpdateRequest)
    ensures Alone(Update(req), s).Aborting? <==>
      || (req.revoked && req.suspended) || !IsCred(s, req.id)
      || (!CarriesFlags(s, req) && (CredAt(s, req.id).status.None? || !req.builds))
  {
    UpdateDecides(s, req);
  }

  // ---- Batches of updates ----

  function IdsOf(reqs: seq<UpdateRequest>): set<string> { set i | 0 <= i < |reqs| :: reqs[i].id }

  /** No credential is asked to carry different flags. */
  predicate Consistent(reqs: seq<UpdateRequest>) {
    forall i, j :: 0 <= i < |reqs| && 0 <= j < |reqs| && reqs[i].id == reqs[j].id ==> reqs[i].revoked == reqs[j].revoked && reqs[i].suspended == reqs[j].suspended
  }

  ghost predicate AllCarried(s: Store, reqs: seq<UpdateRequest>) { forall i :: 0 <= i < |reqs| ==> CarriesFlags(s, reqs[i]) }

  lemma {:induction false} BatchServes(s: Store, reqs: seq<UpdateRequest>)
    requires Alone(UpdateBody(reqs), s).Committing?
    ensures |Alone(UpdateBody(reqs), s).outs| == |reqs|
    ensures forall i :: 0 <= i < |reqs| ==> Alone(UpdateBody(reqs), s).outs[i] == Updated(reqs[i].revoked, reqs[i].suspended)
    ensures LeavesOthers(s, After(UpdateBody(reqs), s), IdsOf(reqs))
    ensures Consistent(reqs) ==> AllCarried(After(UpdateBody(reqs), s), reqs)
    decreases |reqs|
  {
    if reqs == [] {
      assert Alone(UpdateBody(reqs), s) == Committing([], []);
    } else {
      var rest, last := reqs[..|reqs| - 1], reqs[|reqs| - 1];
      assert rest + [last] == reqs;
      SplitUpdates(s, rest, last);
      BatchServes(s, rest);
      UpdateServes(s, last);
      OneMoreServed(s, After(UpdateBody(rest), s), rest, last, Alone(Update(last), s).writes);
    }
  }

  lemma OneMoreServed(s: Store, s1: Store, rest: seq<UpdateRequest>, last: UpdateRequest, writes: seq<(Key, Value)>)
    requires SetsFlags(s, last, writes) && LeavesOthers(s, s1, IdsOf(rest)) && (Consistent(rest) ==> AllCarried(s1, rest))
    ensures LeavesOthers(s, Apply(s1, writes), IdsOf(rest + [last]))
    ensures Consistent(rest + [last]) ==> AllCarried(Apply(s1, writes), rest + [last])
  {
    var reqs, s2 := rest + [last], Apply(s1, writes);
    forall i | 0 <= i < |rest| ensures rest[i].id in IdsOf(reqs) { assert reqs[i] == rest[i]; }
    assert reqs[|rest|].id in IdsOf(reqs);
    if writes == [] {
      if Consistent(reqs) {
        ConsistentBefore(rest, last);
        LastCarried(s, s1, rest, last);
        forall i | 0 <= i < |reqs| ensures CarriesFlags(s2, reqs[i]) { if i < |rest| { assert CarriesFlags(s1, rest[i]); } }
      }
    } else {
      FlagsStand(s, s1, last, writes);
      if Consistent(reqs) {
        ConsistentBefore(rest, last);
        forall i | 0 <= i < |reqs| ensures CarriesFlags(s2, reqs[i]) {
          if reqs[i].id != last.id {
            assert CarriesFlags(s1, rest[i]) && SameAt(s1, s2, CredKey(reqs[i].id));
          } else {
            assert reqs[|rest|] == last;
          }
        }
      }
    }
  }

  lemma ConsistentBefore(rest: seq<UpdateRequest>, last: UpdateRequest)
    requires Consistent(rest + [last])
    ensures Consistent(rest)
    ensures forall i :: 0 <= i < |rest| && rest[i].id == last.id ==> rest[i].revoked == last.revoked && rest[i].suspended == last.suspended
  {
    var reqs := rest + [last];
    assert reqs[|rest|] == last && forall i :: 0 <= i < |rest| ==> reqs[i] == rest[i];
  }

  /** A request that finds its flags set leaves them to the others, who want the same or nothing. */
  lemma LastCarried(s: Store, s1: Store, rest: seq<UpdateRequest>, last: UpdateRequest)
    requires CarriesFlags(s, last) && LeavesOthers(s, s1, IdsOf(rest)) && AllCarried(s1, rest)
    requires forall i :: 0 <= i < |rest| && rest[i].id == last.id ==> rest[i].revoked == last.revoked && rest[i].suspended == last.suspended
    ensures CarriesFlags(s1, last)
  {
    if last.id in IdsOf(rest) {
      var i :| 0 <= i < |rest| && rest[i].id == last.id;
      assert CarriesFlags(s1, rest[i]);
    } else {
      assert SameAt(s, s1, CredKey(last.id));
    }
  }

  /** The answers of a batch that commits are, index by index, the flags asked for; and all of them are
      those found in the store afterwards if and only if no credential was asked to carry different
      flags, as when the ids are distinct. */
  lemma BatchAnswersTheFlags(s: Store, reqs: seq<UpdateRequest>)
    requires Alone(UpdateBody(reqs), s).Committing?
    ensures |Alone(UpdateBody(reqs), s).outs| == |reqs|
    ensures forall i :: 0 <= i < |reqs| ==> Alone(UpdateBody(reqs), s).outs[i] == Updated(reqs[i].revoked, reqs[i].suspended)
    ensures AllCarried(After(UpdateBody(reqs), s), reqs) <==> Consistent(reqs)
    ensures (forall i, j :: 0 <= i < j < |reqs| ==> reqs[i].id != reqs[j].id) ==> Consistent(reqs)
  {
    BatchServes(s, reqs);
    var s' := After(UpdateBody(reqs), s);
    if AllCarried(s', reqs) {
      forall i, j | 0 <= i < |reqs| && 0 <= j < |reqs| && reqs[i].id == reqs[j].id
        ensures reqs[i].revoked == reqs[j].revoked && reqs[i].suspended == reqs[j].suspended
      {
        assert CarriesFlags(s', reqs[i]) && CarriesFlags(s', reqs[j]);
      }
    }
  }

  // ---- Batches of creates ----

  /** The answers of a batch of creates with ids of their own are, index by index, the credentials found
      in the store afterwards, and they are those asked for. */
  lemma {:induction false} BatchCreatesAsRequested(s: Store, reqs: seq<CreateRequest>, strict: bool)
    requires Alone(Body(reqs, strict), s).Committing? && forall i, j :: 0 <= i < j < |reqs| ==> reqs[i].id != reqs[j].id
    ensures |Alone(Body(reqs, strict), s).outs| == |reqs|
    ensures forall i :: 0 <= i < |reqs| ==>
      var s' := After(Body(reqs, strict), s);
      IsCred(s', reqs[i].id) && AsRequested(CredAt(s', reqs[i].id), reqs[i]) && Alone(Body(reqs, strict), s).outs[i] == Created(CredAt(s', reqs[i].id))
    decreases |reqs|
  {
    if reqs == [] {
      assert Alone(Body(reqs, strict), s) == Committing([], []);
    } else {
      var rest, last := reqs[..|reqs| - 1], reqs[|reqs| - 1];
      assert rest + [last] == reqs;
      SplitCreates(s, rest, last, strict);
      BatchCreatesAsRequested(s, rest, strict);
      CreateServes(s, last, strict);
      var s1, writes := After(Body(rest, strict), s), Alone(Create(last, strict), s).writes;
      LastWriteStands(s1, writes);
      ApplyFrames(s1, writes);
      forall id | id != last.id ensures SameAt(s1, Apply(s1, writes), CredKey(id)) { assert CredKey(id) !in Keys(writes); }
    }
  }
}
