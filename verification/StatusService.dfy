/** The credential service's business functions as the code runs them, statement by statement, on
    a committed store and a transaction that buffers writes. */
module StatusService {
  import opened Wrappers
  import opened Kernel
  import opened Batches
  import opened Execute
  import ScanKeys
  import opened Status
  import opened StatusSteps
  import opened StatusUpdates
  import opened StatusRuns

  function Ordered(count: nat): seq<int> { seq(count, i => i + 1) }

  predicate InRange(swaps: seq<(nat, nat)>, count: nat) { forall i :: 0 <= i < |swaps| ==> swaps[i].0 < count && swaps[i].1 < count }

  function Swap<T>(s: seq<T>, i: nat, j: nat): seq<T>
    requires i < |s| && j < |s|
  {
    s[i := s[j]][j := s[i]]
  }

  /** The swaps, one after the other. */
  function Swapped<T>(s: seq<T>, swaps: seq<(nat, nat)>): seq<T>
    requires InRange(swaps, |s|)
    decreases |swaps|
  {
    if swaps == [] then s else Swapped(Swap(s, swaps[0].0, swaps[0].1), swaps[1..])
  }

  /** Any order of the same numbers can come out, by swaps at or after the place up to which the two
      agree. */
  lemma {:induction false} AnyOrderComesOut<T>(s: seq<T>, target: seq<T>, done: nat) returns (swaps: seq<(nat, nat)>)
    requires multiset(s) == multiset(target) && done <= |s| && |s| == |target| && s[..done] == target[..done]
    ensures InRange(swaps, |s|) && Swapped(s, swaps) == target
    decreases |s| - done
  {
    if done == |s| {
      swaps := [];
      assert s == s[..done] == target;
    } else {
      var j := FindRest(s, target, done);
      var next := Swap(s, done, j);
      SwapPermutes(s, done, j);
      var rest := AnyOrderComesOut(next, target, done + 1);
      swaps := [(done, j)] + rest;
      assert swaps[1..] == rest;
    }
  }

  lemma FindRest<T>(s: seq<T>, target: seq<T>, done: nat) returns (j: nat)
    requires multiset(s) == multiset(target) && done < |s| == |target| && s[..done] == target[..done]
    ensures done <= j < |s| && s[j] == target[done]
    ensures Swap(s, done, j)[..done + 1] == target[..done + 1]
  {
    assert s == s[..done] + s[done..] && target == target[..done] + target[done..];
    assert multiset(s[done..]) == multiset(s) - multiset(s[..done]);
    assert multiset(target[done..]) == multiset(target) - multiset(target[..done]);
    assert target[done..][0] in multiset(target[done..]);
    assert target[done] in s[done..];
    j :| done <= j < |s| && s[j] == target[done];
    assert Swap(s, done, j)[..done] == s[..done];
  }

  lemma SwapPermutes<T>(s: seq<T>, i: nat, j: nat)
    requires i < |s| && j < |s|
    ensures multiset(Swap(s, i, j)) == multiset(s)
  {
  }

  /** The numbers up to their count, each once. */
  predicate Numbers(s: seq<int>) {
    (forall i :: 0 <= i < |s| ==> 1 <= s[i] <= |s|) && forall i, j :: 0 <= i < j < |s| ==> s[i] != s[j]
  }

  lemma {:induction false} SwappedKeeps(s: seq<int>, swaps: seq<(nat, nat)>)
    requires InRange(swaps, |s|) && Numbers(s)
    ensures |Swapped(s, swaps)| == |s| && Numbers(Swapped(s, swaps))
    decreases |swaps|
  {
    if swaps != [] {
      SwappedKeeps(Swap(s, swaps[0].0, swaps[0].1), swaps[1..]);
    }
  }

  /** The numbers 1..count, swapped in place however the random source says. */
  method RandomUniqueNum(count: nat, swaps: seq<(nat, nat)>) returns (randomNumbers: array<int>)
    requires InRange(swaps, count)
    ensures fresh(randomNumbers) && randomNumbers[..] == Swapped(Ordered(count), swaps)
    ensures randomNumbers.Length == count
    ensures forall i :: 0 <= i < count ==> 1 <= randomNumbers[i] <= count
    ensures forall i, j :: 0 <= i < j < count ==> randomNumbers[i] != randomNumbers[j]
    ensures count == BIT_STRING_LENGTH ==> IsShuffle(randomNumbers[..])
  {
    randomNumbers := new int[count](i => i + 1);
    assert randomNumbers[..] == Ordered(count);
    for n := 0 to |swaps|
      invariant Swapped(randomNumbers[..], swaps[n..]) == Swapped(Ordered(count), swaps)
    {
      var (i, j) := swaps[n];
      ghost var before := randomNumbers[..];
      randomNumbers[i], randomNumbers[j] := randomNumbers[j], randomNumbers[i];
      assert randomNumbers[..] == Swap(before, i, j) && swaps[n..][1..] == swaps[n + 1..];
    }
    SwappedKeeps(Ordered(count), swaps);
    assert Numbers(randomNumbers[..]);
    assert forall i :: 0 <= i < count ==> randomNumbers[i] == randomNumbers[..][i];
  }

  method StoreCredentialTx(tx: Tx<Key, Value>, req: CreateRequest, status: Option<Entry>) returns (r: Result<Response>)
    modifies tx
    ensures !req.builds ==> r == Err("could not build credential")
    ensures req.builds ==> r == Ok(Created(req.NewCred(status))) && tx.queue == old(tx.queue) + [(CredKey(req.id), CredV(req.NewCred(status)))]
  {
    if !req.builds {
      return Err("could not build credential");
    }
    tx.Write(CredKey(req.id), CredV(req.NewCred(status)));
    r := Ok(Created(req.NewCred(status)));
  }

  method GetNextStatusListRandomIndex(db: Store, t: Triple) returns (r: Result<int>)
    ensures r.Ok? <==>
      && PoolKey(t) in db && db[PoolKey(t)].PoolV? && CursorKey(t) in db && db[CursorKey(t)].CursorV?
      && 0 <= db[CursorKey(t)].cursor < |db[PoolKey(t)].pool|
    ensures r.Ok? ==> r.value == db[PoolKey(t)].pool[db[CursorKey(t)].cursor]
  {
    if PoolKey(t) !in db || !db[PoolKey(t)].PoolV? || db[PoolKey(t)].pool == [] {
      return Err("could not get unique numbers from db");
    }
    if CursorKey(t) !in db || !db[CursorKey(t)].CursorV? {
      return Err("unmarshalling unique numbers");
    }
    var cursor := db[CursorKey(t)].cursor;
    if !(0 <= cursor < |db[PoolKey(t)].pool|) {
      return Err("index out of range");
    }
    r := Ok(db[PoolKey(t)].pool[cursor]);
  }

  method IncrementStatusListIndexTx(db: Store, tx: Tx<Key, Value>, t: Triple, strict: bool) returns (ok: bool)
    modifies tx
    ensures ok <==> CursorKey(t) in db && db[CursorKey(t)].CursorV? && !(strict && db[CursorKey(t)].cursor >= BIT_STRING_LENGTH - 1)
    ensures ok ==>
      tx.queue == old(tx.queue) + if db[CursorKey(t)].cursor >= BIT_STRING_LENGTH - 1 then [] else [(CursorKey(t), CursorV(db[CursorKey(t)].cursor + 1))]
  {
    if CursorKey(t) !in db || !db[CursorKey(t)].CursorV? {
      return false;
    }
    var cursor := db[CursorKey(t)].cursor;
    if cursor >= BIT_STRING_LENGTH - 1 {
      return !strict;
    }
    tx.Write(CursorKey(t), CursorV(cursor + 1));
    ok := true;
  }

  /** GetStatusListCredentialKeyData: a scan over the keys of all lists. */
  method GetStatusListCredentialKeyData(db: Store, t: Triple) returns (several: bool, found: Option<Value>)
    ensures FindList(t)(db) == if several then Several else Found(found)
  {
    var keys := db.Keys;
    var picked: set<Key> := {};
    while keys != {}
      invariant keys <= db.Keys
      invariant picked == set k | k in db && k !in keys && k.ListKey? && ListPicked(k.t, t)
      decreases keys
    {
      var k :| k in keys;
      if k.ListKey? && ListPicked(k.t, t) {
        picked := picked + {k};
      }
      keys := keys - {k};
    }
    assert picked == ListsFound(db, t);
    if |picked| > 1 {
      return true, None;
    }
    if picked == {} {
      return false, None;
    }
    var k :| k in picked;
    OnlyOne(picked, k);
    return false, Some(db[k]);
  }

  lemma OnlyOne<T>(s: set<T>, x: T)
    requires x in s && |s| <= 1
    ensures s == {x}
  {
    assert |s - {x}| == |s| - 1;
  }

  /** The status entry of a new credential, and the writes that go with it. */
  ghost function EntryFor(s: Store, req: CreateRequest, strict: bool): Result<(Entry, seq<(Key, Value)>)> {
    var t := req.StatusTriple();
    match FindList(t)(s)
    case Found(None) =>
      if req.shuffle == [] then Err("index out of range")
      else Ok((Entry(t.purpose, req.shuffle[0], req.listID),
               [(PoolKey(t), PoolV(req.shuffle)), (CursorKey(t), CursorV(1)), (ListKey(t), ListV(BitList(req.listID, t.purpose, {})))]))
    case Found(Some(ListV(list))) =>
      if !(PoolKey(t) in s && s[PoolKey(t)].PoolV? && s[PoolKey(t)].pool != []) then Err("could not get unique numbers from db")
      else if !(CursorKey(t) in s && s[CursorKey(t)].CursorV?) then Err("unmarshalling unique numbers")
      else
        var pool, cursor := s[PoolKey(t)].pool, s[CursorKey(t)].cursor;
        if !(0 <= cursor < |pool|) then Err("index out of range")
        else if cursor >= BIT_STRING_LENGTH - 1 && strict then Err("no more indexes available for status list index")
        else Ok((Entry(t.purpose, pool[cursor], list.id), if cursor >= BIT_STRING_LENGTH - 1 then [] else [(CursorKey(t), CursorV(cursor + 1))]))
    case _ => Err("unmarshalling credential")
  }

  lemma EntryDecides(s: Store, req: CreateRequest, strict: bool)
    requires req.IsStatusValid() && req.HasStatus()
    ensures Alone(Create(req, strict), s).Committing? <==> EntryFor(s, req, strict).Ok? && req.builds
    ensures EntryFor(s, req, strict).Ok? && req.builds ==>
      var (entry, writes) := EntryFor(s, req, strict).value;
      var cred := req.NewCred(Some(entry));
      Alone(Create(req, strict), s) == Committing([Created(cred)], writes + [(CredKey(req.id), CredV(cred))])
  {
    if IsList(FindList(req.StatusTriple())(s)) {
      AllocatedEntryDecides(s, req, strict);
    } else {
      FirstEntryDecides(s, req, strict);
    }
  }

  lemma FirstEntryDecides(s: Store, req: CreateRequest, strict: bool)
    requires req.IsStatusValid() && req.HasStatus() && !IsList(FindList(req.StatusTriple())(s))
    ensures Alone(Create(req, strict), s).Committing? <==> EntryFor(s, req, strict).Ok? && req.builds
    ensures EntryFor(s, req, strict).Ok? && req.builds ==>
      var (entry, writes) := EntryFor(s, req, strict).value;
      var cred := req.NewCred(Some(entry));
      Alone(Create(req, strict), s) == Committing([Created(cred)], writes + [(CredKey(req.id), CredV(cred))])
  {
    CreateDecides(s, req, strict);
  }

  lemma AllocatedEntryDecides(s: Store, req: CreateRequest, strict: bool)
    requires req.IsStatusValid() && req.HasStatus() && IsList(FindList(req.StatusTriple())(s))
    ensures Alone(Create(req, strict), s).Committing? <==> EntryFor(s, req, strict).Ok? && req.builds
    ensures EntryFor(s, req, strict).Ok? && req.builds ==>
      var (entry, writes) := EntryFor(s, req, strict).value;
      var cred := req.NewCred(Some(entry));
      Alone(Create(req, strict), s) == Committing([Created(cred)], writes + [(CredKey(req.id), CredV(cred))])
  {
    var t := req.StatusTriple();
    var l, p, c := FindList(t)(s), Lookup(PoolKey(t))(s), Lookup(CursorKey(t))(s);
    CreateDecides(s, req, strict);
    assert [l, p][1..] == [p] && [l, p, c, c][1..] == [p, c, c];
  }

  method CreateStatusListEntryForCredential(db: Store, tx: Tx<Key, Value>, req: CreateRequest, strict: bool) returns (r: Result<Entry>)
    modifies tx
    ensures r.Ok? <==> EntryFor(db, req, strict).Ok?
    ensures r.Ok? ==> r.value == EntryFor(db, req, strict).value.0 && tx.queue == old(tx.queue) + EntryFor(db, req, strict).value.1
  {
    var t := req.StatusTriple();
    var several, list := GetStatusListCredentialKeyData(db, t);
    if several {
      return Err("only one status list credential per triple allowed");
    }
    if list.None? {
      if req.shuffle == [] {
        return Err("index out of range");
      }
      tx.Write(PoolKey(t), PoolV(req.shuffle));
      tx.Write(CursorKey(t), CursorV(1));
      tx.Write(ListKey(t), ListV(BitList(req.listID, t.purpose, {})));
      return Ok(Entry(t.purpose, req.shuffle[0], req.listID));
    }
    if !list.value.ListV? {
      return Err("unmarshalling credential");
    }
    var index := GetNextStatusListRandomIndex(db, t);
    if index.Err? {
      return Err(index.err);
    }
    var incremented := IncrementStatusListIndexTx(db, tx, t, strict);
    if !incremented {
      return Err("incrementing status list index");
    }
    r := Ok(Entry(t.purpose, index.value, list.value.list.id));
  }

  /** createCredential commits exactly when its script does, with the same output and writes. */
  method CreateCredential(db: Store, tx: Tx<Key, Value>, req: CreateRequest, strict: bool) returns (r: Result<Response>)
    modifies tx
    ensures r.Ok? <==> Alone(Create(req, strict), db).Committing?
    ensures r.Ok? ==> [r.value] == Alone(Create(req, strict), db).outs && tx.queue == old(tx.queue) + Alone(Create(req, strict), db).writes
  {
    if !req.IsStatusValid() {
      CreateDecides(db, req, strict);
      return Err("credential may have at most one status");
    }
    if !req.HasStatus() {
      CreateDecides(db, req, strict);
      r := StoreCredentialTx(tx, req, None);
      return;
    }
    EntryDecides(db, req, strict);
    var entry := CreateStatusListEntryForCredential(db, tx, req, strict);
    if entry.Err? {
      return Err(entry.err);
    }
    r := StoreCredentialTx(tx, req, Some(entry.value));
  }

  lemma CreateInBatch(db: Store, reqs: seq<CreateRequest>, strict: bool, i: nat, outs: seq<Response>, queue: seq<(Key, Value)>)
    requires i < |reqs| && From(Body(reqs, strict), i, [], outs, queue, db) == Alone(Body(reqs, strict), db)
    ensures Alone(Body(reqs, strict), db) ==
            match Alone(Create(reqs[i], strict), db)
            case Committing(outs', writes) => From(Body(reqs, strict), i + 1, [], outs + outs', queue + writes, db)
            case Aborting(err) => Aborting(err)
  {
    assert [Body(reqs, strict)[i]] == Create(reqs[i], strict);
    NextFunction(Body(reqs, strict), i, [], outs, queue, db);
  }

  /** BatchCreateCredentials: the loop stops at the first failure, and then nothing is committed. */
  method BatchCreateCredentials(db: Store, tx: Tx<Key, Value>, reqs: seq<CreateRequest>, strict: bool) returns (r: Result<seq<Response>>)
    modifies tx
    ensures r.Ok? <==> Alone(Body(reqs, strict), db).Committing?
    ensures r.Ok? ==> r.value == Alone(Body(reqs, strict), db).outs && tx.queue == old(tx.queue) + Alone(Body(reqs, strict), db).writes
  {
    var credentials := [];
    ghost var body, written := Body(reqs, strict), [];
    for i := 0 to |reqs|
      invariant tx.queue == old(tx.queue) + written
      invariant From(body, i, [], credentials, written, db) == Alone(body, db)
    {
      CreateInBatch(db, reqs, strict, i, credentials, written);
      var created := CreateCredential(db, tx, reqs[i], strict);
      if created.Err? {
        return Err(created.err);
      }
      credentials := credentials + [created.value];
      written := written + Alone(Create(reqs[i], strict), db).writes;
    }
    r := Ok(credentials);
  }

  /** The accumulation over the credentials that the scan of issuer and schema takes: every other
      one that carries the requested flag. */
  method FlaggedOthers(db: Store, issuer: string, schema: string, req: UpdateRequest) returns (bits: set<int>)
    requires !(req.revoked && req.suspended) && issuer == req.t.issuer && schema == req.t.schema
    ensures bits == ScanOthers(req)(db).ix
  {
    var keys := db.Keys;
    ghost var seen: set<Key> := {};
    bits := {};
    ghost var t := Triple(issuer, schema, if req.suspended then Suspension else Revocation);
    while keys != {}
      invariant seen + keys == db.Keys && seen !! keys
      invariant bits == set k | k in seen && k.CredKey? && k.id != req.id && !req.Clears() && IsMarked(db[k], t) :: db[k].cred.status.value.index
      decreases keys
    {
      var k :| k in keys;
      if k.CredKey? && db[k].CredV? {
        var cred := db[k].cred;
        if ScanKeys.CredentialMatches(ScanKeys.PrefixKey(cred.Name()), issuer, schema) && k.id != req.id {
          if req.revoked && cred.status.Some? && cred.revoked {
            bits := bits + {cred.status.value.index};
          } else if req.suspended && cred.status.Some? && cred.suspended {
            bits := bits + {cred.status.value.index};
          }
        }
      }
      keys, seen := keys - {k}, seen + {k};
    }
    ScanAsSet(db, req, bits, t);
  }

  lemma ScanAsSet(db: Store, req: UpdateRequest, bits: set<int>, t: Triple)
    requires !(req.revoked && req.suspended) && t == Triple(req.t.issuer, req.t.schema, if req.suspended then Suspension else Revocation)
    requires bits == set k | k in db && k.CredKey? && k.id != req.id && !req.Clears() && IsMarked(db[k], t) :: db[k].cred.status.value.index
    ensures bits == ScanOthers(req)(db).ix
  {
    if !req.Clears() {
      forall x | x in bits ensures x in Others(db, t, req.id) {
        var k :| k in db && k.CredKey? && k.id != req.id && IsMarked(db[k], t) && db[k].cred.status.value.index == x;
        assert (k.id, x) in Marked(db, t);
      }
    }
  }

  /** updateCredentialStatus scans by the issuer and schema of the credential it read. */
  method UpdateCredentialStatus(db: Store, tx: Tx<Key, Value>, req: UpdateRequest) returns (r: Result<Response>)
    requires Holds(db, req)
    modifies tx
    ensures r.Ok? <==> Alone(Update(req), db).Committing?
    ensures r.Ok? ==> [r.value] == Alone(Update(req), db).outs && tx.queue == old(tx.queue) + Alone(Update(req), db).writes
  {
    UpdateDecides(db, req);
    if req.suspended && req.revoked {
      return Err("cannot update both suspended and revoked status");
    }
    var got := db[CredKey(req.id)].cred;
    if got.revoked == req.revoked && got.suspended == req.suspended {
      return Ok(Updated(got.revoked, got.suspended));
    }
    tx.Write(CredKey(req.id), CredV(got.(revoked := req.revoked, suspended := req.suspended)));
    var bits := FlaggedOthers(db, got.issuer, got.schema, req);
    if req.revoked || req.suspended {
      bits := bits + {got.status.value.index};
    }
    if !req.builds {
      return Err("could not generate status list");
    }
    var purpose := if req.suspended then Suspension else Revocation;
    tx.Write(ListKey(req.t), ListV(BitList(got.status.value.listID, purpose, bits)));
    WrittenByUpdate(db, req);
    assert bits == ScanOthers(req)(db).ix + if req.Clears() then {} else {IndexAt(db, CredKey(req.id))};
    assert UpdateWrites(db, req) == [UpdateWrites(db, req)[0]] + [UpdateWrites(db, req)[1]];
    assert tx.queue == old(tx.queue) + UpdateWrites(db, req);
    r := Ok(Updated(req.revoked, req.suspended));
  }

  lemma UpdateInBatch(db: Store, reqs: seq<UpdateRequest>, i: nat, outs: seq<Response>, queue: seq<(Key, Value)>)
    requires i < |reqs| && From(UpdateBody(reqs), i, [], outs, queue, db) == Alone(UpdateBody(reqs), db)
    ensures Alone(UpdateBody(reqs), db) ==
            match Alone(Update(reqs[i]), db)
            case Committing(outs', writes) => From(UpdateBody(reqs), i + 1, [], outs + outs', queue + writes, db)
            case Aborting(err) => Aborting(err)
  {
    assert [UpdateBody(reqs)[i]] == Update(reqs[i]);
    NextFunction(UpdateBody(reqs), i, [], outs, queue, db);
  }

  /** BatchUpdateCredentialStatus: all of the updates or none. */
  method BatchUpdateCredentialStatus(db: Store, tx: Tx<Key, Value>, reqs: seq<UpdateRequest>) returns (r: Result<seq<Response>>)
    requires forall i :: 0 <= i < |reqs| ==> Holds(db, reqs[i])
    modifies tx
    ensures r.Ok? <==> Alone(UpdateBody(reqs), db).Committing?
    ensures r.Ok? ==> r.value == Alone(UpdateBody(reqs), db).outs && tx.queue == old(tx.queue) + Alone(UpdateBody(reqs), db).writes
  {
    var statuses := [];
    ghost var body, written := UpdateBody(reqs), [];
    for i := 0 to |reqs|
      invariant tx.queue == old(tx.queue) + written
      invariant From(body, i, [], statuses, written, db) == Alone(body, db)
    {
      UpdateInBatch(db, reqs, i, statuses, written);
      var updated := UpdateCredentialStatus(db, tx, reqs[i]);
      if updated.Err? {
        return Err(updated.err);
      }
      statuses := statuses + [updated.value];
      written := written + Alone(Update(reqs[i]), db).writes;
    }
    r := Ok(statuses);
  }
}
