/** What the caller of an undisturbed update is told, against what the call leaves behind. */
module IonAnswers {
  import opened Wrappers
  import opened Ion
  import opened IonRuns
  import opened IonTheorems

  /** An earlier call has had its update anchored and recorded so, and got no further. */
  predicate AnchoredAlready(db: Db) { Pending(db) && Last(db.states.value).status == Anchored }

  /** What a caller could look up before the call. */
  predicate WillSucceed(db: Db, ledger: Ledger, request: Request, reply: Reply)
    requires db.updateKey.Some?
  {
    request.valid &&
    (AnchoredAlready(db) || ((Pending(db) || request.builds) && reply.Acked? && ledger.current == db.updateKey.value.Public()))
  }

  /** One update more is done: it is the last entry, the ledger has it, and its key is the update key. */
  predicate OneMoreDone(db: Db, db': Db, ledger': Ledger) {
    && db'.states.Some? && db'.states.value != [] && Last(db'.states.value).status == Done && Last(db'.states.value).preAnchor.Some?
    && var op := Last(db'.states.value).preAnchor.value.op;
       && LocalOps(db') == LocalOps(db) + [op] && op in ledger'.applied
       && db'.updateKey.Some? && db'.updateKey.value.Public() == op.next
  }

  predicate NothingDone(db: Db, db': Db) {
    LocalOps(db') == LocalOps(db) && db'.updateKey == db.updateKey && db'.record == db.record
  }

  /** The answer is a document exactly when the call has got one more update done, and then it is the
      document that is stored; an error leaves the Done updates, the update key and the record as they
      were, with the ledger ahead only if its answer was lost. And exactly when it will succeed. */
  lemma CallAnswers(key: nat, db: Db, ledger: Ledger, request: Request, nextKey: PrivateKey, reply: Reply)
    requires LogInv(key, db) && (AnchoredAlready(db) ==> PendingOp(db) in ledger.applied)
    ensures
      var (db', ledger', r) := Call(db, ledger, request, nextKey, reply);
      && (r.Ok? <==> OneMoreDone(db, db', ledger'))
      && (r.Ok? ==> db'.record.Some? && r.value == db'.record.value.document)
      && (r.Err? ==> NothingDone(db, db') && (ledger' != ledger ==> reply.ReplyLost?))
      && (r.Ok? <==> WillSucceed(db, ledger, request, reply))
  {
    PrepareSucceeds(key, db, request, nextKey);
    if request.valid && Prepare(db, request, nextKey).Ok? {
      PrepareResult(key, db, request, nextKey);
      var prepared := Prepare(db, request, nextKey).value.0;
      AnchoringAnswers(key, prepared, ledger, reply);
      SameFooting(db, prepared, Anchoring(prepared, prepared.states.value, ledger, reply).0, Anchoring(prepared, prepared.states.value, ledger, reply).1);
    } else {
      SameFooting(db, db, db, ledger);
    }
  }

  /** So it is in every record that crashes and soft deletes can lead to. */
  lemma ReachedCallAnswers(record: StoredDID, key: nat, steps: seq<Step>, w: World, request: Request, reply: Reply)
    requires Reaches(false, record, key, steps, w)
    ensures w.db.updateKey.Some? && (w.db.states.Some? ==> WellLogged(w.db.states.value))
    ensures
      var (db', ledger', r) := Call(w.db, w.ledger, request, PrivateKey(w.nextKey), reply);
      && (r.Ok? <==> OneMoreDone(w.db, db', ledger'))
      && (r.Ok? ==> db'.record.Some? && r.value == db'.record.value.document)
      && (r.Err? ==> NothingDone(w.db, db') && (ledger' != w.ledger ==> reply.ReplyLost?))
      && (r.Ok? <==> WillSucceed(w.db, w.ledger, request, reply))
  {
    ReachedInv(false, record, key, steps, w);
    CallAnswers(key, w.db, w.ledger, request, PrivateKey(w.nextKey), reply);
  }

  lemma PrepareSucceeds(key: nat, db: Db, request: Request, nextKey: PrivateKey)
    requires LogInv(key, db)
    ensures Prepare(db, request, nextKey).Ok? <==> Pending(db) || request.builds
  {
  }

  lemma SameFooting(db: Db, prepared: Db, db': Db, ledger': Ledger)
    requires LocalOps(prepared) == LocalOps(db) && prepared.updateKey == db.updateKey && prepared.record == db.record
    ensures OneMoreDone(prepared, db', ledger') <==> OneMoreDone(db, db', ledger')
    ensures NothingDone(prepared, db') <==> NothingDone(db, db')
    ensures !(NothingDone(db, db') && OneMoreDone(db, db', ledger'))
  {
  }

  lemma AnchoringAnswers(key: nat, db: Db, ledger: Ledger, reply: Reply)
    requires LogInv(key, db) && Pending(db) && (AnchoredAlready(db) ==> PendingOp(db) in ledger.applied)
    ensures
      var (db', ledger', r) := Anchoring(db, db.states.value, ledger, reply);
      && (r.Ok? ==> OneMoreDone(db, db', ledger') && db'.record.Some? && r.value == db'.record.value.document)
      && (r.Err? ==> NothingDone(db, db') && (ledger' != ledger ==> reply.ReplyLost?))
      && (r.Ok? <==> AnchoredAlready(db) || (reply.Acked? && ledger.current == db.updateKey.value.Public()))
  {
    if AnchoredAlready(db) {
      AppliedLog(key, db);
    } else {
      AnchorAnswers(key, db, ledger, reply);
    }
  }

  lemma AnchorAnswers(key: nat, db: Db, ledger: Ledger, reply: Reply)
    requires LogInv(key, db) && Pending(db) && Last(db.states.value).status == PreAnchored
    ensures
      var state' := AnchoredState(false, Last(db.states.value), ledger, reply);
      var stored := db.(states := Some(SetLast(db.states.value, state')));
      && LogInv(key, stored) && LocalOps(stored) == LocalOps(db) && (Pending(stored) <==> state'.status == Anchored)
      && (state'.status == Anchored ==> Apply(stored).Ok? && OneMoreDone(db, Apply(stored).value, LedgerAfter(ledger, PendingOp(db), reply)))
  {
    var state' := AnchoredState(false, Last(db.states.value), ledger, reply);
    StoredLog(key, db, SetLast(db.states.value, state'));
    if state'.status == Anchored { AppliedLog(key, db.(states := Some(SetLast(db.states.value, state')))); }
  }

  /** A call that does not resume an earlier one, and is answered, has applied what it was asked to: the
      document is that of the stored patches followed by the request's. It leaves room for the next. */
  lemma NewUpdateAnswers(key: nat, db: Db, ledger: Ledger, request: Request, nextKey: PrivateKey)
    requires LogInv(key, db) && Quiescent(db) && ledger.current == db.updateKey.value.Public() && request.valid && request.builds
    ensures
      var (db', ledger', r) := Call(db, ledger, request, nextKey, Acked);
      && r == Ok(Document(db.record.value.id, db.record.value.longForm.patches + request.patches))
      && LogInv(key, db') && Quiescent(db') && ledger'.current == db'.updateKey.value.Public()
      && db'.record.value.id == db.record.value.id && db'.record.value.longForm.did == db.record.value.id
      && db'.record.value.longForm.patches == db.record.value.longForm.patches + request.patches
      && db'.record.value.document == r.value
      && |LocalOps(db')| == |LocalOps(db)| + 1
  {
    PrepareResult(key, db, request, nextKey);
    var prepared := Prepare(db, request, nextKey).value.0;
    AnchorAnswers(key, prepared, ledger, Acked);
    var state' := AnchoredState(false, Last(prepared.states.value), ledger, Acked);
    AppliedLog(key, prepared.(states := Some(SetLast(prepared.states.value, state'))));
  }

  // ---- Call after call ----

  lemma CallKeepsLog(db: Db, ledger: Ledger, request: Request, nextKey: PrivateKey, reply: Reply)
    requires db.states.Some? ==> WellLogged(db.states.value)
    ensures var db' := Call(db, ledger, request, nextKey, reply).0; db'.states.Some? ==> WellLogged(db'.states.value)
  {
    if Prepare(db, request, nextKey).Ok? {
      PrepareKeepsLog(db, request, nextKey);
      AnchoringKeepsLog(Prepare(db, request, nextKey).value.0, ledger, reply);
    }
  }

  lemma AnchoringKeepsLog(db: Db, ledger: Ledger, reply: Reply)
    requires db.states.Some? && WellLogged(db.states.value)
    ensures var db' := Anchoring(db, db.states.value, ledger, reply).0; db'.states.Some? ==> WellLogged(db'.states.value)
  {
    var log := db.states.value;
    var state' := AnchoredState(false, Last(log), ledger, reply);
    LastReplaced(log, state');
    ApplyKeepsLog(db.(states := Some(SetLast(log, state'))));
    ApplyKeepsLog(db);
  }

  lemma ApplyKeepsLog(db: Db)
    requires db.states.Some? && WellLogged(db.states.value)
    ensures Apply(db).Ok? ==> Apply(db).value.states.Some? && WellLogged(Apply(db).value.states.value)
  {
    LastReplaced(db.states.value, Last(db.states.value).(status := Done));
  }

  lemma PrepareKeepsLog(db: Db, request: Request, nextKey: PrivateKey)
    requires (db.states.Some? ==> WellLogged(db.states.value)) && Prepare(db, request, nextKey).Ok?
    ensures WellLogged(Prepare(db, request, nextKey).value.1) && Prepare(db, request, nextKey).value.0.states == Some(Prepare(db, request, nextKey).value.1)
  {
  }

  /** The answers to calls one after the other, each with a key of its own and answered by the ledger. */
  function Calls(db: Db, ledger: Ledger, requests: seq<Request>, nextKey: nat): seq<Result<Document>>
    requires db.states.Some? ==> WellLogged(db.states.value)
    decreases |requests|
  {
    if requests == [] then []
    else
      var (db', ledger', answer) := Call(db, ledger, requests[0], PrivateKey(nextKey), Acked);
      CallKeepsLog(db, ledger, requests[0], PrivateKey(nextKey), Acked);
      [answer] + Calls(db', ledger', requests[1..], nextKey + 1)
  }

  function AskedPatches(requests: seq<Request>): seq<Patch>
    decreases |requests|
  {
    if requests == [] then [] else requests[0].patches + AskedPatches(requests[1..])
  }

  /** Each answer is the document of the patches there were and those of the requests up to its own. */
  predicate Accumulated(id: string, before: seq<Patch>, requests: seq<Request>, answers: seq<Result<Document>>) {
    && |answers| == |requests|
    && forall i :: 0 <= i < |requests| ==> answers[i] == Ok(Document(id, before + AskedPatches(requests[..i + 1])))
  }

  lemma AnswersJoin(id: string, before: seq<Patch>, requests: seq<Request>, after: seq<Result<Document>>)
    requires requests != [] && Accumulated(id, before + requests[0].patches, requests[1..], after)
    ensures Accumulated(id, before, requests, [Ok(Document(id, before + requests[0].patches))] + after)
  {
    var all := [Ok(Document(id, before + requests[0].patches))] + after;
    forall i | 0 <= i < |requests| ensures all[i] == Ok(Document(id, before + AskedPatches(requests[..i + 1]))) {
      assert requests[..i + 1][1..] == requests[1..][..i];
      assert before + (requests[0].patches + AskedPatches(requests[1..][..i])) == before + requests[0].patches + AskedPatches(requests[1..][..i]);
      if i == 0 {
        assert requests[1..][..0] == [];
        assert before + requests[0].patches + [] == before + requests[0].patches;
      } else {
        assert all[i] == after[i - 1];
      }
    }
  }

  /** Every one of them is answered, and the answers accumulate the patches in order. */
  lemma {:induction false} CallsAccumulate(key: nat, db: Db, ledger: Ledger, requests: seq<Request>, nextKey: nat)
    requires LogInv(key, db) && Quiescent(db) && ledger.current == db.updateKey.value.Public()
    requires forall i :: 0 <= i < |requests| ==> requests[i].valid && requests[i].builds
    ensures Accumulated(db.record.value.id, db.record.value.longForm.patches, requests, Calls(db, ledger, requests, nextKey))
    decreases |requests|
  {
    if requests != [] {
      var (db', ledger', answer) := Call(db, ledger, requests[0], PrivateKey(nextKey), Acked);
      NewUpdateAnswers(key, db, ledger, requests[0], PrivateKey(nextKey));
      CallsAccumulate(key, db', ledger', requests[1..], nextKey + 1);
      AnswersJoin(db.record.value.id, db.record.value.longForm.patches, requests, Calls(db', ledger', requests[1..], nextKey + 1));
    }
  }
}
