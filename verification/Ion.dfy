/** The crash-resumable update log of a did:ion document: the transitions of one DID's records, the
    ledger that anchors its updates, and the handler that runs them. */
module Ion {
  import opened Wrappers

  datatype PublicKey = PublicKey(n: nat)

  datatype PrivateKey = PrivateKey(n: nat)
  {
    function Public(): PublicKey { PublicKey(n) }
  }

  datatype Patch = Patch(text: string)

  /** A Sidetree update: it reveals the key committed to by the operation before it, is signed with
      that key, and commits to the next one. */
  datatype UpdateOp = UpdateOp(revealed: PublicKey, signer: PrivateKey, next: PublicKey, patches: seq<Patch>)

  datatype Operation = Creation | Update(op: UpdateOp)

  datatype LongForm = LongForm(did: string, suffixData: string, patches: seq<Patch>, commitment: Option<PublicKey>)

  datatype Document = Document(id: string, patches: seq<Patch>)

  datatype StoredDID = StoredDID(id: string, document: Document, softDeleted: bool, longForm: LongForm, operations: seq<Operation>)

  datatype PreAnchor = PreAnchor(op: UpdateOp, nextPublic: PublicKey, updated: StoredDID)

  datatype Status = Blank | PreAnchored | Anchored | AnchorError | Done

  datatype UpdateState = UpdateState(status: Status, preAnchor: Option<PreAnchor>, anchorErr: Option<string>)

  /** What the store holds for the DID: the log, the key `did#update`, the key `staging:did`, and
      the document record. */
  datatype Db = Db(states: Option<seq<UpdateState>>, updateKey: Option<PrivateKey>, staging: Option<PrivateKey>, record: Option<StoredDID>)

  /** `valid` is the state change's own validation, `builds` whether the SDK can build the request. */
  datatype Request = Request(patches: seq<Patch>, valid: bool, builds: bool)

  const BLANK := UpdateState(Blank, None, None)

  function Last(states: seq<UpdateState>): UpdateState
    requires states != []
  {
    states[|states| - 1]
  }

  function SetLast(states: seq<UpdateState>, state: UpdateState): seq<UpdateState>
    requires states != []
  {
    states[..|states| - 1] + [state]
  }

  predicate Ended(state: UpdateState) { state.status == Done || state.status == AnchorError }

  /** updateLongForm: the new initial state holds the old patches followed by the update's. */
  function UpdateLongForm(did: string, longForm: LongForm, op: UpdateOp): (LongForm, Document) {
    var patches := longForm.patches + op.patches;
    (LongForm(did, longForm.suffixData, patches, Some(op.next)), Document(did, patches))
  }

  function UpdatedRecord(record: StoredDID, op: UpdateOp): StoredDID {
    var (longForm, document) := UpdateLongForm(record.id, record.longForm, op);
    StoredDID(record.id, document, record.softDeleted, longForm, record.operations + [Update(op)])
  }

  // ---- The two transactions ----

  function LogOf(db: Db): seq<UpdateState> {
    if db.states.None? then [BLANK] else db.states.value
  }

  /** prepareUpdate: resume the last entry, or sign a new update and stage its next key. */
  function Prepare(db: Db, request: Request, nextKey: PrivateKey): Result<(Db, seq<UpdateState>)> {
    if db.updateKey.None? then Err("fetching update private key")
    else if LogOf(db) == [] then Err("index out of range")
    else
      var states := if Ended(Last(LogOf(db))) then LogOf(db) + [BLANK] else LogOf(db);
      if Last(states).status != Blank then Ok((db, states))
      else if !request.builds then Err("creating update request")
      else if db.record.None? then Err("getting ion did from storage")
      else
        var key := db.updateKey.value;
        var op := UpdateOp(key.Public(), key, nextKey.Public(), request.patches);
        var pre := PreAnchor(op, nextKey.Public(), UpdatedRecord(db.record.value, op));
        var states' := SetLast(states, UpdateState(PreAnchored, Some(pre), None));
        Ok((db.(states := Some(states'), staging := Some(nextKey)), states'))
  }

  /** applyUpdate: promote the staged key, store the updated record and close the entry. */
  function Apply(db: Db): Result<Db> {
    if db.updateKey.None? then Err("fetching update private key")
    else if LogOf(db) == [] then Err("index out of range")
    else
      var state := Last(LogOf(db));
      if state.status != Anchored then Ok(db)
      else if db.staging.None? then Err("getting key from keystore")
      else if state.preAnchor.None? then Err("nil pointer dereference")
      else Ok(Db(Some(SetLast(LogOf(db), state.(status := Done))), db.staging, db.staging, Some(state.preAnchor.value.updated)))
  }

  /** Applying is harmless when it has been done already, or when there is nothing to apply. */
  lemma ApplyTwice(db: Db)
    requires db.updateKey.Some? && LogOf(db) != []
    ensures Last(LogOf(db)).status != Anchored ==> Apply(db) == Ok(db)
    ensures Apply(db).Ok? ==> Apply(Apply(db).value) == Apply(db)
  {
  }

  // ---- The ledger ----

  /** The network's view: the key the next update must reveal, and the updates applied so far. */
  datatype Ledger = Ledger(current: PublicKey, applied: seq<UpdateOp>)

  /** How a call to anchor ends: answered, applied or refused without an answer, or never sent. */
  datatype Reply = Acked | ReplyLost | NotReached

  predicate Accepts(ledger: Ledger, op: UpdateOp, reply: Reply) {
    !reply.NotReached? && op.revealed == ledger.current
  }

  function LedgerAfter(ledger: Ledger, op: UpdateOp, reply: Reply): Ledger {
    if Accepts(ledger, op, reply) then Ledger(op.next, ledger.applied + [op]) else ledger
  }

  /** The entry after the anchor call. `exact` says how isPreviouslyAnchoredError answers: always
      false as in the code, or exactly whether the ledger has applied the update. */
  function AnchoredState(exact: bool, state: UpdateState, ledger: Ledger, reply: Reply): UpdateState
    requires state.preAnchor.Some?
  {
    var op := state.preAnchor.value.op;
    var ok := reply.Acked? && Accepts(ledger, op, reply);
    if ok then state.(status := Anchored, anchorErr := Some(""))
    else if exact && op in LedgerAfter(ledger, op, reply).applied then state.(status := Anchored, anchorErr := Some("anchor"))
    else state.(status := AnchorError, anchorErr := Some("anchor"))
  }

  // ---- A call from beginning to end ----

  function Finished(db: Db, state: UpdateState): (Db, Result<Document>)
    requires state.preAnchor.Some?
  {
    match Apply(db)
    case Ok(db') => (db', Ok(state.preAnchor.value.updated.document))
    case Err(err) => (db, Err(err))
  }

  /** What follows the first transaction: anchor unless already anchored, store, apply. */
  function Anchoring(prepared: Db, log: seq<UpdateState>, ledger: Ledger, reply: Reply): (Db, Ledger, Result<Document>)
    requires log != [] && Last(log).preAnchor.Some?
  {
    var state := Last(log);
    if state.status != PreAnchored then
      var (db', r) := Finished(prepared, state);
      (db', ledger, r)
    else
      var state' := AnchoredState(false, state, ledger, reply);
      var stored := prepared.(states := Some(SetLast(log, state')));
      var ledger' := LedgerAfter(ledger, state.preAnchor.value.op, reply);
      if state'.status == AnchorError then (stored, ledger', Err("anchor"))
      else
        var (db', r) := Finished(stored, state);
        (db', ledger', r)
  }

  /** An undisturbed call. */
  function Call(db: Db, ledger: Ledger, request: Request, nextKey: PrivateKey, reply: Reply): (Db, Ledger, Result<Document>)
    requires db.states.Some? ==> WellLogged(db.states.value)
  {
    if !request.valid then (db, ledger, Err("validating StateChange"))
    else match Prepare(db, request, nextKey)
      case Err(err) => (db, ledger, Err(err))
      case Ok((prepared, log)) => Anchoring(prepared, log, ledger, reply)
  }

  // ---- The handler ----

  class IonHandler {
    var states: Option<seq<UpdateState>>
    var updateKey: Option<PrivateKey>
    var staging: Option<PrivateKey>
    var record: Option<StoredDID>
    var ledger: Ledger  // behind h.resolver

    constructor (record: StoredDID, key: PrivateKey)
      ensures Stored() == Db(None, Some(key), None, Some(record)) && ledger == Ledger(key.Public(), [])
    {
      this.states, this.updateKey, this.staging, this.record := None, Some(key), None, Some(record);
      this.ledger := Ledger(key.Public(), []);
    }

    function Stored(): Db
      reads this
    {
      Db(states, updateKey, staging, record)
    }

    method PrepareUpdate(request: Request, nextKey: PrivateKey) returns (r: Result<seq<UpdateState>>)
      modifies this
      ensures ledger == old(ledger)
      ensures match Prepare(old(Stored()), request, nextKey)
              case Ok((db, log)) => r == Ok(log) && Stored() == db
              case Err(err) => r == Err(err) && Stored() == old(Stored())
    {
      if updateKey.None? {
        return Err("fetching update private key");
      }
      var log := if states.None? then [BLANK] else states.value;
      if log == [] {
        return Err("index out of range");
      }
      if Last(log).status == Done || Last(log).status == AnchorError {
        log := log + [BLANK];
      }
      if Last(log).status == Blank {
        if !request.builds {
          return Err("creating update request");
        }
        if record.None? {
          return Err("getting ion did from storage");
        }
        var op := UpdateOp(updateKey.value.Public(), updateKey.value, nextKey.Public(), request.patches);
        var pre := PreAnchor(op, nextKey.Public(), UpdatedRecord(record.value, op));
        log := SetLast(log, UpdateState(PreAnchored, Some(pre), None));
        staging := Some(nextKey);
        states := Some(log);
      }
      r := Ok(log);
    }

    method ApplyUpdate() returns (r: Result<()>)
      modifies this
      ensures ledger == old(ledger)
      ensures match Apply(old(Stored()))
              case Ok(db) => r.Ok? && Stored() == db
              case Err(err) => r == Err(err) && Stored() == old(Stored())
    {
      if updateKey.None? {
        return Err("fetching update private key");
      }
      var log := if states.None? then [BLANK] else states.value;
      if log == [] {
        return Err("index out of range");
      }
      var state := Last(log);
      if state.status == Anchored {
        if staging.None? {
          return Err("getting key from keystore");
        }
        if state.preAnchor.None? {
          return Err("nil pointer dereference");
        }
        updateKey := staging;
        record := Some(state.preAnchor.value.updated);
        states := Some(SetLast(log, state.(status := Done)));
      }
      r := Ok(());
    }

    method IsPreviouslyAnchoredError(err: string) returns (previously: bool)
      ensures !previously
    {
      previously := false;
    }

    method Anchor(op: UpdateOp, reply: Reply) returns (ok: bool)
      modifies this`ledger
      ensures ledger == LedgerAfter(old(ledger), op, reply)
      ensures ok <==> reply.Acked? && Accepts(old(ledger), op, reply)
    {
      ok := reply.Acked? && Accepts(ledger, op, reply);
      ledger := LedgerAfter(ledger, op, reply);
    }

    method UpdateDID(request: Request, nextKey: PrivateKey, reply: Reply) returns (r: Result<Document>)
      requires states.Some? ==> WellLogged(states.value)
      modifies this
      ensures (Stored(), ledger, r) == Call(old(Stored()), old(ledger), request, nextKey, reply)
    {
      if !request.valid {
        return Err("validating StateChange");
      }
      var prepared := PrepareUpdate(request, nextKey);
      if prepared.Err? {
        return Err(prepared.err);
      }
      var log := prepared.value;
      var state := Last(log);
      if state.status == PreAnchored {
        var ok := Anchor(state.preAnchor.value.op, reply);
        if !ok {
          var previously := IsPreviouslyAnchoredError("anchor");
          if previously {
            state := state.(status := Anchored, anchorErr := Some("anchor"));
          } else {
            state := state.(status := AnchorError, anchorErr := Some("anchor"));
            states := Some(SetLast(log, state));
            return Err("anchor");
          }
        } else {
          state := state.(status := Anchored, anchorErr := Some(""));
        }
        states := Some(SetLast(log, state));
      }
      var applied := ApplyUpdate();
      if applied.Err? {
        return Err(applied.err);
      }
      r := Ok(state.preAnchor.value.updated.document);
    }

    /** Read the record, set the flag, write the whole record back. */
    method SoftDeleteDID() returns (ok: bool)
      modifies this`record
      ensures ok == old(record).Some?
      ensures record == if ok then Some(old(record).value.(softDeleted := true)) else old(record)
    {
      if record.None? {
        return false;
      }
      var got := record.value.(softDeleted := true);
      record := Some(got);
      ok := true;
    }
  }

  /** Shape of a persisted log: no blank entry, and all but the last are finished. */
  predicate WellLogged(states: seq<UpdateState>) {
    && states != []
    && (forall i :: 0 <= i < |states| ==> states[i].preAnchor.Some? && states[i].status != Blank)
    && (forall i :: 0 <= i < |states| - 1 ==> Ended(states[i]))
  }
}
