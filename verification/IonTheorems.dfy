/** What every run of updates on one DID keeps. */
module IonTheorems {
  import opened Wrappers
  import opened Ion
  import opened IonRuns

  ghost predicate Reaches(exact: bool, record: StoredDID, key: nat, steps: seq<Step>, w: World) {
    IsRun(exact, Genesis(record, key), steps) && w == End(exact, Genesis(record, key), steps)
  }

  lemma ReachedInv(exact: bool, record: StoredDID, key: nat, steps: seq<Step>, w: World)
    requires Reaches(exact, record, key, steps, w)
    ensures Inv(exact, key, !exact && EverLoses(exact, Genesis(record, key), steps), w)
  {
    GenesisInv(exact, record, key);
    RunsKeepInv(exact, key, false, Genesis(record, key), steps);
  }

  /** The key chain: whatever crashes, each Done update was signed with the key its predecessor
      committed to, the stored update key is the next in the chain, and while an update is pending
      the staged key is the one it commits to. */
  lemma KeyChain(exact: bool, record: StoredDID, key: nat, steps: seq<Step>, w: World)
    requires Reaches(exact, record, key, steps, w)
    ensures
      var ops := LocalOps(w.db);
      && (forall i :: 0 <= i < |ops| ==> ops[i].revealed == (if i == 0 then PublicKey(key) else ops[i - 1].next) && ops[i].signer.Public() == ops[i].revealed)
      && w.db.updateKey.Some? && w.db.updateKey.value.Public() == Head(PublicKey(key), ops)
    ensures Pending(w.db) ==>
      && w.db.staging.Some? && Last(w.db.states.value).preAnchor.Some?
      && w.db.staging.value.Public() == Last(w.db.states.value).preAnchor.value.nextPublic
  {
    ReachedInv(exact, record, key, steps, w);
    forall i | 0 <= i < |LocalOps(w.db)|
      ensures LocalOps(w.db)[i].revealed == (if i == 0 then PublicKey(key) else LocalOps(w.db)[i - 1].next) && LocalOps(w.db)[i].signer.Public() == LocalOps(w.db)[i].revealed
    {
      ChainedAt(PublicKey(key), LocalOps(w.db), i);
    }
  }

  /** If an already applied update is recognised exactly, the local update key and updates are the
      ledger's at every quiescent point, after any crashes and lost answers. */
  lemma LedgerAgreementExact(record: StoredDID, key: nat, steps: seq<Step>, w: World)
    requires Reaches(true, record, key, steps, w) && Quiescent(w.db)
    ensures Agrees(w)
  {
    ReachedInv(true, record, key, steps, w);
  }

  /** With the constant false of the code this holds exactly when no accepted anchor went
      unrecorded. */
  lemma LedgerAgreementConstantFalse(record: StoredDID, key: nat, steps: seq<Step>, w: World)
    requires Reaches(false, record, key, steps, w) && Quiescent(w.db)
    ensures Agrees(w) <==> !EverLoses(false, Genesis(record, key), steps)
  {
    ReachedInv(false, record, key, steps, w);
  }

  // ---- The log ----

  predicate StatusMoves(from: Status, to: Status) {
    || (from == PreAnchored && (to == Anchored || to == AnchorError))
    || (from == Anchored && to == Done)
  }

  /** One step leaves the log, appends a pre-anchor entry to a finished one, or moves the status of
      the last entry and nothing else of what it says about the update. */
  predicate LogMoves(db: Db, db': Db) {
    || db'.states == db.states
    || (&& Quiescent(db) && db'.states.Some? && db'.states.value != []
        && db'.states.value == (if db.states.None? then [] else db.states.value) + [Last(db'.states.value)]
        && Last(db'.states.value).status == PreAnchored)
    || (&& db.states.Some? && db'.states.Some? && db.states.value != [] && db'.states.value != []
        && db'.states.value == SetLast(db.states.value, Last(db'.states.value))
        && StatusMoves(Last(db.states.value).status, Last(db'.states.value).status)
        && Last(db'.states.value).preAnchor == Last(db.states.value).preAnchor)
  }

  lemma LogShape(exact: bool, record: StoredDID, key: nat, steps: seq<Step>, w: World, step: Step)
    requires Reaches(exact, record, key, steps, w) && Enabled(w, step) && Exclusive(w, step)
    ensures w.db.states.Some? ==> WellLogged(w.db.states.value)
    ensures LogMoves(w.db, Next(exact, w, step).db)
  {
    ReachedInv(exact, record, key, steps, w);
    StepMovesLog(exact, key, !exact && EverLoses(exact, Genesis(record, key), steps), w, step);
  }

  lemma StepMovesLog(exact: bool, key: nat, lost: bool, w: World, step: Step)
    requires Inv(exact, key, lost, w) && Enabled(w, step) && Exclusive(w, step)
    ensures LogMoves(w.db, Next(exact, w, step).db)
  {
    if step.Begin? {
      BeginMovesLog(exact, key, lost, w, step);
    } else if step.Store? {
      assert ProcInv(exact, w, step.p);
      StoreMovesLog(exact, w, step);
    } else if step.Finish? {
      assert ProcInv(exact, w, step.p);
      ApplyMovesLog(w.db);
    }
  }

  lemma BeginMovesLog(exact: bool, key: nat, lost: bool, w: World, step: Step)
    requires Inv(exact, key, lost, w) && step.Begin? && Enabled(w, step)
    ensures LogMoves(w.db, Next(exact, w, step).db)
  {
    if step.request.valid && Prepare(w.db, step.request, PrivateKey(w.nextKey)).Ok? {
      PrepareResult(key, w.db, step.request, PrivateKey(w.nextKey));
    }
  }

  lemma StoreMovesLog(exact: bool, w: World, step: Step)
    requires w.db.updateKey.Some? && (w.db.states.Some? ==> WellLogged(w.db.states.value))
    requires step.Store? && Enabled(w, step) && ProcInv(exact, w, step.p)
    ensures LogMoves(w.db, Next(exact, w, step).db)
  {
  }

  lemma ApplyMovesLog(db: Db)
    requires db.states.Some? && WellLogged(db.states.value) && Last(db.states.value).status == Anchored
    ensures Apply(db).Ok? ==> LogMoves(db, Apply(db).value)
  {
  }

  /** prepareUpdate always hands back a last entry that is pre-anchor or anchored; a pending update
      is resumed as it is, whatever the new request says. */
  lemma PrepareYieldsPending(exact: bool, record: StoredDID, key: nat, steps: seq<Step>, w: World, request: Request)
    requires Reaches(exact, record, key, steps, w) && Prepare(w.db, request, PrivateKey(w.nextKey)).Ok?
    ensures
      var (db, log) := Prepare(w.db, request, PrivateKey(w.nextKey)).value;
      && log != [] && (Last(log).status == PreAnchored || Last(log).status == Anchored)
      && db.states == Some(log)
      && (Pending(w.db) ==> db == w.db)
  {
    ReachedInv(exact, record, key, steps, w);
    PrepareResult(key, w.db, request, PrivateKey(w.nextKey));
  }

  // ---- The call that is not interrupted ----

  function StepsOf(p: nat, db: Db, ledger: Ledger, request: Request, nextKey: PrivateKey, reply: Reply): seq<Step>
    requires db.states.Some? ==> WellLogged(db.states.value)
  {
    var prepared := Prepare(db, request, nextKey);
    if !request.valid || prepared.Err? then [Begin(p, request)]
    else
      var state := Last(prepared.value.1);
      [Begin(p, request)] +
      if state.status != PreAnchored then [Finish(p)]
      else AnchorTail(p, AnchoredState(false, state, ledger, reply).status == AnchorError, reply)
  }

  lemma RunCons(w: World, step: Step, w': World, rest: seq<Step>)
    requires Enabled(w, step) && Exclusive(w, step) && Next(false, w, step) == w' && IsRun(false, w', rest)
    ensures IsRun(false, w, [step] + rest) && End(false, w, [step] + rest) == End(false, w', rest)
  {
    assert ([step] + rest)[1..] == rest;
  }

  lemma FinishRuns(w: World, p: nat, state: UpdateState)
    requires w.procs == map[p := ToApply] && state.preAnchor.Some?
    ensures IsRun(false, w, [Finish(p)]) && End(false, w, [Finish(p)]) == w.(db := Finished(w.db, state).0, procs := map[])
  {
    assert w.procs - {p} == map[];
    RunCons(w, Finish(p), Next(false, w, Finish(p)), []);
    assert [Finish(p)] + [] == [Finish(p)];
  }

  lemma BeginRuns(w: World, p: nat, request: Request, log: seq<UpdateState>, db: Db)
    requires w.procs == map[] && request.valid && Prepare(w.db, request, PrivateKey(w.nextKey)) == Ok((db, log)) && log != []
    ensures
      var proc := if Last(log).status == PreAnchored then Prepared(log) else ToApply;
      Exclusive(w, Begin(p, request)) && Next(false, w, Begin(p, request)) == World(db, w.ledger, w.nextKey + 1, map[p := proc])
  {
  }

  lemma AnchorStoreRuns(w: World, p: nat, log: seq<UpdateState>, reply: Reply)
    requires w.procs == map[p := Prepared(log)] && log != [] && Last(log).preAnchor.Some?
    ensures
      var state' := AnchoredState(false, Last(log), w.ledger, reply);
      var stored := World(w.db.(states := Some(SetLast(log, state'))), LedgerAfter(w.ledger, Last(log).preAnchor.value.op, reply), w.nextKey,
                          if state'.status == AnchorError then map[] else map[p := ToApply]);
      && Enabled(w, Anchor(p, reply))
      && var w' := Next(false, w, Anchor(p, reply)); Enabled(w', Store(p)) && Next(false, w', Store(p)) == stored
  {
    var state' := AnchoredState(false, Last(log), w.ledger, reply);
    var w' := Next(false, w, Anchor(p, reply));
    assert w'.procs == map[p := ToStore(SetLast(log, state'))];
    assert w'.procs - {p} == map[] && w'.procs[p := ToApply] == map[p := ToApply];
  }

  /** The rest of a call that has to anchor. */
  function AnchorTail(p: nat, failed: bool, reply: Reply): seq<Step> {
    [Anchor(p, reply)] + ([Store(p)] + if failed then [] else [Finish(p)])
  }

  lemma AnchorTailRuns(w: World, p: nat, log: seq<UpdateState>, reply: Reply)
    requires w.procs == map[p := Prepared(log)] && log != [] && Last(log).preAnchor.Some?
    ensures
      var state' := AnchoredState(false, Last(log), w.ledger, reply);
      var stored := w.db.(states := Some(SetLast(log, state')));
      var steps := AnchorTail(p, state'.status == AnchorError, reply);
      && IsRun(false, w, steps)
      && End(false, w, steps) == World(if state'.status == AnchorError then stored else Finished(stored, Last(log)).0,
                                       LedgerAfter(w.ledger, Last(log).preAnchor.value.op, reply), w.nextKey, map[])
  {
    AnchorStoreRuns(w, p, log, reply);
    var w2 := Next(false, w, Anchor(p, reply));
    var w3 := Next(false, w2, Store(p));
    if AnchoredState(false, Last(log), w.ledger, reply).status == AnchorError {
      RunCons(w2, Store(p), w3, []);
      RunCons(w, Anchor(p, reply), w2, [Store(p)] + []);
    } else {
      FinishRuns(w3, p, Last(log));
      RunCons(w2, Store(p), w3, [Finish(p)]);
      RunCons(w, Anchor(p, reply), w2, [Store(p)] + [Finish(p)]);
    }
  }

  /** An undisturbed UpdateDID is one run of the machine: the records and the ledger end up the same. */
  lemma CallIsARun(w: World, p: nat, request: Request, reply: Reply)
    requires w.procs == map[] && (w.db.states.Some? ==> WellLogged(w.db.states.value))
    ensures
      var steps := StepsOf(p, w.db, w.ledger, request, PrivateKey(w.nextKey), reply);
      var call := Call(w.db, w.ledger, request, PrivateKey(w.nextKey), reply);
      && IsRun(false, w, steps)
      && End(false, w, steps) == World(call.0, call.1, if request.valid then w.nextKey + 1 else w.nextKey, map[])
  {
    var prepared := Prepare(w.db, request, PrivateKey(w.nextKey));
    var begin := Begin(p, request);
    if !request.valid || prepared.Err? {
      RunCons(w, begin, Next(false, w, begin), []);
      assert [begin] + [] == [begin];
    } else {
      var (db, log) := prepared.value;
      var anchoring := Last(log).status == PreAnchored;
      var w1 := World(db, w.ledger, w.nextKey + 1, map[p := if anchoring then Prepared(log) else ToApply]);
      BeginRuns(w, p, request, log, db);
      if anchoring {
        AnchorTailRuns(w1, p, log, reply);
        RunCons(w, begin, w1, AnchorTail(p, AnchoredState(false, Last(log), w.ledger, reply).status == AnchorError, reply));
      } else {
        FinishRuns(w1, p, Last(log));
        RunCons(w, begin, w1, [Finish(p)]);
      }
    }
  }
}
