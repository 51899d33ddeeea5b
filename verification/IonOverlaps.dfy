/** Any number of update calls in flight at once: what holds of the log and the ledger even then, and
    the one step at which the log forgets. */
module IonOverlaps {
  import opened Wrappers
  import opened Ion
  import opened IonRuns

  /** Runs in which calls may overlap. */
  predicate IsFreeRun(exact: bool, w: World, steps: seq<Step>)
    decreases |steps|
  {
    steps == [] || (Enabled(w, steps[0]) && IsFreeRun(exact, Next(exact, w, steps[0]), steps[1..]))
  }

  function FreeEnd(exact: bool, w: World, steps: seq<Step>): World
    requires IsFreeRun(exact, w, steps)
    decreases |steps|
  {
    if steps == [] then w else FreeEnd(exact, Next(exact, w, steps[0]), steps[1..])
  }

  // ---- Every entry is vouched for ----

  /** An anchored or done entry is on the ledger, and every update is signed with the key it reveals. */
  predicate Vouched(ledger: Ledger, state: UpdateState) {
    state.preAnchor.Some? ==>
      && state.preAnchor.value.op.signer.Public() == state.preAnchor.value.op.revealed
      && (state.status == Anchored || state.status == Done ==> state.preAnchor.value.op in ledger.applied)
  }

  predicate AllVouched(ledger: Ledger, states: seq<UpdateState>) { forall i :: 0 <= i < |states| ==> Vouched(ledger, states[i]) }

  predicate ProcVouched(ledger: Ledger, proc: Proc) { (proc.Prepared? ==> AllVouched(ledger, proc.log)) && (proc.ToStore? ==> AllVouched(ledger, proc.log)) }

  predicate LedgerChained(key: nat, ledger: Ledger) { Chained(PublicKey(key), ledger.applied) && ledger.current == Head(PublicKey(key), ledger.applied) }

  ghost predicate OverlapInv(key: nat, w: World) {
    && LedgerChained(key, w.ledger)
    && (w.db.states.Some? ==> AllVouched(w.ledger, w.db.states.value))
    && (forall p :: p in w.procs ==> ProcVouched(w.ledger, w.procs[p]))
  }

  lemma PrepareVouched(ledger: Ledger, db: Db, request: Request, nextKey: PrivateKey)
    requires (db.states.Some? ==> AllVouched(ledger, db.states.value)) && Prepare(db, request, nextKey).Ok?
    ensures
      var (db', log) := Prepare(db, request, nextKey).value;
      AllVouched(ledger, log) && (db'.states.Some? ==> AllVouched(ledger, db'.states.value))
  {
  }

  /** What the ledger has taken it keeps. */
  lemma LedgerGrows(key: nat, ledger: Ledger, op: UpdateOp, reply: Reply)
    requires LedgerChained(key, ledger) && op.signer.Public() == op.revealed
    ensures LedgerChained(key, LedgerAfter(ledger, op, reply))
    ensures forall o :: o in ledger.applied ==> o in LedgerAfter(ledger, op, reply).applied
    ensures Accepts(ledger, op, reply) ==> op in LedgerAfter(ledger, op, reply).applied
  {
    if Accepts(ledger, op, reply) { ChainGrows(PublicKey(key), ledger.applied, op); }
  }

  lemma StepVouched(exact: bool, key: nat, w: World, step: Step)
    requires OverlapInv(key, w) && Enabled(w, step)
    ensures OverlapInv(key, Next(exact, w, step))
  {
    match step
    case Begin(_, request) =>
      if request.valid && Prepare(w.db, request, PrivateKey(w.nextKey)).Ok? { PrepareVouched(w.ledger, w.db, request, PrivateKey(w.nextKey)); }
    case Anchor(p, reply) => AnchorVouched(exact, key, w, p, reply);
    case _ =>
  }

  lemma AnchorVouched(exact: bool, key: nat, w: World, p: nat, reply: Reply)
    requires OverlapInv(key, w) && Enabled(w, Anchor(p, reply))
    ensures OverlapInv(key, Next(exact, w, Anchor(p, reply)))
  {
    var log, w' := w.procs[p].log, Next(exact, w, Anchor(p, reply));
    assert ProcVouched(w.ledger, w.procs[p]) && Vouched(w.ledger, Last(log));
    LedgerGrows(key, w.ledger, Last(log).preAnchor.value.op, reply);
    forall q | q in w'.procs ensures ProcVouched(w'.ledger, w'.procs[q]) { assert q == p || ProcVouched(w.ledger, w.procs[q]); }
  }

  lemma {:induction false} RunVouched(exact: bool, key: nat, w: World, steps: seq<Step>)
    requires OverlapInv(key, w) && IsFreeRun(exact, w, steps)
    ensures OverlapInv(key, FreeEnd(exact, w, steps))
    decreases |steps|
  {
    if steps != [] {
      StepVouched(exact, key, w, steps[0]);
      RunVouched(exact, key, Next(exact, w, steps[0]), steps[1..]);
    }
  }

  lemma {:induction false} DoneOpsVouched(ledger: Ledger, states: seq<UpdateState>)
    requires AllVouched(ledger, states)
    ensures forall op :: op in DoneOps(states) ==> op in ledger.applied
    decreases |states|
  {
    if states != [] {
      DoneOpsVouched(ledger, states[..|states| - 1]);
      assert Vouched(ledger, Last(states));
    }
  }

  // ---- Main results ----

  /** However many calls overlap, crash or are cut off: a Done update is one the ledger has applied, and
      the ledger's updates form one chain of keys from the creation on. */
  lemma DoneIsApplied(exact: bool, record: StoredDID, key: nat, steps: seq<Step>)
    requires IsFreeRun(exact, Genesis(record, key), steps)
    ensures
      var w := FreeEnd(exact, Genesis(record, key), steps);
      && (forall op :: op in LocalOps(w.db) ==> op in w.ledger.applied)
      && Chained(PublicKey(key), w.ledger.applied) && w.ledger.current == Head(PublicKey(key), w.ledger.applied)
  {
    var w := FreeEnd(exact, Genesis(record, key), steps);
    RunVouched(exact, key, Genesis(record, key), steps);
    if w.db.states.Some? { DoneOpsVouched(w.ledger, w.db.states.value); }
  }

  /** The step writes back a log that was read before some update was done. */
  predicate StaleStore(w: World, step: Step)
    requires Enabled(w, step)
  {
    step.Store? && exists op :: op in LocalOps(w.db) && op !in DoneOps(w.procs[step.p].log)
  }

  predicate EverStale(exact: bool, w: World, steps: seq<Step>)
    requires IsFreeRun(exact, w, steps)
    decreases |steps|
  {
    steps != [] && (StaleStore(w, steps[0]) || EverStale(exact, Next(exact, w, steps[0]), steps[1..]))
  }

  /** At some step a Done update is in the log before and not after. */
  predicate EverForgets(exact: bool, w: World, steps: seq<Step>)
    requires IsFreeRun(exact, w, steps)
    decreases |steps|
  {
    steps != [] && (!Keeps(w, Next(exact, w, steps[0])) || EverForgets(exact, Next(exact, w, steps[0]), steps[1..]))
  }

  predicate Keeps(w: World, w': World) { forall op :: op in LocalOps(w.db) ==> op in LocalOps(w'.db) }

  lemma StepKeeps(exact: bool, w: World, step: Step)
    requires Enabled(w, step)
    ensures Keeps(w, Next(exact, w, step)) <==> !StaleStore(w, step)
  {
    if step.Begin? && step.request.valid && Prepare(w.db, step.request, PrivateKey(w.nextKey)).Ok? {
      PrepareKeeps(w.db, step.request, PrivateKey(w.nextKey));
    } else if step.Finish? && Apply(w.db).Ok? {
      ApplyKeeps(w.db);
    }
  }

  lemma PrepareKeeps(db: Db, request: Request, nextKey: PrivateKey)
    requires Prepare(db, request, nextKey).Ok?
    ensures LocalOps(Prepare(db, request, nextKey).value.0) == LocalOps(db)
  {
    var db' := Prepare(db, request, nextKey).value.0;
    if db' != db {
      var was, log := LogOf(db), db'.states.value;
      assert Last(log).status == PreAnchored;
      if Ended(Last(was)) {
        assert log[..|log| - 1] == was && db.states == Some(was);
      } else {
        assert log[..|log| - 1] == was[..|was| - 1] && Last(was).status == Blank;
        assert DoneOps(was) == DoneOps(was[..|was| - 1]);
        assert db.states.None? ==> was[..|was| - 1] == [];
      }
    }
  }

  lemma ApplyKeeps(db: Db)
    requires Apply(db).Ok?
    ensures forall op :: op in LocalOps(db) ==> op in LocalOps(Apply(db).value)
  {
    var log, db' := LogOf(db), Apply(db).value;
    if db' != db { assert db'.states.value[..|log| - 1] == log[..|log| - 1]; }
  }

  /** Overlapping calls make the log forget a Done update exactly when one of them stores a log that it
      read before that update was done; otherwise what is Done stays Done to the end. */
  lemma {:induction false} OnlyStaleStoresForget(exact: bool, w: World, steps: seq<Step>)
    requires IsFreeRun(exact, w, steps)
    ensures EverForgets(exact, w, steps) <==> EverStale(exact, w, steps)
    ensures !EverStale(exact, w, steps) ==> Keeps(w, FreeEnd(exact, w, steps))
    decreases |steps|
  {
    if steps != [] {
      StepKeeps(exact, w, steps[0]);
      OnlyStaleStoresForget(exact, Next(exact, w, steps[0]), steps[1..]);
    }
  }
}
