/** Every run of update calls on one DID, with crashes at any step and soft deletes in between. */
module IonRuns {
  import opened Wrappers
  import opened Ion

  // ---- The machine ----

  /** What a process holds in memory between two of its steps. */
  datatype Proc =
    | Prepared(log: seq<UpdateState>)      // about to call anchor
    | ToStore(log: seq<UpdateState>)       // anchor called, outcome not stored yet
    | ToApply                              // about to run the second transaction
    | Deleting(copy: StoredDID)            // soft delete: record read, not written yet

  datatype World = World(db: Db, ledger: Ledger, nextKey: nat, procs: map<nat, Proc>)

  datatype Step =
    | Begin(p: nat, request: Request)
    | Anchor(p: nat, reply: Reply)
    | Store(p: nat)
    | Finish(p: nat)
    | Crash(p: nat)
    | DeleteRead(p: nat)
    | DeleteWrite(p: nat)

  predicate Enabled(w: World, step: Step) {
    match step
    case Begin(p, _) => p !in w.procs
    case Anchor(p, _) => p in w.procs && w.procs[p].Prepared? && w.procs[p].log != [] && Last(w.procs[p].log).preAnchor.Some?
    case Store(p) => p in w.procs && w.procs[p].ToStore? && w.procs[p].log != []
    case Finish(p) => p in w.procs && w.procs[p].ToApply?
    case Crash(p) => p in w.procs
    case DeleteRead(p) => p !in w.procs && w.db.record.Some?
    case DeleteWrite(p) => p in w.procs && w.procs[p].Deleting?
  }

  /** `exact` is the answer of isPreviouslyAnchoredError; the code's is the constant false. */
  function Next(exact: bool, w: World, step: Step): World
    requires Enabled(w, step)
  {
    match step
    case Begin(p, request) =>
      if !request.valid then w
      else (match Prepare(w.db, request, PrivateKey(w.nextKey))
        case Err(_) => w.(nextKey := w.nextKey + 1)
        case Ok((db, log)) =>
          World(db, w.ledger, w.nextKey + 1,
                w.procs[p := if log != [] && Last(log).status == PreAnchored then Prepared(log) else ToApply]))
    case Anchor(p, reply) =>
      var log := w.procs[p].log;
      World(w.db, LedgerAfter(w.ledger, Last(log).preAnchor.value.op, reply), w.nextKey,
            w.procs[p := ToStore(SetLast(log, AnchoredState(exact, Last(log), w.ledger, reply)))])
    case Store(p) =>
      var log := w.procs[p].log;
      var procs := if Last(log).status == AnchorError then w.procs - {p} else w.procs[p := ToApply];
      w.(db := w.db.(states := Some(log)), procs := procs)
    case Finish(p) =>
      w.(db := (match Apply(w.db) case Ok(db) => db case Err(_) => w.db), procs := w.procs - {p})
    case Crash(p) => w.(procs := w.procs - {p})
    case DeleteRead(p) => w.(procs := w.procs[p := Deleting(w.db.record.value)])
    case DeleteWrite(p) =>
      w.(db := w.db.(record := Some(w.procs[p].copy.(softDeleted := true))), procs := w.procs - {p})
  }

  predicate Updating(proc: Proc) { !proc.Deleting? }

  /** At most one update in flight: a call begins only when no other is running. */
  predicate Exclusive(w: World, step: Step) {
    step.Begin? ==> forall p :: p in w.procs ==> !Updating(w.procs[p])
  }

  predicate IsRun(exact: bool, w: World, steps: seq<Step>)
    decreases |steps|
  {
    steps == [] || (Enabled(w, steps[0]) && Exclusive(w, steps[0]) && IsRun(exact, Next(exact, w, steps[0]), steps[1..]))
  }

  function End(exact: bool, w: World, steps: seq<Step>): World
    requires IsRun(exact, w, steps)
    decreases |steps|
  {
    if steps == [] then w else End(exact, Next(exact, w, steps[0]), steps[1..])
  }

  /** An accepted anchor goes unrecorded at this step: its answer is lost, or the process that got
      the answer crashes before storing it. */
  predicate Loses(w: World, step: Step)
    requires Enabled(w, step)
  {
    match step
    case Anchor(p, reply) => reply.ReplyLost? && Accepts(w.ledger, Last(w.procs[p].log).preAnchor.value.op, reply)
    case Crash(p) => w.procs[p].ToStore? && w.procs[p].log != [] && Last(w.procs[p].log).status == Anchored
    case _ => false
  }

  predicate EverLoses(exact: bool, w: World, steps: seq<Step>)
    requires IsRun(exact, w, steps)
    decreases |steps|
  {
    steps != [] && (Loses(w, steps[0]) || EverLoses(exact, Next(exact, w, steps[0]), steps[1..]))
  }

  function Genesis(record: StoredDID, key: nat): World {
    World(Db(None, Some(PrivateKey(key)), None, Some(record)), Ledger(PublicKey(key), []), key + 1, map[])
  }

  // ---- What the log says ----

  /** The updates of the Done entries, in order. */
  function DoneOps(states: seq<UpdateState>): seq<UpdateOp>
    decreases |states|
  {
    if states == [] then []
    else DoneOps(states[..|states| - 1]) + if Last(states).status == Done && Last(states).preAnchor.Some? then [Last(states).preAnchor.value.op] else []
  }

  function LocalOps(db: Db): seq<UpdateOp> {
    if db.states.None? then [] else DoneOps(db.states.value)
  }

  /** The key that the next update must reveal, after some updates. */
  function Head(key: PublicKey, ops: seq<UpdateOp>): PublicKey {
    if ops == [] then key else ops[|ops| - 1].next
  }

  /** Every update reveals, and is signed with, the key its predecessor committed to. */
  predicate Chained(key: PublicKey, ops: seq<UpdateOp>)
    decreases |ops|
  {
    ops == [] ||
    var before, op := ops[..|ops| - 1], ops[|ops| - 1];
    op.revealed == Head(key, before) && op.signer.Public() == op.revealed && Chained(key, before)
  }

  lemma {:induction false} ChainedAt(key: PublicKey, ops: seq<UpdateOp>, i: nat)
    requires Chained(key, ops) && i < |ops|
    ensures ops[i].revealed == (if i == 0 then key else ops[i - 1].next) && ops[i].signer.Public() == ops[i].revealed
    decreases |ops|
  {
    if i < |ops| - 1 { ChainedAt(key, ops[..|ops| - 1], i); }
  }

  predicate Pending(db: Db) {
    db.states.Some? && db.states.value != [] && !Ended(Last(db.states.value))
  }

  function PendingOp(db: Db): UpdateOp
    requires Pending(db) && Last(db.states.value).preAnchor.Some?
  {
    Last(db.states.value).preAnchor.value.op
  }

  /** No update is half way: the next call will start a new one. */
  predicate Quiescent(db: Db) { !Pending(db) }

  /** The local key and updates are the ledger's. */
  predicate Agrees(w: World) {
    w.db.updateKey.Some? && w.ledger == Ledger(w.db.updateKey.value.Public(), LocalOps(w.db))
  }

  // ---- The invariant ----

  predicate LogInv(key: nat, db: Db) {
    && db.updateKey.Some? && db.record.Some?
    && (db.states.Some? ==> WellLogged(db.states.value))
    && Chained(PublicKey(key), LocalOps(db))
    && db.updateKey.value.Public() == Head(PublicKey(key), LocalOps(db))
    && (Pending(db) ==>
          var op := PendingOp(db);
          && op.revealed == db.updateKey.value.Public() && op.signer == db.updateKey.value
          && db.staging.Some? && db.staging.value.Public() == op.next == Last(db.states.value).preAnchor.value.nextPublic)
  }

  /** Keys are generated fresh: a pending update commits to a key nobody has used. */
  predicate KeysInv(w: World)
    requires w.db.updateKey.Some? && (w.db.states.Some? ==> WellLogged(w.db.states.value))
  {
    && w.db.updateKey.value.n < w.nextKey && w.ledger.current.n < w.nextKey
    && (forall op :: op in LocalOps(w.db) ==> op.next.n < w.nextKey)
    && (forall op :: op in w.ledger.applied ==> op.next.n < w.nextKey)
    && (Pending(w.db) ==>
          var op := PendingOp(w.db);
          && w.db.updateKey.value.n < op.next.n < w.nextKey
          && (forall o :: o in LocalOps(w.db) ==> o.next.n < op.next.n))
  }

  /** The ledger has exactly the local updates and the pending one. */
  predicate Ahead(w: World)
    requires w.db.states.Some? ==> WellLogged(w.db.states.value)
  {
    Pending(w.db) && w.ledger == Ledger(PendingOp(w.db).next, LocalOps(w.db) + [PendingOp(w.db)])
  }

  /** The update key has been overtaken for good. */
  predicate Stuck(w: World)
    requires w.db.updateKey.Some?
  {
    w.ledger.current != w.db.updateKey.value.Public() && (Pending(w.db) ==> Last(w.db.states.value).status == PreAnchored)
  }

  /** Some process knows, but has not stored, that the pending update is anchored. */
  predicate Remembered(w: World) {
    exists p :: p in w.procs && w.procs[p].ToStore? && w.procs[p].log != [] && Last(w.procs[p].log).status == Anchored
  }

  predicate LedgerInv(exact: bool, lost: bool, w: World)
    requires w.db.updateKey.Some? && (w.db.states.Some? ==> WellLogged(w.db.states.value))
  {
    && (Pending(w.db) && Last(w.db.states.value).status == Anchored ==> Ahead(w))
    && (Remembered(w) ==> Ahead(w))
    && if exact then Agrees(w) || Ahead(w)
       else if lost then !Remembered(w) && (Stuck(w) || (Ahead(w) && Last(w.db.states.value).status == PreAnchored))
       else Agrees(w) || (Ahead(w) && (Last(w.db.states.value).status == Anchored || Remembered(w)))
  }

  predicate ProcInv(exact: bool, w: World, p: nat)
    requires p in w.procs
    requires w.db.updateKey.Some? && (w.db.states.Some? ==> WellLogged(w.db.states.value))
  {
    match w.procs[p]
    case Prepared(log) => w.db.states == Some(log) && log != [] && Last(log).status == PreAnchored
    case ToStore(log) =>
      && Pending(w.db) && Last(w.db.states.value).status == PreAnchored
      && log != [] && (Last(log).status == Anchored || Last(log).status == AnchorError)
      && log == SetLast(w.db.states.value, Last(w.db.states.value).(status := Last(log).status, anchorErr := Last(log).anchorErr))
      && (exact && Last(log).status == AnchorError ==> Agrees(w))
    case ToApply => Pending(w.db) && Last(w.db.states.value).status == Anchored
    case Deleting(_) => true
  }

  predicate Inv(exact: bool, key: nat, lost: bool, w: World) {
    && LogInv(key, w.db)
    && KeysInv(w)
    && LedgerInv(exact, lost, w)
    && (forall p :: p in w.procs ==> ProcInv(exact, w, p))
    && (forall p, q :: p in w.procs && q in w.procs && Updating(w.procs[p]) && Updating(w.procs[q]) ==> p == q)
  }

  // ---- Preservation ----

  /** What becomes of a log when its last entry is replaced by one for an update. */
  lemma LastReplaced(states: seq<UpdateState>, state: UpdateState)
    requires WellLogged(states) && state.preAnchor.Some? && state.status != Blank
    ensures
      var log := SetLast(states, state);
      && log != [] && Last(log) == state && WellLogged(log)
      && DoneOps(log) == DoneOps(states[..|states| - 1]) + if state.status == Done then [state.preAnchor.value.op] else []
    ensures Last(states).status != Done ==> DoneOps(states[..|states| - 1]) == DoneOps(states)
  {
    var log := SetLast(states, state);
    assert log[..|log| - 1] == states[..|states| - 1];
  }

  lemma ChainGrows(key: PublicKey, ops: seq<UpdateOp>, op: UpdateOp)
    requires Chained(key, ops) && op.revealed == Head(key, ops) && op.signer.Public() == op.revealed
    ensures Chained(key, ops + [op]) && Head(key, ops + [op]) == op.next
  {
    assert (ops + [op])[..|ops + [op]| - 1] == ops;
  }

  /** What prepare does to a well-kept store: it resumes a pending entry untouched, or appends a
      pre-anchor entry. */
  lemma PrepareResult(key: nat, db: Db, request: Request, nextKey: PrivateKey)
    requires LogInv(key, db) && Prepare(db, request, nextKey).Ok?
    ensures
      var (db', log) := Prepare(db, request, nextKey).value;
      && db'.states == Some(log) && WellLogged(log) && Pending(db')
      && (Last(log).status == PreAnchored || Last(log).status == Anchored)
      && if Pending(db) then db' == db
         else && Last(log).status == PreAnchored && LocalOps(db') == LocalOps(db)
              && log == (if db.states.None? then [] else db.states.value) + [Last(log)]
              && PendingOp(db') == UpdateOp(db.updateKey.value.Public(), db.updateKey.value, nextKey.Public(), request.patches)
              && Last(log).preAnchor.value.nextPublic == nextKey.Public()
              && Last(log).preAnchor.value.updated == UpdatedRecord(db.record.value, PendingOp(db'))
              && db' == db.(states := Some(log), staging := Some(nextKey))
  {
    if !Pending(db) {
      AppendedLog(key, db, request, nextKey);
    }
  }

  lemma AppendedLog(key: nat, db: Db, request: Request, nextKey: PrivateKey)
    requires LogInv(key, db) && Quiescent(db) && Prepare(db, request, nextKey).Ok?
    ensures
      var (db', log) := Prepare(db, request, nextKey).value;
      var before := Entries(db);
      var op := UpdateOp(db.updateKey.value.Public(), db.updateKey.value, nextKey.Public(), request.patches);
      && log == before + [UpdateState(PreAnchored, Some(PreAnchor(op, nextKey.Public(), UpdatedRecord(db.record.value, op))), None)]
      && db' == db.(states := Some(log), staging := Some(nextKey))
      && DoneOps(log) == DoneOps(before) == LocalOps(db)
      && WellLogged(log)
  {
    var before := Entries(db);
    var op := UpdateOp(db.updateKey.value.Public(), db.updateKey.value, nextKey.Public(), request.patches);
    AppendsEntry(db, request, nextKey);
    OpenEntryAdded(before, UpdateState(PreAnchored, Some(PreAnchor(op, nextKey.Public(), UpdatedRecord(db.record.value, op))), None));
  }

  function Entries(db: Db): seq<UpdateState> { if db.states.None? then [] else db.states.value }

  lemma AppendsEntry(db: Db, request: Request, nextKey: PrivateKey)
    requires (db.states.Some? ==> WellLogged(db.states.value)) && Quiescent(db) && Prepare(db, request, nextKey).Ok?
    ensures db.updateKey.Some? && db.record.Some?
    ensures
      var (db', log) := Prepare(db, request, nextKey).value;
      var op := UpdateOp(db.updateKey.value.Public(), db.updateKey.value, nextKey.Public(), request.patches);
      && log == Entries(db) + [UpdateState(PreAnchored, Some(PreAnchor(op, nextKey.Public(), UpdatedRecord(db.record.value, op))), None)]
      && db' == db.(states := Some(log), staging := Some(nextKey))
  {
    var states := if Ended(Last(LogOf(db))) then LogOf(db) + [BLANK] else LogOf(db);
    assert states == Entries(db) + [BLANK];
    assert states[..|states| - 1] == Entries(db);
  }

  /** An entry that is not done adds no update, and keeps the shape of a finished log. */
  lemma OpenEntryAdded(before: seq<UpdateState>, state: UpdateState)
    requires before != [] ==> WellLogged(before) && Ended(Last(before))
    requires state.preAnchor.Some? && state.status == PreAnchored
    ensures DoneOps(before + [state]) == DoneOps(before) && WellLogged(before + [state])
  {
    var log := before + [state];
    assert log[..|log| - 1] == before && Last(log) == state;
    assert DoneOps(log) == DoneOps(before) + [];
    forall i | 0 <= i < |before| ensures log[i].preAnchor.Some? && log[i].status != Blank && Ended(log[i]) { }
  }

  lemma BeginPreserves(exact: bool, key: nat, lost: bool, w: World, step: Step)
    requires Inv(exact, key, lost, w) && step.Begin? && Enabled(w, step) && Exclusive(w, step)
    ensures Inv(exact, key, lost, Next(exact, w, step))
  {
    var w' := Next(exact, w, step);
    if step.request.valid && Prepare(w.db, step.request, PrivateKey(w.nextKey)).Ok? {
      if Pending(w.db) { ResumePreserves(exact, key, lost, w, step); } else { CreationPreserves(exact, key, lost, w, step); }
    } else {
      RememberedUnmoved(w, w');
      forall p | p in w'.procs ensures ProcInv(exact, w', p) { assert ProcInv(exact, w, p); }
    }
  }

  /** A call that begins finds no other in memory, and is the only one then. */
  lemma OnlyDeletes(exact: bool, w: World, w': World, step: Step)
    requires step.Begin? && Enabled(w, step) && Exclusive(w, step)
    requires step.p in w'.procs && Updating(w'.procs[step.p]) && !w'.procs[step.p].ToStore? && w'.procs == w.procs[step.p := w'.procs[step.p]]
    ensures !Remembered(w) && !Remembered(w')
    ensures forall p :: p in w'.procs && p != step.p ==> w'.procs[p].Deleting?
    ensures forall p, q :: p in w'.procs && q in w'.procs && Updating(w'.procs[p]) && Updating(w'.procs[q]) ==> p == q
  {
    assert forall p :: p in w'.procs && p != step.p ==> w'.procs[p] == w.procs[p] && !Updating(w.procs[p]);
  }

  lemma ResumePreserves(exact: bool, key: nat, lost: bool, w: World, step: Step)
    requires Inv(exact, key, lost, w) && step.Begin? && Enabled(w, step) && Exclusive(w, step) && Pending(w.db)
    requires step.request.valid && Prepare(w.db, step.request, PrivateKey(w.nextKey)).Ok?
    ensures Inv(exact, key, lost, Next(exact, w, step))
  {
    var w' := Next(exact, w, step);
    PrepareResult(key, w.db, step.request, PrivateKey(w.nextKey));
    OnlyDeletes(exact, w, w', step);
    assert w'.db == w.db && w'.ledger == w.ledger;
    ProcsAfterBegin(exact, w', step.p);
  }

  lemma ProcsAfterBegin(exact: bool, w: World, p: nat)
    requires w.db.updateKey.Some? && (w.db.states.Some? ==> WellLogged(w.db.states.value))
    requires forall q :: q in w.procs && q != p ==> w.procs[q].Deleting?
    requires p in w.procs && ProcInv(exact, w, p)
    ensures forall q :: q in w.procs ==> ProcInv(exact, w, q)
  {
  }

  /** A pre-anchor entry has been appended and its key staged; all else is as it was. */
  predicate EntryCreated(w: World, w': World) {
    && w'.ledger == w.ledger && w'.nextKey == w.nextKey + 1
    && w.db.updateKey.Some? && (w.db.states.Some? ==> WellLogged(w.db.states.value)) && Quiescent(w.db)
    && w'.db.states.Some? && WellLogged(w'.db.states.value) && Pending(w'.db) && Last(w'.db.states.value).status == PreAnchored
    && LocalOps(w'.db) == LocalOps(w.db) && w'.db.updateKey == w.db.updateKey && w'.db.record == w.db.record
    && w'.db.staging == Some(PrivateKey(w.nextKey)) && Last(w'.db.states.value).preAnchor.value.nextPublic == PublicKey(w.nextKey)
    && var op := PendingOp(w'.db);
       op.revealed == w.db.updateKey.value.Public() && op.signer == w.db.updateKey.value && op.next == PublicKey(w.nextKey)
  }

  lemma CreationKeepsKeys(w: World, w': World)
    requires EntryCreated(w, w') && KeysInv(w)
    ensures KeysInv(w')
  {
  }

  lemma CreationKeepsLedger(exact: bool, lost: bool, w: World, w': World)
    requires EntryCreated(w, w') && LedgerInv(exact, lost, w) && !Remembered(w) && !Remembered(w')
    ensures LedgerInv(exact, lost, w')
  {
  }

  lemma CreationPreserves(exact: bool, key: nat, lost: bool, w: World, step: Step)
    requires Inv(exact, key, lost, w) && step.Begin? && Enabled(w, step) && Exclusive(w, step) && Quiescent(w.db)
    requires step.request.valid && Prepare(w.db, step.request, PrivateKey(w.nextKey)).Ok?
    ensures Inv(exact, key, lost, Next(exact, w, step))
  {
    var w' := Next(exact, w, step);
    PrepareResult(key, w.db, step.request, PrivateKey(w.nextKey));
    OnlyDeletes(exact, w, w', step);
    assert EntryCreated(w, w');
    CreationKeepsKeys(w, w');
    CreationKeepsLedger(exact, lost, w, w');
    ProcsAfterBegin(exact, w', step.p);
  }

  lemma AnchorPreserves(exact: bool, key: nat, lost: bool, w: World, step: Step)
    requires Inv(exact, key, lost, w) && step.Anchor? && Enabled(w, step)
    ensures Inv(exact, key, lost || (!exact && Loses(w, step)), Next(exact, w, step))
  {
    var w', p := Next(exact, w, step), step.p;
    assert ProcInv(exact, w, p);
    var log := w.procs[p].log;
    assert Last(w'.procs[p].log) == AnchoredState(exact, Last(log), w.ledger, step.reply);
    assert forall q :: q in w'.procs && q != p ==> q in w.procs && w'.procs[q] == w.procs[q] && w'.procs[q].Deleting?;
    assert !Remembered(w) && (Remembered(w') <==> Last(w'.procs[p].log).status == Anchored);
    AnchorKeepsKeys(w, w', step.reply);
    AnchorKeepsLedger(exact, lost, w, w', Last(w'.procs[p].log), step.reply);
  }

  lemma AnchorKeepsLedger(exact: bool, lost: bool, w: World, w': World, state: UpdateState, reply: Reply)
    requires w.db.updateKey.Some? && (w.db.states.Some? ==> WellLogged(w.db.states.value)) && KeysInv(w) && LedgerInv(exact, lost, w)
    requires Pending(w.db) && Last(w.db.states.value).status == PreAnchored && PendingOp(w.db).revealed == w.db.updateKey.value.Public()
    requires w'.db == w.db && w'.nextKey == w.nextKey && w'.ledger == LedgerAfter(w.ledger, PendingOp(w.db), reply)
    requires state == AnchoredState(exact, Last(w.db.states.value), w.ledger, reply)
    requires !Remembered(w) && (Remembered(w') <==> state.status == Anchored)
    ensures LedgerInv(exact, lost || (!exact && reply.ReplyLost? && Accepts(w.ledger, PendingOp(w.db), reply)), w')
    ensures exact && state.status == AnchorError ==> Agrees(w')
  {
    if Agrees(w) { AnchorGetsAhead(w, w', reply); }
  }

  /** A pending update is new to a ledger that agrees, so the ledger takes it if it is reached. */
  lemma AnchorGetsAhead(w: World, w': World, reply: Reply)
    requires w.db.updateKey.Some? && (w.db.states.Some? ==> WellLogged(w.db.states.value)) && KeysInv(w) && Pending(w.db) && Agrees(w)
    requires PendingOp(w.db).revealed == w.db.updateKey.value.Public()
    requires w'.db == w.db && w'.ledger == LedgerAfter(w.ledger, PendingOp(w.db), reply)
    ensures PendingOp(w.db) !in w.ledger.applied
    ensures if reply.NotReached? then w'.ledger == w.ledger else Ahead(w')
  {
  }

  lemma AnchorKeepsKeys(w: World, w': World, reply: Reply)
    requires w.db.updateKey.Some? && (w.db.states.Some? ==> WellLogged(w.db.states.value)) && KeysInv(w) && Pending(w.db)
    requires w'.db == w.db && w'.nextKey == w.nextKey && w'.ledger == LedgerAfter(w.ledger, PendingOp(w.db), reply)
    ensures KeysInv(w')
  {
  }

  /** The records after storing the outcome of the anchor call. */
  lemma StoredLog(key: nat, db: Db, log: seq<UpdateState>)
    requires LogInv(key, db) && Pending(db) && log != []
    requires Last(log).status == Anchored || Last(log).status == AnchorError
    requires log == SetLast(db.states.value, Last(db.states.value).(status := Last(log).status, anchorErr := Last(log).anchorErr))
    requires Last(db.states.value).status == PreAnchored
    ensures
      var db' := db.(states := Some(log));
      && LogInv(key, db') && LocalOps(db') == LocalOps(db)
      && (Pending(db') <==> Last(log).status == Anchored)
      && (Pending(db') ==> PendingOp(db') == PendingOp(db))
  {
    LastReplaced(db.states.value, Last(log));
  }

  /** No update is left in memory once the only one moves on to a phase that remembers nothing. */
  lemma NothingRemembered(exact: bool, w: World, w': World, p: nat)
    requires p in w.procs && Updating(w.procs[p])
    requires forall q, r :: q in w.procs && r in w.procs && Updating(w.procs[q]) && Updating(w.procs[r]) ==> q == r
    requires w'.procs == w.procs - {p} || w'.procs == w.procs[p := ToApply]
    ensures !Remembered(w')
    ensures Remembered(w) ==> w.procs[p].ToStore? && w.procs[p].log != [] && Last(w.procs[p].log).status == Anchored
    ensures forall q :: q in w'.procs && q != p ==> w'.procs[q].Deleting?
  {
    forall q | q in w'.procs && q != p ensures w'.procs[q].Deleting? { assert q in w.procs && w'.procs[q] == w.procs[q]; }
  }

  lemma StorePreserves(exact: bool, key: nat, lost: bool, w: World, step: Step)
    requires Inv(exact, key, lost, w) && step.Store? && Enabled(w, step)
    ensures Inv(exact, key, lost, Next(exact, w, step))
  {
    var w', p := Next(exact, w, step), step.p;
    assert ProcInv(exact, w, p);
    var log := w.procs[p].log;
    StoredLog(key, w.db, log);
    NothingRemembered(exact, w, w', p);
    assert Last(log).status == Anchored ==> Remembered(w);
    StoreKeepsLedger(exact, lost, w, w', Last(log).status == Anchored);
  }

  /** Storing the outcome of the call that is pending changes neither updates nor keys. */
  lemma StoreKeepsLedger(exact: bool, lost: bool, w: World, w': World, anchored: bool)
    requires w.db.updateKey.Some? && (w.db.states.Some? ==> WellLogged(w.db.states.value)) && KeysInv(w) && LedgerInv(exact, lost, w)
    requires w'.db.states.Some? && WellLogged(w'.db.states.value) && w'.db.updateKey == w.db.updateKey && w'.ledger == w.ledger && w'.nextKey == w.nextKey
    requires LocalOps(w'.db) == LocalOps(w.db) && Pending(w.db) && Last(w.db.states.value).status == PreAnchored
    requires Pending(w'.db) <==> anchored
    requires Pending(w'.db) ==> PendingOp(w'.db) == PendingOp(w.db) && Last(w'.db.states.value).status == Anchored
    requires !Remembered(w') && (Remembered(w) <==> anchored) && (!anchored && exact ==> Agrees(w))
    ensures KeysInv(w') && LedgerInv(exact, lost, w')
  {
  }

  /** The records after the second transaction. */
  lemma AppliedLog(key: nat, db: Db)
    requires LogInv(key, db) && Pending(db) && Last(db.states.value).status == Anchored
    ensures Apply(db).Ok?
    ensures
      var db' := Apply(db).value;
      && LogInv(key, db') && Quiescent(db') && LocalOps(db') == LocalOps(db) + [PendingOp(db)]
      && db'.updateKey.value.Public() == PendingOp(db).next
      && db'.record == Some(Last(db.states.value).preAnchor.value.updated)
  {
    LastReplaced(db.states.value, Last(db.states.value).(status := Done));
    ChainGrows(PublicKey(key), LocalOps(db), PendingOp(db));
  }

  lemma FinishPreserves(exact: bool, key: nat, lost: bool, w: World, step: Step)
    requires Inv(exact, key, lost, w) && step.Finish? && Enabled(w, step)
    ensures Inv(exact, key, lost, Next(exact, w, step))
  {
    var w', p := Next(exact, w, step), step.p;
    assert ProcInv(exact, w, p);
    assert Ahead(w) && (exact || !lost);
    AppliedLedger(key, w, w');
    NothingRemembered(exact, w, w', p);
    SettledInv(exact, key, lost, w');
  }

  /** Nothing in flight but soft deletes, and nothing to catch up on. */
  lemma SettledInv(exact: bool, key: nat, lost: bool, w: World)
    requires LogInv(key, w.db) && KeysInv(w) && Agrees(w) && Quiescent(w.db) && !Remembered(w) && (exact || !lost)
    requires forall p :: p in w.procs ==> w.procs[p].Deleting?
    ensures Inv(exact, key, lost, w)
  {
  }

  /** Applying the pending update, which the ledger has, brings the store up to the ledger. */
  lemma AppliedLedger(key: nat, w: World, w': World)
    requires LogInv(key, w.db) && KeysInv(w) && Ahead(w) && Last(w.db.states.value).status == Anchored
    requires w'.db == (match Apply(w.db) case Ok(db) => db case Err(_) => w.db) && w'.ledger == w.ledger && w'.nextKey == w.nextKey
    ensures LogInv(key, w'.db) && KeysInv(w') && Agrees(w') && Quiescent(w'.db)
  {
    AppliedLog(key, w.db);
  }

  lemma RememberedUnmoved(w: World, w': World)
    requires forall q :: q in w.procs && Updating(w.procs[q]) ==> q in w'.procs && w'.procs[q] == w.procs[q]
    requires forall q :: q in w'.procs && Updating(w'.procs[q]) ==> q in w.procs && w'.procs[q] == w.procs[q]
    ensures Remembered(w') <==> Remembered(w)
  {
    if q :| q in w'.procs && w'.procs[q].ToStore? && w'.procs[q].log != [] && Last(w'.procs[q].log).status == Anchored {
      assert w.procs[q] == w'.procs[q];
    }
    if q :| q in w.procs && w.procs[q].ToStore? && w.procs[q].log != [] && Last(w.procs[q].log).status == Anchored {
      assert w'.procs[q] == w.procs[q];
    }
  }

  lemma DeleteWritePreserves(exact: bool, key: nat, lost: bool, w: World, step: Step)
    requires Inv(exact, key, lost, w) && (step.DeleteRead? || step.DeleteWrite?) && Enabled(w, step)
    ensures Inv(exact, key, lost, Next(exact, w, step))
  {
    var w', p := Next(exact, w, step), step.p;
    RememberedUnmoved(w, w');
    RecordIsNoLog(exact, key, lost, w, w');
    forall q | q in w'.procs ensures ProcInv(exact, w', q) {
      if q != p { assert ProcInv(exact, w, q) && w'.procs[q] == w.procs[q]; }
    }
  }

  /** The record's contents matter to neither the log nor the ledger. */
  lemma RecordIsNoLog(exact: bool, key: nat, lost: bool, w: World, w': World)
    requires LogInv(key, w.db) && KeysInv(w) && LedgerInv(exact, lost, w)
    requires w'.db == w.db.(record := w'.db.record) && w'.db.record.Some? && w'.ledger == w.ledger && w'.nextKey == w.nextKey
    requires Remembered(w') <==> Remembered(w)
    ensures LogInv(key, w'.db) && KeysInv(w') && LedgerInv(exact, lost, w')
  {
  }

  lemma CrashPreserves(exact: bool, key: nat, lost: bool, w: World, step: Step)
    requires Inv(exact, key, lost, w) && step.Crash? && Enabled(w, step)
    ensures Inv(exact, key, lost || (!exact && Loses(w, step)), Next(exact, w, step))
  {
    var w', p := Next(exact, w, step), step.p;
    assert ProcInv(exact, w, p);
    forall q | q in w'.procs ensures ProcInv(exact, w', q) { assert ProcInv(exact, w, q) && w'.procs[q] == w.procs[q]; }
    if Updating(w.procs[p]) {
      NothingRemembered(exact, w, w', p);
      assert Loses(w, step) <==> Remembered(w);
    } else {
      RememberedUnmoved(w, w');
    }
  }

  lemma Preserved(exact: bool, key: nat, lost: bool, w: World, step: Step)
    requires Inv(exact, key, lost, w) && Enabled(w, step) && Exclusive(w, step)
    ensures Inv(exact, key, lost || (!exact && Loses(w, step)), Next(exact, w, step))
  {
    match step
    case Begin(_, _) => BeginPreserves(exact, key, lost, w, step);
    case Anchor(_, _) => AnchorPreserves(exact, key, lost, w, step);
    case Store(_) => StorePreserves(exact, key, lost, w, step);
    case Finish(_) => FinishPreserves(exact, key, lost, w, step);
    case Crash(_) => CrashPreserves(exact, key, lost, w, step);
    case _ => DeleteWritePreserves(exact, key, lost, w, step);
  }

  lemma {:induction false} RunsKeepInv(exact: bool, key: nat, lost: bool, w: World, steps: seq<Step>)
    requires Inv(exact, key, lost, w) && IsRun(exact, w, steps)
    ensures Inv(exact, key, lost || (!exact && EverLoses(exact, w, steps)), End(exact, w, steps))
    decreases |steps|
  {
    if steps != [] {
      Preserved(exact, key, lost, w, steps[0]);
      RunsKeepInv(exact, key, lost || (!exact && Loses(w, steps[0])), Next(exact, w, steps[0]), steps[1..]);
    }
  }

  lemma GenesisInv(exact: bool, record: StoredDID, key: nat)
    ensures Inv(exact, key, false, Genesis(record, key))
  {
  }
}
