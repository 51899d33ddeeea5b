/** What becomes of the document and of its soft-deletion flag, over every run with crashes and with
    soft deletes at any time. */
module IonDocuments {
  import opened Wrappers
  import opened Ion
  import opened IonRuns
  import opened IonTheorems

  /** The record after some updates, in order. */
  function Folded(record: StoredDID, ops: seq<UpdateOp>): StoredDID
    decreases |ops|
  {
    if ops == [] then record else UpdatedRecord(Folded(record, ops[..|ops| - 1]), ops[|ops| - 1])
  }

  function AllPatches(ops: seq<UpdateOp>): seq<Patch>
    decreases |ops|
  {
    if ops == [] then [] else AllPatches(ops[..|ops| - 1]) + ops[|ops| - 1].patches
  }

  lemma {:induction false} FoldedPatches(record: StoredDID, ops: seq<UpdateOp>)
    ensures Folded(record, ops).longForm.patches == record.longForm.patches + AllPatches(ops)
    ensures ops != [] ==> Folded(record, ops).document == Document(record.id, record.longForm.patches + AllPatches(ops))
    ensures ops != [] ==> Folded(record, ops).longForm.commitment == Some(ops[|ops| - 1].next)
    ensures Folded(record, ops).operations == record.operations + seq(|ops|, i requires 0 <= i < |ops| => Update(ops[i]))
    ensures Folded(record, ops).softDeleted == record.softDeleted && Folded(record, ops).id == record.id
    ensures Folded(record, ops).longForm.suffixData == record.longForm.suffixData
    ensures ops != [] ==> Folded(record, ops).longForm.did == record.id
    decreases |ops|
  {
    if ops != [] {
      FoldedPatches(record, ops[..|ops| - 1]);
    }
  }

  /** The stored record is the creation's, changed by the Done updates in order, each once; only
      the flag may be any. */
  predicate Conserved(record: StoredDID, w: World) {
    w.db.record.Some? &&
    var got, ops := w.db.record.value, LocalOps(w.db);
    && got.longForm.patches == record.longForm.patches + AllPatches(ops)
    && got.operations == record.operations + seq(|ops|, i requires 0 <= i < |ops| => Update(ops[i]))
    && (ops != [] ==> got.document == Document(record.id, got.longForm.patches) && got.longForm.commitment == Some(ops[|ops| - 1].next))
  }

  // ---- Remembering who has read what ----

  /** `whole`: the record holds all Done updates. `base` and `flag`: so did the record that the
      pending entry was prepared from, and its flag. `copies`: so does the copy that a soft delete
      has read and not written back yet. */
  datatype Memory = Memory(whole: bool, base: bool, flag: bool, copies: map<nat, bool>)

  const FRESH := Memory(true, true, false, map[])

  /** The call begins a new entry and does not resume one. */
  predicate Creates(w: World, step: Step) {
    step.Begin? && step.request.valid && Quiescent(w.db) && Prepare(w.db, step.request, PrivateKey(w.nextKey)).Ok?
  }

  function Note(w: World, step: Step, m: Memory): Memory {
    match step
    case Begin(_, _) => if Creates(w, step) && w.db.record.Some? then m.(base := m.whole, flag := w.db.record.value.softDeleted) else m
    case Finish(_) => m.(whole := m.base, copies := map p | p in m.copies :: false)
    case DeleteRead(p) => m.(copies := m.copies[p := m.whole])
    case DeleteWrite(p) => m.(whole := p in m.copies && m.copies[p], copies := m.copies - {p})
    case Crash(p) => m.(copies := m.copies - {p})
    case _ => m
  }

  function Remember(exact: bool, w: World, steps: seq<Step>, m: Memory): Memory
    requires IsRun(exact, w, steps)
    decreases |steps|
  {
    if steps == [] then m else Remember(exact, Next(exact, w, steps[0]), steps[1..], Note(w, steps[0], m))
  }

  /** The two records are the same up to the flag. */
  predicate Alike(a: StoredDID, b: StoredDID) { a == b.(softDeleted := a.softDeleted) }

  /** All of the updates in it, or fewer than there are. */
  predicate Holding(record: StoredDID, ops: seq<UpdateOp>, got: StoredDID, whole: bool) {
    if whole then Alike(got, Folded(record, ops)) else |got.operations| < |record.operations| + |ops|
  }

  predicate RecordNoted(record: StoredDID, db: Db, m: Memory) {
    && db.record.Some? && Holding(record, LocalOps(db), db.record.value, m.whole)
    && (Pending(db) && Last(db.states.value).preAnchor.Some? ==>
          var updated := Last(db.states.value).preAnchor.value.updated;
          updated.softDeleted == m.flag && Holding(record, LocalOps(db) + [PendingOp(db)], updated, m.base))
  }

  ghost predicate CopiesNoted(record: StoredDID, ops: seq<UpdateOp>, procs: map<nat, Proc>, copies: map<nat, bool>) {
    && (forall p :: p in copies <==> p in procs && procs[p].Deleting?)
    && (forall p :: p in copies ==> Holding(record, ops, procs[p].copy, copies[p]))
  }

  ghost predicate MemInv(record: StoredDID, w: World, m: Memory) {
    RecordNoted(record, w.db, m) && CopiesNoted(record, LocalOps(w.db), w.procs, m.copies)
  }

  lemma FoldedMore(record: StoredDID, ops: seq<UpdateOp>, op: UpdateOp)
    ensures Folded(record, ops + [op]) == UpdatedRecord(Folded(record, ops), op)
    ensures |Folded(record, ops).operations| == |record.operations| + |ops|
  {
    FoldedPatches(record, ops);
    assert (ops + [op])[..|ops + [op]| - 1] == ops;
  }

  /** An update built on a record holds what the record holds, and itself. */
  lemma UpdatedHolds(record: StoredDID, ops: seq<UpdateOp>, op: UpdateOp, got: StoredDID, whole: bool)
    requires Holding(record, ops, got, whole)
    ensures Holding(record, ops + [op], UpdatedRecord(got, op), whole) && UpdatedRecord(got, op).softDeleted == got.softDeleted
    ensures Holding(record, ops + [op], got, false)
  {
    FoldedMore(record, ops, op);
  }

  lemma CreationNoted(key: nat, record: StoredDID, db: Db, request: Request, nextKey: PrivateKey, m: Memory)
    requires LogInv(key, db) && Quiescent(db) && Prepare(db, request, nextKey).Ok? && RecordNoted(record, db, m)
    ensures RecordNoted(record, Prepare(db, request, nextKey).value.0, m.(base := m.whole, flag := db.record.value.softDeleted))
  {
    PrepareResult(key, db, request, nextKey);
    UpdatedHolds(record, LocalOps(db), PendingOp(Prepare(db, request, nextKey).value.0), db.record.value, m.whole);
  }

  lemma CallsAreNoCopies(record: StoredDID, ops: seq<UpdateOp>, procs: map<nat, Proc>, copies: map<nat, bool>, p: nat, proc: Proc)
    requires CopiesNoted(record, ops, procs, copies) && !proc.Deleting? && (p in procs ==> !procs[p].Deleting?)
    ensures CopiesNoted(record, ops, procs[p := proc], copies) && CopiesNoted(record, ops, procs - {p}, copies)
  {
  }

  lemma BeginNoted(exact: bool, key: nat, lost: bool, record: StoredDID, w: World, step: Step, m: Memory)
    requires Inv(exact, key, lost, w) && Enabled(w, step) && step.Begin? && MemInv(record, w, m)
    ensures MemInv(record, Next(exact, w, step), Note(w, step, m))
  {
    var w' := Next(exact, w, step);
    if step.request.valid && Prepare(w.db, step.request, PrivateKey(w.nextKey)).Ok? {
      PrepareResult(key, w.db, step.request, PrivateKey(w.nextKey));
      CallsAreNoCopies(record, LocalOps(w.db), w.procs, m.copies, step.p, w'.procs[step.p]);
      if Quiescent(w.db) { CreationNoted(key, record, w.db, step.request, PrivateKey(w.nextKey), m); }
    }
  }

  lemma FinishNoted(exact: bool, key: nat, lost: bool, record: StoredDID, w: World, step: Step, m: Memory)
    requires Inv(exact, key, lost, w) && Enabled(w, step) && step.Finish? && MemInv(record, w, m)
    ensures MemInv(record, Next(exact, w, step), Note(w, step, m))
    ensures Next(exact, w, step).db.record.Some? && Next(exact, w, step).db.record.value.softDeleted == m.flag
  {
    var w' := Next(exact, w, step);
    assert ProcInv(exact, w, step.p);
    AppliedLog(key, w.db);
    forall p | p in m.copies ensures Holding(record, LocalOps(w'.db), w'.procs[p].copy, false) {
      UpdatedHolds(record, LocalOps(w.db), PendingOp(w.db), w.procs[p].copy, m.copies[p]);
    }
  }

  lemma OthersNoted(exact: bool, key: nat, lost: bool, record: StoredDID, w: World, step: Step, m: Memory)
    requires Inv(exact, key, lost, w) && Enabled(w, step) && !step.Begin? && !step.Finish? && MemInv(record, w, m)
    ensures MemInv(record, Next(exact, w, step), Note(w, step, m))
  {
    match step
    case Anchor(p, _) => CallsAreNoCopies(record, LocalOps(w.db), w.procs, m.copies, p, Next(exact, w, step).procs[p]);
    case Store(_) => StoreNoted(exact, key, lost, record, w, step, m);
    case Crash(p) => CopyDropped(record, LocalOps(w.db), w.procs, m.copies, p);
    case DeleteRead(_) => ReadNoted(exact, record, w, step, m);
    case DeleteWrite(_) => WriteNoted(exact, record, w, step, m);
  }

  /** The outcome of the anchor call is stored: no update is done by it, and no record touched. */
  lemma StoreNoted(exact: bool, key: nat, lost: bool, record: StoredDID, w: World, step: Step, m: Memory)
    requires Inv(exact, key, lost, w) && Enabled(w, step) && step.Store? && MemInv(record, w, m)
    ensures MemInv(record, Next(exact, w, step), m)
  {
    var log := w.procs[step.p].log;
    assert ProcInv(exact, w, step.p);
    StoredLog(key, w.db, log);
    CallsAreNoCopies(record, LocalOps(w.db), w.procs, m.copies, step.p, ToApply);
  }

  lemma CopyDropped(record: StoredDID, ops: seq<UpdateOp>, procs: map<nat, Proc>, copies: map<nat, bool>, p: nat)
    requires CopiesNoted(record, ops, procs, copies)
    ensures CopiesNoted(record, ops, procs - {p}, copies - {p})
  {
  }

  lemma ReadNoted(exact: bool, record: StoredDID, w: World, step: Step, m: Memory)
    requires Enabled(w, step) && step.DeleteRead? && MemInv(record, w, m)
    ensures MemInv(record, Next(exact, w, step), Note(w, step, m))
  {
  }

  lemma WriteNoted(exact: bool, record: StoredDID, w: World, step: Step, m: Memory)
    requires Enabled(w, step) && step.DeleteWrite? && MemInv(record, w, m)
    ensures MemInv(record, Next(exact, w, step), Note(w, step, m))
  {
    CopyDropped(record, LocalOps(w.db), w.procs, m.copies, step.p);
  }

  lemma StepNoted(exact: bool, key: nat, lost: bool, record: StoredDID, w: World, step: Step, m: Memory)
    requires Inv(exact, key, lost, w) && Enabled(w, step) && MemInv(record, w, m)
    ensures MemInv(record, Next(exact, w, step), Note(w, step, m))
  {
    if step.Begin? {
      BeginNoted(exact, key, lost, record, w, step, m);
    } else if step.Finish? {
      FinishNoted(exact, key, lost, record, w, step, m);
    } else {
      OthersNoted(exact, key, lost, record, w, step, m);
    }
  }

  lemma {:induction false} RunsNoted(exact: bool, key: nat, lost: bool, record: StoredDID, w: World, steps: seq<Step>, m: Memory)
    requires Inv(exact, key, lost, w) && MemInv(record, w, m) && IsRun(exact, w, steps)
    ensures MemInv(record, End(exact, w, steps), Remember(exact, w, steps, m))
    ensures Inv(exact, key, lost || (!exact && EverLoses(exact, w, steps)), End(exact, w, steps))
    decreases |steps|
  {
    if steps != [] {
      Preserved(exact, key, lost, w, steps[0]);
      StepNoted(exact, key, lost, record, w, steps[0], m);
      RunsNoted(exact, key, lost || (!exact && Loses(w, steps[0])), record, Next(exact, w, steps[0]), steps[1..], Note(w, steps[0], m));
    }
  }

  lemma WholeIsConserved(record: StoredDID, w: World, m: Memory)
    requires MemInv(record, w, m)
    ensures Conserved(record, w) <==> m.whole
  {
    FoldedPatches(record, LocalOps(w.db));
  }

  lemma GenesisNoted(exact: bool, record: StoredDID, key: nat)
    ensures Inv(exact, key, false, Genesis(record, key)) && MemInv(record, Genesis(record, key), FRESH)
  {
    GenesisInv(exact, record, key);
  }

  // ---- Conservation ----

  /** Exactly when the stored document holds the creation patches followed by the patches of the Done
      updates, each once: the last to write the record was an update prepared from a record that held
      all before it, or a soft delete that had read one and saw no update finish since. Updates that
      ended in an anchor error contribute nothing. */
  lemma DocumentConservation(exact: bool, record: StoredDID, key: nat, steps: seq<Step>, w: World)
    requires Reaches(exact, record, key, steps, w)
    ensures Conserved(record, w) <==> Remember(exact, Genesis(record, key), steps, FRESH).whole
  {
    GenesisNoted(exact, record, key);
    RunsNoted(exact, key, false, record, Genesis(record, key), steps, FRESH);
    WholeIsConserved(record, w, Remember(exact, Genesis(record, key), steps, FRESH));
  }

  /** No update finishes while a soft delete is between its read and its write. */
  predicate Calm(exact: bool, w: World, steps: seq<Step>)
    requires IsRun(exact, w, steps)
    decreases |steps|
  {
    steps == [] ||
    (&& (steps[0].Finish? ==> forall p :: p in w.procs ==> !w.procs[p].Deleting?)
     && Calm(exact, Next(exact, w, steps[0]), steps[1..]))
  }

  lemma NoteKeepsWhole(w: World, step: Step, m: Memory)
    requires Enabled(w, step) && (step.Finish? ==> forall p :: p in w.procs ==> !w.procs[p].Deleting?)
    requires forall p :: p in m.copies <==> p in w.procs && w.procs[p].Deleting?
    requires m.whole && m.base && forall p :: p in m.copies ==> m.copies[p]
    ensures Note(w, step, m).whole && Note(w, step, m).base && forall p :: p in Note(w, step, m).copies ==> Note(w, step, m).copies[p]
  {
  }

  lemma {:induction false} CalmKeepsWhole(exact: bool, key: nat, lost: bool, record: StoredDID, w: World, steps: seq<Step>, m: Memory)
    requires Inv(exact, key, lost, w) && MemInv(record, w, m) && IsRun(exact, w, steps) && Calm(exact, w, steps)
    requires m.whole && m.base && forall p :: p in m.copies ==> m.copies[p]
    ensures Remember(exact, w, steps, m).whole
    decreases |steps|
  {
    if steps != [] {
      var step, m' := steps[0], Note(w, steps[0], m);
      Preserved(exact, key, lost, w, step);
      StepNoted(exact, key, lost, record, w, step, m);
      NoteKeepsWhole(w, step, m);
      CalmKeepsWhole(exact, key, lost || (!exact && Loses(w, step)), record, Next(exact, w, step), steps[1..], m');
    }
  }

  /** So the document is conserved through any number of soft deletes, as long as none has an update
      finish between its read and its write. */
  lemma CalmRunsConserve(exact: bool, record: StoredDID, key: nat, steps: seq<Step>, w: World)
    requires Reaches(exact, record, key, steps, w) && Calm(exact, Genesis(record, key), steps)
    ensures Conserved(record, w)
  {
    GenesisNoted(exact, record, key);
    CalmKeepsWhole(exact, key, false, record, Genesis(record, key), steps, FRESH);
    DocumentConservation(exact, record, key, steps, w);
  }

  predicate LeavesAlone(steps: seq<Step>, p: nat) {
    forall i :: 0 <= i < |steps| ==> steps[i] != Crash(p) && steps[i] != DeleteWrite(p) && steps[i] != DeleteRead(p)
  }

  predicate Finishes(steps: seq<Step>) { exists i :: 0 <= i < |steps| && steps[i].Finish? }

  predicate RewritesNothing(steps: seq<Step>) { forall i :: 0 <= i < |steps| ==> !steps[i].Finish? && !steps[i].DeleteWrite? }

  lemma {:induction false} CopyGoesStale(exact: bool, w: World, steps: seq<Step>, m: Memory, p: nat)
    requires IsRun(exact, w, steps) && LeavesAlone(steps, p) && p in m.copies
    ensures p in Remember(exact, w, steps, m).copies
    ensures Remember(exact, w, steps, m).copies[p] <==> m.copies[p] && !Finishes(steps)
    decreases |steps|
  {
    if steps != [] {
      assert steps[0] != Crash(p) && steps[0] != DeleteWrite(p) && steps[0] != DeleteRead(p);
      assert forall i :: 0 <= i < |steps[1..]| ==> steps[1..][i] == steps[i + 1];
      CopyGoesStale(exact, Next(exact, w, steps[0]), steps[1..], Note(w, steps[0], m), p);
      assert Finishes(steps) <==> steps[0].Finish? || Finishes(steps[1..]) by {
        if Finishes(steps) { var i :| 0 <= i < |steps| && steps[i].Finish?; if i > 0 { assert steps[1..][i - 1].Finish?; } }
        if Finishes(steps[1..]) { var i :| 0 <= i < |steps[1..]| && steps[1..][i].Finish?; assert steps[i + 1].Finish?; }
      }
    }
  }

  lemma {:induction false} StaysAsItIs(exact: bool, w: World, steps: seq<Step>, m: Memory)
    requires IsRun(exact, w, steps) && RewritesNothing(steps)
    ensures Remember(exact, w, steps, m).whole == m.whole
    decreases |steps|
  {
    if steps != [] {
      assert !steps[0].Finish? && !steps[0].DeleteWrite?;
      assert forall i :: 0 <= i < |steps[1..]| ==> steps[1..][i] == steps[i + 1];
      StaysAsItIs(exact, Next(exact, w, steps[0]), steps[1..], Note(w, steps[0], m));
    }
  }

  /** What the copy that was read held, unless an update finished since, is what the record holds
      when it has been written back and left alone. */
  lemma CopyReturns(exact: bool, w: World, mid: seq<Step>, after: seq<Step>, m: Memory, p: nat)
    requires IsRun(exact, w, mid) && LeavesAlone(mid, p) && p in m.copies && Enabled(End(exact, w, mid), DeleteWrite(p))
    requires IsRun(exact, Next(exact, End(exact, w, mid), DeleteWrite(p)), after) && RewritesNothing(after)
    ensures
      var m' := Note(End(exact, w, mid), DeleteWrite(p), Remember(exact, w, mid, m));
      Remember(exact, Next(exact, End(exact, w, mid), DeleteWrite(p)), after, m').whole <==> m.copies[p] && !Finishes(mid)
  {
    CopyGoesStale(exact, w, mid, m, p);
    StaysAsItIs(exact, Next(exact, End(exact, w, mid), DeleteWrite(p)), after, Note(End(exact, w, mid), DeleteWrite(p), Remember(exact, w, mid, m)));
  }

  /** A soft delete that has read the record and lives to write it back, with nothing rewriting the
      record later, loses Done updates if one finished in between; and if none did, and the record it
      read held them all, it loses nothing. */
  lemma StaleWriteLoses(exact: bool, record: StoredDID, key: nat, before: seq<Step>, w: World, p: nat, mid: seq<Step>, after: seq<Step>)
    requires Reaches(exact, record, key, before, w) && Enabled(w, DeleteRead(p))
    requires IsRun(exact, Next(exact, w, DeleteRead(p)), mid) && LeavesAlone(mid, p)
    requires Enabled(End(exact, Next(exact, w, DeleteRead(p)), mid), DeleteWrite(p))
    requires IsRun(exact, Next(exact, End(exact, Next(exact, w, DeleteRead(p)), mid), DeleteWrite(p)), after) && RewritesNothing(after)
    ensures
      var w' := End(exact, Next(exact, End(exact, Next(exact, w, DeleteRead(p)), mid), DeleteWrite(p)), after);
      Conserved(record, w') <==> Conserved(record, w) && !Finishes(mid)
  {
    var m := Remember(exact, Genesis(record, key), before, FRESH);
    GenesisNoted(exact, record, key);
    RunsNoted(exact, key, false, record, Genesis(record, key), before, FRESH);
    WholeIsConserved(record, w, m);
    WriteAfterRead(exact, key, !exact && EverLoses(exact, Genesis(record, key), before), record, w, m, p, mid, after);
  }

  lemma WriteAfterRead(exact: bool, key: nat, lost: bool, record: StoredDID, w: World, m: Memory, p: nat, mid: seq<Step>, after: seq<Step>)
    requires Inv(exact, key, lost, w) && MemInv(record, w, m) && Enabled(w, DeleteRead(p))
    requires IsRun(exact, Next(exact, w, DeleteRead(p)), mid) && LeavesAlone(mid, p)
    requires Enabled(End(exact, Next(exact, w, DeleteRead(p)), mid), DeleteWrite(p))
    requires IsRun(exact, Next(exact, End(exact, Next(exact, w, DeleteRead(p)), mid), DeleteWrite(p)), after) && RewritesNothing(after)
    ensures
      var w' := End(exact, Next(exact, End(exact, Next(exact, w, DeleteRead(p)), mid), DeleteWrite(p)), after);
      Conserved(record, w') <==> m.whole && !Finishes(mid)
  {
    var w1, m1 := Next(exact, w, DeleteRead(p)), Note(w, DeleteRead(p), m);
    var w2, m2 := End(exact, w1, mid), Remember(exact, w1, mid, m1);
    var w3, m3 := Next(exact, w2, DeleteWrite(p)), Note(w2, DeleteWrite(p), m2);
    var lost' := lost || (!exact && EverLoses(exact, w1, mid));
    ReadNoted(exact, record, w, DeleteRead(p), m);
    Preserved(exact, key, lost, w, DeleteRead(p));
    RunsNoted(exact, key, lost, record, w1, mid, m1);
    WriteNoted(exact, record, w2, DeleteWrite(p), m2);
    Preserved(exact, key, lost', w2, DeleteWrite(p));
    RunsNoted(exact, key, lost', record, w3, after, m3);
    CopyReturns(exact, w1, mid, after, m1, p);
    WholeIsConserved(record, End(exact, w3, after), Remember(exact, w3, after, m3));
  }

  // ---- The flag ----

  function LogLength(db: Db): nat { if db.states.None? then 0 else |db.states.value| }

  /** Once its last entry has ended, the log must grow before an update is pending again; and it
      grows with every entry that is created. */
  lemma {:induction false} LogOnlyGrows(exact: bool, key: nat, lost: bool, w: World, steps: seq<Step>)
    requires Inv(exact, key, lost, w) && IsRun(exact, w, steps)
    ensures LogLength(End(exact, w, steps).db) >= LogLength(w.db)
    ensures Quiescent(w.db) && Pending(End(exact, w, steps).db) ==> LogLength(End(exact, w, steps).db) > LogLength(w.db)
    decreases |steps|
  {
    if steps != [] {
      StepGrowsLog(exact, key, lost, w, steps[0]);
      Preserved(exact, key, lost, w, steps[0]);
      LogOnlyGrows(exact, key, lost || (!exact && Loses(w, steps[0])), Next(exact, w, steps[0]), steps[1..]);
    }
  }

  /** A step never shortens the log, and makes an update pending only by making it longer. */
  lemma StepGrowsLog(exact: bool, key: nat, lost: bool, w: World, step: Step)
    requires Inv(exact, key, lost, w) && Enabled(w, step) && Exclusive(w, step)
    ensures LogLength(Next(exact, w, step).db) >= LogLength(w.db)
    ensures Quiescent(w.db) && Pending(Next(exact, w, step).db) ==> LogLength(Next(exact, w, step).db) > LogLength(w.db)
  {
    StepMovesLog(exact, key, lost, w, step);
  }

  lemma CreatingGrows(exact: bool, key: nat, lost: bool, w: World, step: Step)
    requires Inv(exact, key, lost, w) && Enabled(w, step) && Creates(w, step)
    ensures LogLength(Next(exact, w, step).db) == LogLength(w.db) + 1 && Pending(Next(exact, w, step).db)
  {
    PrepareResult(key, w.db, step.request, PrivateKey(w.nextKey));
  }

  predicate Deletes(steps: seq<Step>) { exists i :: 0 <= i < |steps| && steps[i].DeleteWrite? }

  /** While an entry stays the last one and pending, the flag that it was prepared with is kept in
      mind, and the stored flag is set by soft deletes alone. */
  lemma {:induction false} WhilePending(exact: bool, key: nat, lost: bool, w: World, steps: seq<Step>, m: Memory)
    requires Inv(exact, key, lost, w) && IsRun(exact, w, steps) && w.db.record.Some?
    requires Pending(End(exact, w, steps).db) && LogLength(End(exact, w, steps).db) == LogLength(w.db)
    ensures Remember(exact, w, steps, m).flag == m.flag
    ensures End(exact, w, steps).db.record.Some?
    ensures End(exact, w, steps).db.record.value.softDeleted <==> w.db.record.value.softDeleted || Deletes(steps)
    decreases |steps|
  {
    if steps != [] {
      var step := steps[0];
      var w', lost' := Next(exact, w, step), lost || (!exact && Loses(w, step));
      Preserved(exact, key, lost, w, step);
      LogOnlyGrows(exact, key, lost, w, steps);
      LogOnlyGrows(exact, key, lost', w', steps[1..]);
      StepGrowsLog(exact, key, lost, w, step);
      if Creates(w, step) { CreatingGrows(exact, key, lost, w, step); }
      if step.Finish? { FinishEnds(exact, key, lost, w, step); }
      StepKeepsFlag(exact, w, step, m);
      WhilePending(exact, key, lost', w', steps[1..], Note(w, step, m));
      DeletesUnfolds(steps);
    }
  }

  lemma DeletesUnfolds(steps: seq<Step>)
    requires steps != []
    ensures Deletes(steps) <==> steps[0].DeleteWrite? || Deletes(steps[1..])
  {
    if Deletes(steps) { var i :| 0 <= i < |steps| && steps[i].DeleteWrite?; if i > 0 { assert steps[1..][i - 1].DeleteWrite?; } }
    if Deletes(steps[1..]) { var i :| 0 <= i < |steps[1..]| && steps[1..][i].DeleteWrite?; assert steps[i + 1].DeleteWrite?; }
  }

  lemma FinishEnds(exact: bool, key: nat, lost: bool, w: World, step: Step)
    requires Inv(exact, key, lost, w) && Enabled(w, step) && step.Finish?
    ensures Quiescent(Next(exact, w, step).db)
  {
    assert ProcInv(exact, w, step.p);
    AppliedLog(key, w.db);
  }

  lemma StepKeepsFlag(exact: bool, w: World, step: Step, m: Memory)
    requires Enabled(w, step) && !step.Finish? && !Creates(w, step) && w.db.record.Some?
    ensures Note(w, step, m).flag == m.flag && Next(exact, w, step).db.record.Some?
    ensures Next(exact, w, step).db.record.value.softDeleted <==> w.db.record.value.softDeleted || step.DeleteWrite?
  {
  }

  /** The flag after an update is the flag that the call which created its entry found. So a soft
      delete is lost to it exactly if it was written between that call's beginning and the finish,
      to a record that was not deleted before. */
  lemma FlagAfterFinish(exact: bool, record: StoredDID, key: nat, before: seq<Step>, w: World, begin: Step, mid: seq<Step>, p: nat)
    requires Reaches(exact, record, key, before, w) && Enabled(w, begin) && Exclusive(w, begin) && Creates(w, begin)
    requires IsRun(exact, Next(exact, w, begin), mid) && Enabled(End(exact, Next(exact, w, begin), mid), Finish(p))
    requires LogLength(End(exact, Next(exact, w, begin), mid).db) == LogLength(Next(exact, w, begin).db)
    ensures
      var w' := End(exact, Next(exact, w, begin), mid);
      var w'' := Next(exact, w', Finish(p));
      && w.db.record.Some? && w'.db.record.Some? && w''.db.record.Some?
      && w''.db.record.value.softDeleted == w.db.record.value.softDeleted
      && (w'.db.record.value.softDeleted && !w''.db.record.value.softDeleted <==> !w.db.record.value.softDeleted && Deletes(mid))
  {
    var w1 := Next(exact, w, begin);
    var w' := End(exact, w1, mid);
    var m := Remember(exact, Genesis(record, key), before, FRESH);
    var m1 := Note(w, begin, m);
    var m' := Remember(exact, w1, mid, m1);
    var lost := !exact && EverLoses(exact, Genesis(record, key), before);
    GenesisNoted(exact, record, key);
    RunsNoted(exact, key, false, record, Genesis(record, key), before, FRESH);
    BeginNoted(exact, key, lost, record, w, begin, m);
    Preserved(exact, key, lost, w, begin);
    RunsNoted(exact, key, lost, record, w1, mid, m1);
    var lost' := lost || (!exact && EverLoses(exact, w1, mid));
    assert ProcInv(exact, w', p);
    PrepareResult(key, w.db, begin.request, PrivateKey(w.nextKey));
    WhilePending(exact, key, lost, w1, mid, m1);
    FinishNoted(exact, key, lost', record, w', Finish(p), m');
  }
}
