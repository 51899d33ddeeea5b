/** Runs that break the promises of IonTheorems once an assumption is dropped, world by world. */
module IonLimits {
  import opened Wrappers
  import opened Ion
  import opened IonRuns

  predicate Leads(w: World, step: Step, w': World) { Enabled(w, step) && Next(false, w, step) == w' }

  /** Step by step through `worlds`, whether or not one call at a time. */
  predicate Trace(worlds: seq<World>, steps: seq<Step>) {
    && |worlds| == |steps| + 1
    && forall i :: 0 <= i < |steps| ==> Leads(worlds[i], steps[i], worlds[i + 1])
  }

  const REQUEST := Request([], true, true)
  const OP := UpdateOp(PublicKey(0), PrivateKey(0), PublicKey(1), [])
  const FRESH := Ledger(PublicKey(0), [])
  const APPLIED := Ledger(PublicKey(1), [OP])

  function Entry(record: StoredDID, status: Status): UpdateState {
    UpdateState(status, Some(PreAnchor(OP, PublicKey(1), UpdatedRecord(record, OP))),
                if status == PreAnchored then None else if status == AnchorError then Some("anchor") else Some(""))
  }

  /** The store with one log entry, made for `record`. */
  function Holding(record: StoredDID, status: Status, key: nat, stored: StoredDID): Db {
    Db(Some([Entry(record, status)]), Some(PrivateKey(key)), Some(PrivateKey(1)), Some(stored))
  }

  // ---- The steps of one update, among other processes ----

  lemma BeginLeads(record: StoredDID, p: nat)
    ensures Leads(Genesis(record, 0), Begin(p, REQUEST), World(Holding(record, PreAnchored, 0, record), FRESH, 2, map[p := Prepared([Entry(record, PreAnchored)])]))
  {
    assert [BLANK][..0] + [Entry(record, PreAnchored)] == [Entry(record, PreAnchored)];
  }

  lemma ResumeLeads(record: StoredDID, w: World, p: nat)
    requires w.db == Holding(record, PreAnchored, 0, record) && p !in w.procs
    ensures Leads(w, Begin(p, REQUEST), w.(nextKey := w.nextKey + 1, procs := w.procs[p := Prepared([Entry(record, PreAnchored)])]))
  {
  }

  lemma AnchorLeads(record: StoredDID, w: World, p: nat)
    requires p in w.procs && w.procs[p] == Prepared([Entry(record, PreAnchored)])
    ensures w.ledger == FRESH ==> Leads(w, Anchor(p, Acked), w.(ledger := APPLIED, procs := w.procs[p := ToStore([Entry(record, Anchored)])]))
    ensures w.ledger == APPLIED ==> Leads(w, Anchor(p, Acked), w.(procs := w.procs[p := ToStore([Entry(record, AnchorError)])]))
  {
    var pre := [Entry(record, PreAnchored)];
    assert forall state :: SetLast(pre, state) == [state];
    assert FRESH.applied + [OP] == [OP];
  }

  lemma StoreLeads(record: StoredDID, w: World, p: nat, status: Status)
    requires p in w.procs && w.procs[p] == ToStore([Entry(record, status)])
    ensures Leads(w, Store(p), w.(db := w.db.(states := Some([Entry(record, status)])),
                                  procs := if status == AnchorError then w.procs - {p} else w.procs[p := ToApply]))
  {
  }

  lemma FinishLeads(record: StoredDID, w: World, p: nat, stored: StoredDID)
    requires p in w.procs && w.procs[p] == ToApply && w.db == Holding(record, Anchored, 0, stored)
    ensures Leads(w, Finish(p), w.(db := Holding(record, Done, 1, UpdatedRecord(record, OP)), procs := w.procs - {p}))
  {
    assert SetLast(LogOf(w.db), Entry(record, Done)) == [Entry(record, Done)];
  }

  // ---- Soft deletes ----

  const OVERWRITING := [Begin(1, REQUEST), DeleteRead(2), DeleteWrite(2), Anchor(1, Acked), Store(1), Finish(1)]

  function OverwritingWorlds(record: StoredDID): seq<World> {
    var deleted := record.(softDeleted := true);
    var prepared := Prepared([Entry(record, PreAnchored)]);
    [ Genesis(record, 0),
      World(Holding(record, PreAnchored, 0, record), FRESH, 2, map[1 := prepared]),
      World(Holding(record, PreAnchored, 0, record), FRESH, 2, map[1 := prepared, 2 := Deleting(record)]),
      World(Holding(record, PreAnchored, 0, deleted), FRESH, 2, map[1 := prepared]),
      World(Holding(record, PreAnchored, 0, deleted), APPLIED, 2, map[1 := ToStore([Entry(record, Anchored)])]),
      World(Holding(record, Anchored, 0, deleted), APPLIED, 2, map[1 := ToApply]),
      World(Holding(record, Done, 1, UpdatedRecord(record, OP)), APPLIED, 2, map[]) ]
  }

  /** A soft delete between prepare and apply takes effect, and is gone once the update is done. */
  lemma SoftDeleteIsOverwritten(record: StoredDID)
    requires !record.softDeleted
    ensures Trace(OverwritingWorlds(record), OVERWRITING)
    ensures OverwritingWorlds(record)[0] == Genesis(record, 0)
    ensures OverwritingWorlds(record)[3].db.record.value.softDeleted
    ensures !OverwritingWorlds(record)[6].db.record.value.softDeleted
  {
    var ws := OverwritingWorlds(record);
    BeginLeads(record, 1);
    assert Leads(ws[1], DeleteRead(2), ws[2]);
    DeleteWriteLeads(ws[2], 2, record);
    assert ws[2].procs - {2} == ws[3].procs;
    AnchorLeads(record, ws[3], 1);
    assert ws[3].procs[1 := ToStore([Entry(record, Anchored)])] == ws[4].procs;
    StoreLeads(record, ws[4], 1, Anchored);
    assert ws[4].procs[1 := ToApply] == ws[5].procs;
    FinishLeads(record, ws[5], 1, record.(softDeleted := true));
    assert ws[5].procs - {1} == ws[6].procs;
  }

  lemma DeleteWriteLeads(w: World, p: nat, copy: StoredDID)
    requires p in w.procs && w.procs[p] == Deleting(copy)
    ensures Leads(w, DeleteWrite(p), w.(db := w.db.(record := Some(copy.(softDeleted := true))), procs := w.procs - {p}))
  {
  }

  const REVERTING := [Begin(1, REQUEST), Anchor(1, Acked), Store(1), DeleteRead(2), Finish(1), DeleteWrite(2)]

  function RevertingWorlds(record: StoredDID): seq<World> {
    [ Genesis(record, 0),
      World(Holding(record, PreAnchored, 0, record), FRESH, 2, map[1 := Prepared([Entry(record, PreAnchored)])]),
      World(Holding(record, PreAnchored, 0, record), APPLIED, 2, map[1 := ToStore([Entry(record, Anchored)])]),
      World(Holding(record, Anchored, 0, record), APPLIED, 2, map[1 := ToApply]),
      World(Holding(record, Anchored, 0, record), APPLIED, 2, map[1 := ToApply, 2 := Deleting(record)]),
      World(Holding(record, Done, 1, UpdatedRecord(record, OP)), APPLIED, 2, map[2 := Deleting(record)]),
      World(Holding(record, Done, 1, record.(softDeleted := true)), APPLIED, 2, map[]) ]
  }

  /** A soft delete that reads before an apply and writes after it takes the update out of the
      record again, while the log keeps it as Done. */
  lemma SoftDeleteRevertsUpdate(record: StoredDID)
    ensures Trace(RevertingWorlds(record), REVERTING)
    ensures var w := RevertingWorlds(record)[6];
      LocalOps(w.db) == [OP] && w.db.record == Some(record.(softDeleted := true)) && |w.db.record.value.operations| == |record.operations|
  {
    var ws := RevertingWorlds(record);
    BeginLeads(record, 1);
    AnchorLeads(record, ws[1], 1);
    assert ws[1].procs[1 := ToStore([Entry(record, Anchored)])] == ws[2].procs;
    StoreLeads(record, ws[2], 1, Anchored);
    assert ws[2].procs[1 := ToApply] == ws[3].procs;
    assert Leads(ws[3], DeleteRead(2), ws[4]);
    FinishLeads(record, ws[4], 1, record);
    assert ws[4].procs - {1} == ws[5].procs;
    DeleteWriteLeads(ws[5], 2, record);
    assert ws[5].procs - {2} == ws[6].procs;
    OpsOfOne(record);
  }

  lemma OpsOfOne(record: StoredDID)
    ensures DoneOps([Entry(record, Done)]) == [OP] && DoneOps([Entry(record, AnchorError)]) == []
  {
    assert [Entry(record, Done)][..0] == [] && [Entry(record, AnchorError)][..0] == [];
    assert DoneOps([]) == [];
  }

  // ---- Two calls in flight ----

  const RACING := [Begin(1, REQUEST), Begin(2, REQUEST), Anchor(1, Acked), Store(1), Finish(1), Anchor(2, Acked), Store(2)]

  function RacingWorlds(record: StoredDID): seq<World> {
    var prepared, updated := Prepared([Entry(record, PreAnchored)]), UpdatedRecord(record, OP);
    [ Genesis(record, 0),
      World(Holding(record, PreAnchored, 0, record), FRESH, 2, map[1 := prepared]),
      World(Holding(record, PreAnchored, 0, record), FRESH, 3, map[1 := prepared, 2 := prepared]),
      World(Holding(record, PreAnchored, 0, record), APPLIED, 3, map[1 := ToStore([Entry(record, Anchored)]), 2 := prepared]),
      World(Holding(record, Anchored, 0, record), APPLIED, 3, map[1 := ToApply, 2 := prepared]),
      World(Holding(record, Done, 1, updated), APPLIED, 3, map[2 := prepared]),
      World(Holding(record, Done, 1, updated), APPLIED, 3, map[2 := ToStore([Entry(record, AnchorError)])]),
      World(Holding(record, AnchorError, 1, updated), APPLIED, 3, map[]) ]
  }

  lemma BothPrepare(record: StoredDID)
    ensures Leads(RacingWorlds(record)[0], RACING[0], RacingWorlds(record)[1])
    ensures Leads(RacingWorlds(record)[1], RACING[1], RacingWorlds(record)[2])
  {
    var ws := RacingWorlds(record);
    BeginLeads(record, 1);
    ResumeLeads(record, ws[1], 2);
    assert ws[1].procs[2 := Prepared([Entry(record, PreAnchored)])] == ws[2].procs;
  }

  lemma FirstCallAnchors(record: StoredDID)
    ensures Leads(RacingWorlds(record)[2], RACING[2], RacingWorlds(record)[3])
    ensures Leads(RacingWorlds(record)[3], RACING[3], RacingWorlds(record)[4])
  {
    var ws := RacingWorlds(record);
    AnchorLeads(record, ws[2], 1);
    assert ws[2].procs[1 := ToStore([Entry(record, Anchored)])] == ws[3].procs;
    StoreLeads(record, ws[3], 1, Anchored);
    assert ws[3].procs[1 := ToApply] == ws[4].procs;
  }

  lemma FirstCallFinishes(record: StoredDID)
    ensures Leads(RacingWorlds(record)[4], RACING[4], RacingWorlds(record)[5])
  {
    var ws := RacingWorlds(record);
    FinishLeads(record, ws[4], 1, record);
    assert ws[4].procs - {1} == ws[5].procs;
  }

  lemma SecondCallOverwrites(record: StoredDID)
    ensures Leads(RacingWorlds(record)[5], RACING[5], RacingWorlds(record)[6])
    ensures Leads(RacingWorlds(record)[6], RACING[6], RacingWorlds(record)[7])
  {
    var ws := RacingWorlds(record);
    AnchorLeads(record, ws[5], 2);
    assert ws[5].procs[2 := ToStore([Entry(record, AnchorError)])] == ws[6].procs;
    StoreLeads(record, ws[6], 2, AnchorError);
    assert ws[6].procs - {2} == ws[7].procs;
  }

  lemma AckedLosesNothing(w: World, step: Step)
    requires Enabled(w, step) && !step.Crash? && (step.Anchor? ==> step.reply == Acked)
    ensures !Loses(w, step)
  {
  }

  /** With a second call in flight, storing its outcome outside a transaction overwrites the entry
      that the first call has finished: the log forgets an update the ledger has applied, although
      no accepted anchor went unrecorded. */
  lemma TwoCallsInFlightLoseADoneEntry(record: StoredDID)
    ensures var ws := RacingWorlds(record);
      && Trace(ws, RACING)
      && !Exclusive(ws[1], RACING[1])
      && (forall i :: 0 <= i < |RACING| ==> Enabled(ws[i], RACING[i]) && !Loses(ws[i], RACING[i]))
      && LocalOps(ws[5].db) == [OP] && Agrees(ws[5])
      && LocalOps(ws[7].db) == [] && Quiescent(ws[7].db) && !Agrees(ws[7])
  {
    var ws := RacingWorlds(record);
    BothPrepare(record);
    FirstCallAnchors(record);
    FirstCallFinishes(record);
    SecondCallOverwrites(record);
    assert Updating(ws[1].procs[1]);
    assert Trace(ws, RACING);
    forall i | 0 <= i < |RACING| ensures Enabled(ws[i], RACING[i]) && !Loses(ws[i], RACING[i]) {
      assert Leads(ws[i], RACING[i], ws[i + 1]);
      AckedLosesNothing(ws[i], RACING[i]);
    }
    OpsOfOne(record);
  }

  // ---- A crash after the ledger accepted ----

  const CRASHING := [Begin(1, REQUEST), Anchor(1, Acked), Crash(1), Begin(1, REQUEST), Anchor(1, Acked), Store(1)]

  function CrashingWorlds(record: StoredDID): seq<World> {
    [ Genesis(record, 0),
      World(Holding(record, PreAnchored, 0, record), FRESH, 2, map[1 := Prepared([Entry(record, PreAnchored)])]),
      World(Holding(record, PreAnchored, 0, record), APPLIED, 2, map[1 := ToStore([Entry(record, Anchored)])]),
      World(Holding(record, PreAnchored, 0, record), APPLIED, 2, map[]),
      World(Holding(record, PreAnchored, 0, record), APPLIED, 3, map[1 := Prepared([Entry(record, PreAnchored)])]),
      World(Holding(record, PreAnchored, 0, record), APPLIED, 3, map[1 := ToStore([Entry(record, AnchorError)])]),
      World(Holding(record, AnchorError, 0, record), APPLIED, 3, map[]) ]
  }

  /** One call at a time, and yet the resumed update is refused by the ledger that already has it:
      the constant answer of isPreviouslyAnchoredError turns it into an anchor error for good. */
  lemma CrashAfterAcceptDiverges(record: StoredDID)
    ensures var ws := CrashingWorlds(record);
      && Trace(ws, CRASHING)
      && (forall i :: 0 <= i < |CRASHING| ==> Exclusive(ws[i], CRASHING[i]))
      && Enabled(ws[2], CRASHING[2]) && Loses(ws[2], CRASHING[2])
      && Quiescent(ws[6].db) && !Agrees(ws[6]) && ws[6].ledger.applied == [OP] && LocalOps(ws[6].db) == []
  {
    var ws := CrashingWorlds(record);
    BeginLeads(record, 1);
    AnchorLeads(record, ws[1], 1);
    assert ws[1].procs[1 := ToStore([Entry(record, Anchored)])] == ws[2].procs;
    assert ws[2].procs - {1} == ws[3].procs;
    assert Leads(ws[2], Crash(1), ws[3]);
    ResumeLeads(record, ws[3], 1);
    AnchorLeads(record, ws[4], 1);
    assert ws[4].procs[1 := ToStore([Entry(record, AnchorError)])] == ws[5].procs;
    StoreLeads(record, ws[5], 1, AnchorError);
    assert ws[5].procs - {1} == ws[6].procs;
    OpsOfOne(record);
  }
}
