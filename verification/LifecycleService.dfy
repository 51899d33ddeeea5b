/** The storage and service methods of the lifecycle as the code runs them, on a store held
    exclusively. */
module LifecycleService {
  import opened Wrappers
  import opened Kernel
  import opened Execute
  import opened KeyOrder
  import opened OperationIds
  import opened Lifecycle

  /** The fields to set on an operation; the response is filled in while a transaction runs, and
      again if it is retried. */
  class OperationUpdater {
    var done: bool
    var response: Option<Record>

    constructor ()
      ensures done && response == None
    {
      done, response := true, None;
    }

    method SetUpdatedResponse(sub: Record)
      modifies this
      ensures response == Some(sub) && done == old(done)
    {
      response := Some(sub);
    }

    method Update(stored: Option<Value>) returns (r: Result<Operation>)
      ensures r == if !IsOp(stored) then Err("unmarshalling operation")
                   else if stored.value.op.done then Err("operation already marked as done")
                   else Ok(stored.value.op.(done := done, response := response))
    {
      if !IsOp(stored) {
        return Err("unmarshalling operation");
      }
      if stored.value.op.done {
        return Err("operation already marked as done");
      }
      r := Ok(stored.value.op.(done := done, response := response));
    }
  }

  /** The record that a cancel changes beside the operation. */
  function CancelTarget(opID: string): Option<Key> {
    if HasPrefix(opID, PARENT) then Some(SubKey(StatusObjectID(opID)))
    else if HasPrefix(opID, RESPONSES) then Some(AppKey(StatusObjectID(opID)))
    else None
  }

  class Records {
    var data: Store

    constructor ()
      ensures data == map[]
    {
      data := map[];
    }

    method UpdateValueAndOperation(recordKey: Key, verdict: Verdict, opKey: Key, updater: OperationUpdater) returns (r: Result<(Record, Operation)>)
      requires updater.done
      modifies this, updater
      ensures data == After([UpdateScript(recordKey, opKey, verdict)], old(data))
      ensures match Alone([UpdateScript(recordKey, opKey, verdict)], old(data))
              case Committing(outs, _) => r.Ok? && outs == [Updated(r.value.0, r.value.1)]
              case Aborting(err) => r == Err(err) && data == old(data)
    {
      UpdateDecides(data, recordKey, opKey, verdict);
      var tx := new Tx<Key, Value>();
      var stored := Get(data, recordKey);
      if !IsRecord(stored) {
        return Err("unmarshalling json");
      }
      var sub := stored.value.record.(status := verdict.status, reason := verdict.reason);
      tx.Write(recordKey, RecordV(sub));
      updater.SetUpdatedResponse(sub);
      var op := updater.Update(Get(data, opKey));
      if op.Err? {
        return Err(op.err);
      }
      tx.Write(opKey, OpV(op.value));
      assert tx.queue == [(recordKey, RecordV(sub)), (opKey, OpV(op.value))];
      data := Apply(data, tx.queue);
      r := Ok((sub, op.value));
    }

    method UpdateSubmission(id: string, approved: bool, reason: string, opID: string) returns (r: Result<(Record, Operation)>)
      modifies this
      ensures data == After([UpdateScript(SubKey(id), OpKeyOf(opID), ReviewVerdict(approved, reason))], old(data))
      ensures r.Ok? <==> IsRecord(Get(old(data), SubKey(id))) && IsOp(Get(old(data), OpKeyOf(opID))) && !old(data)[OpKeyOf(opID)].op.done
      ensures r.Ok? ==> data == old(data)[SubKey(id) := RecordV(r.value.0)][OpKeyOf(opID) := OpV(r.value.1)]
      ensures r.Ok? ==> r.value.0.status == (if approved then APPROVED else DENIED) && r.value.0.reason == reason && r.value.1.done && r.value.1.response == Some(r.value.0)
      ensures r.Err? ==> data == old(data)
    {
      UpdateDecides(data, SubKey(id), OpKeyOf(opID), ReviewVerdict(approved, reason));
      var status := DENIED;
      if approved {
        status := APPROVED;
      }
      var updater := new OperationUpdater();
      r := UpdateValueAndOperation(SubKey(id), Verdict(status, reason), OpKeyOf(opID), updater);
      if r.Ok? {
        var a, b := (SubKey(id), RecordV(r.value.0)), (OpKeyOf(opID), OpV(r.value.1));
        ApplyFew(old(data), a, b, b, b);
      }
    }

    /** A review has the effect of the reviewing client's job. */
    method ReviewSubmission(id: string, approved: bool, reason: string) returns (r: Result<Record>)
      modifies this
      ensures data == After(JobOf(Review(id, approved, reason)).body, old(data))
      ensures r.Ok? <==> IsRecord(Get(old(data), SubKey(id))) && IsOp(Get(old(data), OpKeyFor(id))) && !Closed(old(data), id)
      ensures r.Ok? ==> IsRecord(Get(data, SubKey(id))) && r.value == data[SubKey(id)].record && Closed(data, id)
    {
      var updated := UpdateSubmission(id, approved, reason, IDFromSubmissionID(id));
      if updated.Err? {
        return Err(updated.err);
      }
      r := Ok(updated.value.0);
    }

    /** So has a cancel, of a submission's operation or of an application's. */
    method CancelOperation(opID: string) returns (r: Result<Operation>)
      modifies this
      ensures data == After(JobOf(Cancel(opID)).body, old(data))
      ensures r.Ok? <==>
        && CancelTarget(opID).Some? && IsRecord(Get(old(data), CancelTarget(opID).value))
        && IsOp(Get(old(data), OpKeyOf(opID))) && !old(data)[OpKeyOf(opID)].op.done
      ensures r.Ok? ==> Get(data, OpKeyOf(opID)) == Some(OpV(r.value)) && r.value.done
      ensures r.Err? ==> data == old(data)
    {
      var updater := new OperationUpdater();
      var updated: Result<(Record, Operation)>;
      ghost var key, verdict;
      if HasPrefix(opID, PARENT) {
        key, verdict := SubKey(StatusObjectID(opID)), CANCELLATION;
        updated := UpdateValueAndOperation(SubKey(StatusObjectID(opID)), CANCELLATION, OpKeyOf(opID), updater);
      } else if HasPrefix(opID, RESPONSES) {
        key, verdict := AppKey(StatusObjectID(opID)), APPLICATION_CANCELLATION;
        updated := UpdateValueAndOperation(AppKey(StatusObjectID(opID)), APPLICATION_CANCELLATION, OpKeyOf(opID), updater);
      } else {
        OneTurn(JobOf(Cancel(opID)).body[0], [], data);
        return Err("unrecognized id structure");
      }
      UpdateDecides(old(data), key, OpKeyOf(opID), verdict);
      if updated.Err? {
        return Err(updated.err);
      }
      ghost var a, b := (key, RecordV(updated.value.0)), (OpKeyOf(opID), OpV(updated.value.1));
      ApplyFew(old(data), a, b, b, b);
      r := Ok(updated.value.1);
    }

    method Update(key: Key, verdict: Verdict) returns (r: Result<Record>)
      modifies this
      ensures data == After([ChangeScript(key, verdict)], old(data))
      ensures r.Ok? <==> IsRecord(Get(old(data), key))
      ensures r.Ok? ==> r.value == Judged(old(data)[key].record, verdict) && data == old(data)[key := RecordV(r.value)]
      ensures r.Err? ==> data == old(data)
    {
      ChangeDecides(data, key, verdict);
      var stored := Get(data, key);
      if !IsRecord(stored) {
        return Err("unmarshalling json");
      }
      var record := Judged(stored.value.record, verdict);
      ApplyFew(data, (key, RecordV(record)), (key, RecordV(record)), (key, RecordV(record)), (key, RecordV(record)));
      data := data[key := RecordV(record)];
      r := Ok(record);
    }

    method StoreResponse(rid: string, content: nat) returns (r: Result<()>)
      modifies this
      ensures r.Ok? <==> rid != ""
      ensures data == if r.Ok? then old(data)[ResponseKey(rid) := RecordV(Record(0, "", content))] else old(data)
    {
      if rid == "" {
        return Err("could not store response without an ID");
      }
      data := data[ResponseKey(rid) := RecordV(Record(0, "", content))];
      r := Ok(());
    }

    /** The review of an application is three accesses, and only the last looks at the operation. A
        review that fails there has changed the application and stored its response. */
    method StoreReviewApplication(id: string, approved: bool, reason: string, opID: string, rid: string, content: nat) returns (r: Result<(Record, Operation)>)
      modifies this
      ensures r.Ok? <==>
        IsRecord(Get(old(data), AppKey(id))) && rid != "" && IsOp(Get(old(data), OpKeyOf(opID))) && !old(data)[OpKeyOf(opID)].op.done
      ensures
        var verdict := ReviewVerdict(approved, reason);
        if !IsRecord(Get(old(data), AppKey(id))) then data == old(data)
        else
          var judged := old(data)[AppKey(id) := RecordV(Judged(old(data)[AppKey(id)].record, verdict))];
          if rid == "" then data == judged
          else if r.Err? then data == judged[ResponseKey(rid) := RecordV(Record(0, "", content))]
          else
            && r.value == (Record(verdict.status, reason, content), old(data)[OpKeyOf(opID)].op.(done := true, response := Some(r.value.0)))
            && data == judged[ResponseKey(rid) := RecordV(r.value.0)][OpKeyOf(opID) := OpV(r.value.1)]
    {
      var verdict := ReviewVerdict(approved, reason);
      var judged := Update(AppKey(id), verdict);
      if judged.Err? {
        return Err(judged.err);
      }
      var stored := StoreResponse(rid, content);
      if stored.Err? {
        return Err(stored.err);
      }
      ghost var before := data;
      UpdateDecides(before, ResponseKey(rid), OpKeyOf(opID), verdict);
      var updater := new OperationUpdater();
      r := UpdateValueAndOperation(ResponseKey(rid), verdict, OpKeyOf(opID), updater);
      if r.Ok? {
        ghost var a, b := (ResponseKey(rid), RecordV(r.value.0)), (OpKeyOf(opID), OpV(r.value.1));
        ApplyFew(before, a, b, b, b);
      }
    }

    method GetSubmission(id: string) returns (r: Result<Record>, notFound: bool)
      ensures notFound <==> SubKey(id) !in data
      ensures r.Ok? <==> IsRecord(Get(data, SubKey(id)))
      ensures r.Ok? ==> r.value == data[SubKey(id)].record
    {
      notFound := SubKey(id) !in data;
      if notFound {
        return Err("submission not found"), true;
      }
      if !data[SubKey(id)].RecordV? {
        return Err("could not unmarshal stored submission definition"), false;
      }
      r := Ok(data[SubKey(id)].record);
    }

    /** Check, then write the submission, then the operation: three accesses, no transaction.
        `verifies` says whether the token, the definition, the credentials and the presentation stand
        up to the checks before the first write. */
    method CreateSubmission(id: string, vp: nat, verifies: bool) returns (r: Result<Operation>)
      modifies this
      ensures r.Ok? <==> SubKey(id) !in old(data) && verifies && id != ""
      ensures r.Ok? ==>
        && r.value == Operation(IDFromSubmissionID(id), false, None)
        && data == old(data)[SubKey(id) := RecordV(Record(PENDING, "", vp))][OpKeyFor(id) := OpV(r.value)]
      ensures r.Err? ==> data == old(data)
    {
      var got, notFound := GetSubmission(id);
      if !notFound {
        return Err("submission already present");
      }
      if !verifies {
        return Err("verifying presentation submission vp");
      }
      if id == "" {
        return Err("could not store submission definition without an ID");
      }
      data := data[SubKey(id) := RecordV(Record(PENDING, "", vp))];
      var op := Operation(IDFromSubmissionID(id), false, None);
      data := data[OpKeyOf(op.id) := OpV(op)];
      r := Ok(op);
    }
  }
}
