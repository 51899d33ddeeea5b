/** Where the lifecycle breaks once its assumptions are dropped. */
module LifecycleLimits {
  import opened Wrappers
  import opened Kernel
  import opened Serial
  import opened KeyOrder
  import opened OperationIds
  import opened Lifecycle

  /** Cancelling an open operation keeps it in step with the submission it was created for exactly
      when the submission's id has no slash; otherwise it is some other submission that is
      cancelled. */
  lemma CancelHitsItsSubmission(s: Store, id: string)
    requires Paired(s, id) && !Closed(s, id)
    requires Alone(JobOf(Cancel(IDFromSubmissionID(id))).body, s).Committing?
    ensures
      var s', hit := After(JobOf(Cancel(IDFromSubmissionID(id))).body, s), StatusObjectID(IDFromSubmissionID(id));
      && (Paired(s', id) <==> '/' !in id)
      && SubKey(hit) in s' && s'[SubKey(hit)].RecordV? && s'[SubKey(hit)].record.status == CANCELLED
      && (hit != id ==> Get(s', SubKey(id)) == Get(s, SubKey(id)))
  {
    CancelWrites(s, id);
    NamesMatch(id);
  }

  lemma CancelWrites(s: Store, id: string)
    requires Alone(JobOf(Cancel(IDFromSubmissionID(id))).body, s).Committing?
    ensures
      var s', hit := After(JobOf(Cancel(IDFromSubmissionID(id))).body, s), StatusObjectID(IDFromSubmissionID(id));
      && IsRecord(Get(s, SubKey(hit))) && IsOp(Get(s, OpKeyFor(id)))
      && var sub := s[SubKey(hit)].record.(status := CANCELLED, reason := CANCELLED_REASON);
         s' == s[SubKey(hit) := RecordV(sub)][OpKeyFor(id) := OpV(s[OpKeyFor(id)].op.(done := true, response := Some(sub)))]
  {
    var opID, hit := IDFromSubmissionID(id), StatusObjectID(IDFromSubmissionID(id));
    NamesMatch(id);
    UpdateDecides(s, SubKey(hit), OpKeyOf(opID), CANCELLATION);
    var sub := s[SubKey(hit)].record.(status := CANCELLED, reason := CANCELLED_REASON);
    var op := (OpKeyFor(id), OpV(s[OpKeyFor(id)].op.(done := true, response := Some(sub))));
    ApplyFew(s, (SubKey(hit), RecordV(sub)), op, op, op);
  }

  // ---- Clients one after the other ----

  /** The first clients commit in their order, through the stores. */
  ghost predicate InOrder(clients: seq<Client>, stores: seq<Store>) {
    && 0 < |stores| <= |clients| + 1
    && forall i :: 0 <= i < |stores| - 1 ==> NextIs(clients[i], stores[i], stores[i + 1])
  }

  ghost predicate NextIs(client: Client, s: Store, s': Store) {
    JobOf(client).ready(s) && Alone(JobOf(client).body, s).Committing? && s' == After(JobOf(client).body, s)
  }

  lemma InOrderGrows(clients: seq<Client>, stores: seq<Store>, s: Store)
    requires InOrder(clients, stores) && |stores| <= |clients| && NextIs(clients[|stores| - 1], stores[|stores| - 1], s)
    ensures InOrder(clients, stores + [s])
  {
  }

  lemma InOrderRuns(clients: seq<Client>, stores: seq<Store>) returns (steps: seq<Step>)
    requires InOrder(clients, stores)
    ensures var n, jobs := |stores| - 1, Jobs(clients);
      && Runnable(jobs, stores[0], UpTo(n)) && Replay(jobs, stores[0], UpTo(n)) == stores[n]
      && IsRun(jobs, Start(jobs, stores[0]), steps)
      && End(jobs, Start(jobs, stores[0]), steps).log == UpTo(n) && End(jobs, Start(jobs, stores[0]), steps).store == stores[n]
  {
    var jobs := Jobs(clients);
    forall i | 0 <= i < |stores| - 1
      ensures jobs[i].ready(stores[i]) && Alone(jobs[i].body, stores[i]).Committing? && stores[i + 1] == After(jobs[i].body, stores[i])
    {
      assert NextIs(clients[i], stores[i], stores[i + 1]);
    }
    RunnableInOrder(jobs, stores);
    steps := SerialRuns(jobs, stores[0], UpTo(|stores| - 1));
  }

  // ---- Two creators of one id ----

  function Pending(vp: nat): Record { Record(PENDING, "", vp) }

  function OpenOperation(id: string): Operation { Operation(IDFromSubmissionID(id), false, None) }

  /** What a review makes of a pending submission and its open operation. */
  lemma ReviewStores(s: Store, id: string, vp: nat, approved: bool, reason: string)
    requires SubKey(id) in s && s[SubKey(id)] == RecordV(Pending(vp)) && OpKeyFor(id) in s && s[OpKeyFor(id)] == OpV(OpenOperation(id))
    ensures
      var alone, reviewed := Alone(JobOf(Review(id, approved, reason)).body, s), Judged(Pending(vp), ReviewVerdict(approved, reason));
      && alone.Committing?
      && After(JobOf(Review(id, approved, reason)).body, s) ==
         s[SubKey(id) := RecordV(reviewed)][OpKeyFor(id) := OpV(OpenOperation(id).(done := true, response := Some(reviewed)))]
  {
    UpdateDecides(s, SubKey(id), OpKeyFor(id), ReviewVerdict(approved, reason));
    var reviewed := Judged(Pending(vp), ReviewVerdict(approved, reason));
    var close := (OpKeyFor(id), OpV(OpenOperation(id).(done := true, response := Some(reviewed))));
    ApplyFew(s, (SubKey(id), RecordV(reviewed)), close, close, close);
  }

  /** A creator with its review, and a second creator of the same id. */
  function Rivals(id: string, vp: nat, vp': nat, reason: string): seq<Client> {
    [StoreSubmission(id, vp), StoreOperation(id), Review(id, true, reason), StoreSubmission(id, vp')]
  }

  /** The submission is created and reviewed. */
  lemma CreatedAndReviewed(clients: seq<Client>, id: string, vp: nat, reason: string) returns (s: Store)
    requires id != "" && |clients| >= 3
    requires clients[0] == StoreSubmission(id, vp) && clients[1] == StoreOperation(id) && clients[2] == Review(id, true, reason)
    ensures Runnable(Jobs(clients), map[], UpTo(3)) && s == Replay(Jobs(clients), map[], UpTo(3))
    ensures SubKey(id) in s && s[SubKey(id)] == RecordV(Judged(Pending(vp), ReviewVerdict(true, reason))) && Closed(s, id)
  {
    var s1: Store := map[SubKey(id) := RecordV(Pending(vp))];
    var s2 := s1[OpKeyFor(id) := OpV(OpenOperation(id))];
    PutStores(map[], SubKey(id), RecordV(Pending(vp)));
    PutStores(s1, OpKeyFor(id), OpV(OpenOperation(id)));
    ReviewStores(s2, id, vp, true, reason);
    s := After(JobOf(clients[2]).body, s2);
    var stores := [map[], s1, s2, s];
    var steps := InOrderRuns(clients, stores);
  }

  /** A run in which two creators of one id both look before either writes: all four clients commit,
      and the second creator reopens a submission that has been reviewed, behind a closed operation. */
  lemma TwoCreatorsReopen(id: string, vp: nat, vp': nat, reason: string) returns (steps: seq<Step>)
    requires id != "" && '/' !in id
    ensures IsRun(Jobs(Rivals(id, vp, vp', reason)), Start(Jobs(Rivals(id, vp, vp', reason)), map[]), steps)
    ensures
      var jobs := Jobs(Rivals(id, vp, vp', reason));
      var w := End(jobs, Start(jobs, map[]), steps);
      && w.log == [0, 1, 2, 3]
      && Closed(w.store, id) && IsRecord(Get(w.store, SubKey(id))) && w.store[SubKey(id)].record.status == PENDING && !Paired(w.store, id)
  {
    var clients := Rivals(id, vp, vp', reason);
    var s := CreatedAndReviewed(clients, id, vp, reason);
    PutStores(s, SubKey(id), RecordV(Pending(vp')));
    steps := LateRuns(Jobs(clients), map[], UpTo(3), 3);
    assert UpTo(3) + [3] == [0, 1, 2, 3];
  }

  /** A stored submission, and two that store its operation around a review. */
  function OperationRivals(id: string, reason: string): seq<Client> {
    [StoreOperation(id), Review(id, true, reason), StoreOperation(id)]
  }

  /** And a run in which an operation is stored twice: the second reopens it behind a reviewed
      submission, which can then be decided once more. */
  lemma TwoOperationsReopen(id: string, vp: nat, reason: string) returns (steps: seq<Step>)
    requires id != "" && '/' !in id
    ensures
      var jobs := Jobs(OperationRivals(id, reason));
      IsRun(jobs, Start(jobs, map[SubKey(id) := RecordV(Pending(vp))]), steps)
    ensures
      var jobs := Jobs(OperationRivals(id, reason));
      var w := End(jobs, Start(jobs, map[SubKey(id) := RecordV(Pending(vp))]), steps);
      && w.log == [0, 1, 2]
      && IsOp(Get(w.store, OpKeyFor(id))) && !Closed(w.store, id)
      && Get(w.store, SubKey(id)) == Some(RecordV(Judged(Pending(vp), ReviewVerdict(true, reason)))) && !Paired(w.store, id)
      && Alone(JobOf(Review(id, false, reason)).body, w.store).Committing?
  {
    var clients := OperationRivals(id, reason);
    var stores := StoredAndReviewed(clients, id, vp, reason);
    var first := InOrderRuns(clients, stores);
    PutStores(stores[2], OpKeyFor(id), OpV(OpenOperation(id)));
    UpdateDecides(stores[2][OpKeyFor(id) := OpV(OpenOperation(id))], SubKey(id), OpKeyFor(id), ReviewVerdict(false, reason));
    steps := LateRuns(Jobs(clients), stores[0], UpTo(2), 2);
    assert UpTo(2) + [2] == [0, 1, 2];
  }

  lemma StoredAndReviewed(clients: seq<Client>, id: string, vp: nat, reason: string) returns (stores: seq<Store>)
    requires |clients| >= 2 && clients[0] == StoreOperation(id) && clients[1] == Review(id, true, reason)
    ensures InOrder(clients, stores) && |stores| == 3 && stores[0] == map[SubKey(id) := RecordV(Pending(vp))]
    ensures Get(stores[2], SubKey(id)) == Some(RecordV(Judged(Pending(vp), ReviewVerdict(true, reason))))
  {
    var s: Store := map[SubKey(id) := RecordV(Pending(vp))];
    var s1 := s[OpKeyFor(id) := OpV(OpenOperation(id))];
    PutStores(s, OpKeyFor(id), OpV(OpenOperation(id)));
    ReviewStores(s1, id, vp, true, reason);
    stores := [s, s1, After(JobOf(clients[1]).body, s1)];
  }

  // ---- A cancel and the review of an application ----

  /** An application that is cancelled, and a review that denies it. */
  function CancelledReview(id: string, content: nat, rid: string, response: nat, reason: string): seq<Client> {
    [StoreApplication(id, content), StoreApplicationOperation(id), Cancel(IDFromResponseID(id)),
     JudgeApplication(id, false, reason), StoreResponse(rid, response), AnswerApplication(id, rid, false, reason)]
  }

  /** A run in which the review comes after the cancel: its caller is refused, and yet the application
      carries the denial, and a response is stored, while the operation's response says cancelled. */
  lemma RefusedReviewOverwrites(id: string, content: nat, rid: string, response: nat, reason: string) returns (steps: seq<Step>)
    requires id != "" && '/' !in id && rid != ""
    ensures
      var jobs := Jobs(CancelledReview(id, content, rid, response, reason));
      IsRun(jobs, Start(jobs, map[]), steps)
    ensures
      var jobs := Jobs(CancelledReview(id, content, rid, response, reason));
      var w := End(jobs, Start(jobs, map[]), steps);
      && w.log == [0, 1, 2, 3, 4]
      && Alone(jobs[5].body, w.store) == Aborting("operation already marked as done")
      && RecordSays(w.store, AppKey(id), Verdict(REJECTED, reason))
      && OpSays(w.store, ResponseOpKey(id), Some(APPLICATION_CANCELLATION))
      && Get(w.store, ResponseKey(rid)) == Some(RecordV(Record(0, "", response)))
  {
    var clients := CancelledReview(id, content, rid, response, reason);
    var stores := ReviewInOrder(clients, id, content, rid, response, reason);
    steps := InOrderRuns(clients, stores);
    assert UpTo(5) == [0, 1, 2, 3, 4];
  }

  lemma ReviewInOrder(clients: seq<Client>, id: string, content: nat, rid: string, response: nat, reason: string) returns (stores: seq<Store>)
    requires id != "" && '/' !in id && rid != "" && clients == CancelledReview(id, content, rid, response, reason)
    ensures InOrder(clients, stores) && |stores| == 6 && stores[0] == map[]
    ensures Alone(JobOf(clients[5]).body, stores[5]) == Aborting("operation already marked as done")
    ensures RecordSays(stores[5], AppKey(id), Verdict(REJECTED, reason)) && OpSays(stores[5], ResponseOpKey(id), Some(APPLICATION_CANCELLATION))
    ensures Get(stores[5], ResponseKey(rid)) == Some(RecordV(Record(0, "", response)))
  {
    stores := AppliedAndCancelled(clients, id, content);
    var s := After(JobOf(clients[3]).body, stores[3]);
    JudgeCommits(stores[3], id, reason);
    ResponseStored(s, id, rid, response, reason);
    InOrderGrows(clients, stores, s);
    InOrderGrows(clients, stores + [s], After(JobOf(clients[4]).body, s));
    stores := stores + [s] + [After(JobOf(clients[4]).body, s)];
  }

  lemma JudgeCommits(s: Store, id: string, reason: string)
    requires RecordSays(s, AppKey(id), APPLICATION_CANCELLATION) && OpSays(s, ResponseOpKey(id), Some(APPLICATION_CANCELLATION))
    ensures var judge := JobOf(JudgeApplication(id, false, reason));
      && Alone(judge.body, s).Committing?
      && RecordSays(After(judge.body, s), AppKey(id), Verdict(REJECTED, reason))
      && OpSays(After(judge.body, s), ResponseOpKey(id), Some(APPLICATION_CANCELLATION))
  {
    ChangeDecides(s, AppKey(id), ReviewVerdict(false, reason));
    var w := (AppKey(id), RecordV(Judged(s[AppKey(id)].record, ReviewVerdict(false, reason))));
    ApplyFew(s, w, w, w, w);
  }

  lemma ResponseStored(s: Store, id: string, rid: string, response: nat, reason: string)
    requires rid != "" && RecordSays(s, AppKey(id), Verdict(REJECTED, reason)) && OpSays(s, ResponseOpKey(id), Some(APPLICATION_CANCELLATION))
    ensures
      var store, answer := JobOf(StoreResponse(rid, response)), JobOf(AnswerApplication(id, rid, false, reason));
      var s' := After(store.body, s);
      && Alone(store.body, s).Committing?
      && Alone(answer.body, s') == Aborting("operation already marked as done")
      && RecordSays(s', AppKey(id), Verdict(REJECTED, reason)) && OpSays(s', ResponseOpKey(id), Some(APPLICATION_CANCELLATION))
      && Get(s', ResponseKey(rid)) == Some(RecordV(Record(0, "", response)))
  {
    PutStores(s, ResponseKey(rid), RecordV(Record(0, "", response)));
    UpdateDecides(s[ResponseKey(rid) := RecordV(Record(0, "", response))], ResponseKey(rid), ResponseOpKey(id), ReviewVerdict(false, reason));
  }

  lemma AppliedAndCancelled(clients: seq<Client>, id: string, content: nat) returns (stores: seq<Store>)
    requires id != "" && '/' !in id && |clients| >= 3
    requires clients[0] == StoreApplication(id, content) && clients[1] == StoreApplicationOperation(id) && clients[2] == Cancel(IDFromResponseID(id))
    ensures InOrder(clients, stores) && |stores| == 4 && stores[0] == map[]
    ensures RecordSays(stores[3], AppKey(id), APPLICATION_CANCELLATION) && OpSays(stores[3], ResponseOpKey(id), Some(APPLICATION_CANCELLATION))
  {
    var open := OpV(Operation(IDFromResponseID(id), false, None));
    var s1: Store := map[AppKey(id) := RecordV(Pending(content))];
    var s2 := s1[ResponseOpKey(id) := open];
    ResponseNames(id);
    PutStores(map[], AppKey(id), RecordV(Pending(content)));
    PutStores(s1, ResponseOpKey(id), open);
    UpdateDecides(s2, AppKey(id), ResponseOpKey(id), APPLICATION_CANCELLATION);
    CommitHasEffect(s2, clients[2]);
    stores := [map[], s1, s2, After(JobOf(clients[2]).body, s2)];
  }

  lemma ResponseNames(id: string)
    requires '/' !in id
    ensures StatusObjectID(IDFromResponseID(id)) == id && !HasPrefix(IDFromResponseID(id), PARENT) && HasPrefix(IDFromResponseID(id), RESPONSES)
  {
    ResponseNamesMatch(id);
  }
}
