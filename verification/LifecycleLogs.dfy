/** Any clients whatsoever, of submissions and of applications: what the records say in the end is
    what the last to commit wrote there. */
module LifecycleLogs {
  import opened Wrappers
  import opened Kernel
  import opened Serialisability
  import opened KeyOrder
  import opened OperationIds
  import opened Lifecycle

  // ---- Sequences of effects ----

  /** Stores that lead from one to the next by the given effects. */
  ghost predicate Trace(effects: seq<Effect>, stores: seq<Store>) {
    |stores| == |effects| + 1 && forall i :: 0 <= i < |effects| ==> HasEffect(stores[i], stores[i + 1], effects[i])
  }

  /** The last effect on k. */
  function LastOn(effects: seq<Effect>, k: Key): Option<nat>
    decreases |effects|
  {
    if effects == [] then None
    else if effects[|effects| - 1].Writes(k) then Some(|effects| - 1)
    else LastOn(effects[..|effects| - 1], k)
  }

  lemma {:induction false} LastOnIsLast(effects: seq<Effect>, k: Key)
    ensures
      match LastOn(effects, k)
      case None => forall i :: 0 <= i < |effects| ==> !effects[i].Writes(k)
      case Some(m) => m < |effects| && effects[m].Writes(k) && forall i :: m < i < |effects| ==> !effects[i].Writes(k)
    decreases |effects|
  {
    if effects != [] && !effects[|effects| - 1].Writes(k) { LastOnIsLast(effects[..|effects| - 1], k); }
  }

  lemma {:induction false} UnwrittenStays(effects: seq<Effect>, stores: seq<Store>, k: Key, i: nat, j: nat)
    requires Trace(effects, stores) && i <= j <= |effects| && forall n :: i <= n < j ==> !effects[n].Writes(k)
    ensures Get(stores[j], k) == Get(stores[i], k)
    decreases j - i
  {
    if i < j {
      UnwrittenStays(effects, stores, k, i, j - 1);
      assert HasEffect(stores[j - 1], stores[j], effects[j - 1]);
    }
  }

  /** A key holds what the last effect put there, and without one what it held at the start. */
  ghost predicate Holds(s0: Store, s: Store, k: Key, effects: seq<Effect>) {
    match LastOn(effects, k)
    case None => Get(s, k) == Get(s0, k)
    case Some(m) =>
      && m < |effects|
      && if k.OpKey? then effects[m].op.Some? && effects[m].op.value.0 == k && OpSays(s, k, effects[m].op.value.1)
         else effects[m].record.Some? && effects[m].record.value.0 == k && RecordSays(s, k, effects[m].record.value.1)
  }

  lemma TraceHolds(effects: seq<Effect>, stores: seq<Store>, k: Key)
    requires Trace(effects, stores)
    ensures Holds(stores[0], stores[|effects|], k, effects)
  {
    LastOnIsLast(effects, k);
    match LastOn(effects, k)
    case None => UnwrittenStays(effects, stores, k, 0, |effects|);
    case Some(m) =>
      assert HasEffect(stores[m], stores[m + 1], effects[m]);
      UnwrittenStays(effects, stores, k, m + 1, |effects|);
  }

  predicate RecordOpen(s: Store, k: Key) { IsRecord(Get(s, k)) && s[k].record.status == PENDING }

  predicate OpOpen(s: Store, k: Key) { IsOp(Get(s, k)) && !s[k].op.done }

  predicate Closes(e: Effect, k: Key) { e.closesOpen && e.op.Some? && e.op.value.0 == k && e.op.value.1.Some? }

  predicate Opens(e: Effect, k: Key) { e.op == Some((k, None)) }

  /** Between two effects that close an operation which they find open there is one that opens it. */
  lemma ReopenedBetween(effects: seq<Effect>, stores: seq<Store>, k: Key, i: nat, j: nat) returns (m: nat)
    requires Trace(effects, stores) && k.OpKey? && i < j < |effects| && Closes(effects[i], k) && Closes(effects[j], k)
    ensures i < m < j && Opens(effects[m], k)
  {
    assert HasEffect(stores[j], stores[j + 1], effects[j]);
    LastOnIsLast(effects[..j], k);
    m := LastOn(effects[..j], k).value;
    assert !(m < i) by { assert effects[..j][i].Writes(k); }
    assert HasEffect(stores[m], stores[m + 1], effects[m]);
    UnwrittenStays(effects, stores, k, m + 1, j);
  }

  // ---- Runs of any clients ----

  /** The clients' jobs with nothing asked of the store before they start. */
  function FreeJobs(clients: seq<Client>): seq<LifecycleJob> {
    seq(|clients|, c requires 0 <= c < |clients| => JobOf(clients[c]).(ready := _ => true))
  }

  ghost predicate RunsTo(clients: seq<Client>, s0: Store, steps: seq<Step>, w: World<Key, Value, Option<Value>, Output>) {
    IsRun(FreeJobs(clients), Start(FreeJobs(clients), s0), steps) && w == End(FreeJobs(clients), Start(FreeJobs(clients), s0), steps)
  }

  predicate InRange(clients: seq<Client>, log: seq<nat>) { forall i :: 0 <= i < |log| ==> log[i] < |clients| }

  /** The effects of the committed clients, in EXEC order. */
  function Effects(clients: seq<Client>, log: seq<nat>): (effects: seq<Effect>)
    requires InRange(clients, log)
    ensures |effects| == |log|
  {
    seq(|log|, i requires 0 <= i < |log| => EffectOf(clients[log[i]]))
  }

  lemma {:induction false} HistoryTraces(clients: seq<Client>, s0: Store, log: seq<nat>, phases: seq<Phase<Key, Value, Option<Value>, Output>>) returns (stores: seq<Store>)
    requires |phases| == |clients| && InRange(clients, log)
    requires SerialHistory(FreeJobs(clients), Anything(), s0, log, phases)
    ensures Trace(Effects(clients, log), stores) && stores[0] == s0 && stores[|log|] == Replay(FreeJobs(clients), s0, log)
    decreases |log|
  {
    if log == [] {
      stores := [s0];
    } else {
      var before, c := log[..|log| - 1], log[|log| - 1];
      var first := HistoryTraces(clients, s0, before, phases);
      var s := Replay(FreeJobs(clients), s0, before);
      assert FreeJobs(clients)[c].body == JobOf(clients[c]).body;
      CommitHasEffect(s, clients[c]);
      stores := first + [After(JobOf(clients[c]).body, s)];
      TraceGrows(Effects(clients, before), first, EffectOf(clients[c]), After(JobOf(clients[c]).body, s));
      assert Effects(clients, log) == Effects(clients, before) + [EffectOf(clients[c])];
    }
  }

  lemma TraceGrows(effects: seq<Effect>, stores: seq<Store>, e: Effect, s: Store)
    requires Trace(effects, stores) && HasEffect(stores[|effects|], s, e)
    ensures Trace(effects + [e], stores + [s])
  {
  }

  lemma RunTraces(clients: seq<Client>, s0: Store, steps: seq<Step>, w: World<Key, Value, Option<Value>, Output>) returns (stores: seq<Store>)
    requires RunsTo(clients, s0, steps, w)
    ensures InRange(clients, w.log) && Trace(Effects(clients, w.log), stores) && stores[0] == s0 && stores[|w.log|] == w.store
  {
    var jobs := FreeJobs(clients);
    forall c | 0 <= c < |jobs| ensures ReadsWatched(jobs[c].body, jobs[c].watch) { AllReadsWatched(clients[c]); }
    WatchedReadsSerialise(jobs, s0, steps);
    stores := HistoryTraces(clients, s0, w.log, w.phases);
  }

  lemma AllReadsWatched(client: Client)
    ensures ReadsWatched(JobOf(client).body, JobOf(client).watch)
  {
    var job := JobOf(client);
    forall i, replies, s, s', touched | 0 <= i < |job.body| && job.body[i].act(replies).Ask? && Frame(s, s', touched) && touched !! job.watch
      ensures job.body[i].act(replies).query(s) == job.body[i].act(replies).query(s')
    {
      assert forall k :: k in job.watch ==> k !in touched;
    }
  }

  // ---- Main results ----

  /** In every run of any clients each record carries the verdict, and each operation the state, that
      the last committed client to write it put there. */
  lemma LastWriterDecides(clients: seq<Client>, s0: Store, steps: seq<Step>, w: World<Key, Value, Option<Value>, Output>, k: Key)
    requires RunsTo(clients, s0, steps, w)
    ensures InRange(clients, w.log) && Holds(s0, w.store, k, Effects(clients, w.log))
  {
    var stores := RunTraces(clients, s0, steps, w);
    TraceHolds(Effects(clients, w.log), stores, k);
  }

  /** Two decisions of one operation both commit only if the operation was stored anew in between. */
  lemma DecidedTwiceOnlyIfReopened(clients: seq<Client>, s0: Store, steps: seq<Step>, w: World<Key, Value, Option<Value>, Output>, k: Key, i: nat, j: nat)
    requires RunsTo(clients, s0, steps, w) && k.OpKey? && InRange(clients, w.log) && i < j < |w.log|
    requires Closes(EffectOf(clients[w.log[i]]), k) && Closes(EffectOf(clients[w.log[j]]), k)
    ensures exists m :: i < m < j && Opens(EffectOf(clients[w.log[m]]), k)
  {
    var stores := RunTraces(clients, s0, steps, w);
    var m := ReopenedBetween(Effects(clients, w.log), stores, k, i, j);
  }

  /** Exactly when a submission and its operation are in step, whoever the clients are: the last to
      write the submission was its creator if and only if the last to write the operation was its
      creator; what nobody has written counts as it was. */
  lemma PairFollowsLog(clients: seq<Client>, s0: Store, steps: seq<Step>, w: World<Key, Value, Option<Value>, Output>, id: string)
    requires RunsTo(clients, s0, steps, w) && IsRecord(Get(w.store, SubKey(id))) && IsOp(Get(w.store, OpKeyFor(id)))
    ensures InRange(clients, w.log)
    ensures
      var effects := Effects(clients, w.log);
      var sub, op := LastOn(effects, SubKey(id)), LastOn(effects, OpKeyFor(id));
      && (sub.Some? ==> sub.value < |w.log|) && (op.Some? ==> op.value < |w.log|)
      && (Paired(w.store, id) <==>
            ((if sub.Some? then clients[w.log[sub.value]].StoreSubmission? else RecordOpen(s0, SubKey(id))) <==>
             (if op.Some? then clients[w.log[op.value]].StoreOperation? else OpOpen(s0, OpKeyFor(id)))))
  {
    LastWriterDecides(clients, s0, steps, w, SubKey(id));
    LastWriterDecides(clients, s0, steps, w, OpKeyFor(id));
    PairedExactly(w.store, id);
    var effects := Effects(clients, w.log);
    var sub, op := LastOn(effects, SubKey(id)), LastOn(effects, OpKeyFor(id));
    if sub.Some? { VerdictOnSubmission(clients[w.log[sub.value]], id); }
    if op.Some? { WritersOfOperation(clients[w.log[op.value]], id); }
  }

  lemma PairedExactly(s: Store, id: string)
    requires IsRecord(Get(s, SubKey(id))) && IsOp(Get(s, OpKeyFor(id)))
    ensures Paired(s, id) <==> (RecordOpen(s, SubKey(id)) <==> OpOpen(s, OpKeyFor(id)))
  {
  }

  lemma VerdictOnSubmission(client: Client, id: string)
    requires RecordEffect(client).Some? && RecordEffect(client).value.0 == SubKey(id)
    ensures var verdict := RecordEffect(client).value.1;
      && PENDING == 1
      && (client.StoreSubmission? <==> verdict.status == 1)
      && (client.Cancel? <==> verdict.status == 2)
      && (client.Review? && !client.approved <==> verdict.status == 3)
      && (client.Review? && client.approved <==> verdict.status == 4)
      && (client.Review? ==> verdict.reason == client.reason) && (client.Cancel? ==> verdict.reason == "operation cancelled")
  {
  }

  lemma WritersOfOperation(client: Client, id: string)
    requires OpEffect(client).Some? && OpEffect(client).value.0 == OpKeyFor(id)
    ensures client.StoreOperation? <==> OpEffect(client).value.1.None?
  {
    NamesMatch(id);
    if client.StoreApplicationOperation? { ResponseNamesMatch(client.id); }
  }

  /** What a submission's status says of the last to write it: the stored numbers tell creation (1),
      cancel (2), denial (3) and approval (4) apart, and the reason is the review's or the cancel's. */
  lemma StatusTells(clients: seq<Client>, s0: Store, steps: seq<Step>, w: World<Key, Value, Option<Value>, Output>, id: string, sub: nat)
    requires RunsTo(clients, s0, steps, w) && InRange(clients, w.log) && LastOn(Effects(clients, w.log), SubKey(id)) == Some(sub)
    ensures sub < |w.log| && IsRecord(Get(w.store, SubKey(id)))
    ensures
      var record, last := w.store[SubKey(id)].record, clients[w.log[sub]];
      && (record.status == 1 <==> last.StoreSubmission?)
      && (record.status == 2 <==> last.Cancel?)
      && (record.status == 3 <==> last.Review? && !last.approved)
      && (record.status == 4 <==> last.Review? && last.approved)
      && (last.Review? ==> record.reason == last.reason) && (last.Cancel? ==> record.reason == "operation cancelled")
  {
    LastWriterDecides(clients, s0, steps, w, SubKey(id));
    VerdictOnSubmission(clients[w.log[sub]], id);
  }

  // ---- Applications ----

  /** The operation's response carries the application's status and reason. */
  predicate Answers(s: Store, id: string) {
    && IsRecord(Get(s, AppKey(id))) && IsOp(Get(s, ResponseOpKey(id)))
    && s[ResponseOpKey(id)].op.response.Some?
    && VerdictIn(s[ResponseOpKey(id)].op.response.value) == VerdictIn(s[AppKey(id)].record)
  }

  /** The response of an application's closed operation says what the application says exactly when
      the last to write the one and the last to write the other had the same verdict. The review
      judges the application without looking at the operation, so the two need not be one decision. */
  lemma ApplicationFollowsLog(clients: seq<Client>, s0: Store, steps: seq<Step>, w: World<Key, Value, Option<Value>, Output>, id: string, app: nat, op: nat)
    requires RunsTo(clients, s0, steps, w) && InRange(clients, w.log)
    requires LastOn(Effects(clients, w.log), AppKey(id)) == Some(app) && LastOn(Effects(clients, w.log), ResponseOpKey(id)) == Some(op)
    ensures app < |w.log| && op < |w.log| && IsRecord(Get(w.store, AppKey(id))) && IsOp(Get(w.store, ResponseOpKey(id)))
    ensures w.store[ResponseOpKey(id)].op.done <==> !clients[w.log[op]].StoreApplicationOperation?
    ensures RecordEffect(clients[w.log[app]]).Some? && OpEffect(clients[w.log[op]]).Some?
    ensures w.store[ResponseOpKey(id)].op.done ==>
      (Answers(w.store, id) <==> OpEffect(clients[w.log[op]]).value.1 == Some(RecordEffect(clients[w.log[app]]).value.1))
  {
    LastWriterDecides(clients, s0, steps, w, AppKey(id));
    LastWriterDecides(clients, s0, steps, w, ResponseOpKey(id));
    WritersOfResponse(clients[w.log[op]], id);
    AnswersExactly(w.store, id, Effects(clients, w.log)[app].record.value.1, Effects(clients, w.log)[op].op.value.1);
  }

  lemma WritersOfResponse(client: Client, id: string)
    requires OpEffect(client).Some? && OpEffect(client).value.0 == ResponseOpKey(id)
    ensures client.StoreApplicationOperation? <==> OpEffect(client).value.1.None?
  {
    ResponseNamesMatch(id);
    if client.StoreOperation? { NamesMatch(client.id); }
  }

  lemma AnswersExactly(s: Store, id: string, verdict: Verdict, closed: Option<Verdict>)
    requires RecordSays(s, AppKey(id), verdict) && OpSays(s, ResponseOpKey(id), closed)
    ensures s[ResponseOpKey(id)].op.done <==> closed.Some?
    ensures closed.Some? ==> (Answers(s, id) <==> closed == Some(verdict))
  {
  }

  /** No client ever marks an application as fulfilled (2): the review writes the status of a submission,
      and read as an application's it makes an approved one look cancelled (4). A denied one is rejected
      (3) in both. */
  lemma ApprovedReadsAsCancelled(clients: seq<Client>, s0: Store, steps: seq<Step>, w: World<Key, Value, Option<Value>, Output>, id: string, app: nat)
    requires RunsTo(clients, s0, steps, w) && InRange(clients, w.log) && LastOn(Effects(clients, w.log), AppKey(id)) == Some(app)
    ensures app < |w.log| && IsRecord(Get(w.store, AppKey(id))) && w.store[AppKey(id)].record.status != 2
    ensures
      var record, last := w.store[AppKey(id)].record, clients[w.log[app]];
      && (record.status == 1 <==> last.StoreApplication?)
      && (record.status == 4 <==> last.Cancel? || (last.JudgeApplication? && last.approved))
      && (record.status == 3 <==> last.JudgeApplication? && !last.approved)
      && (last.JudgeApplication? ==> record.reason == last.reason) && (last.Cancel? ==> record.reason == "operation cancelled")
  {
    LastWriterDecides(clients, s0, steps, w, AppKey(id));
    VerdictOnApplication(clients[w.log[app]], id);
  }

  lemma VerdictOnApplication(client: Client, id: string)
    requires RecordEffect(client).Some? && RecordEffect(client).value.0 == AppKey(id)
    ensures var verdict := RecordEffect(client).value.1;
      && verdict.status != 2
      && (verdict.status == 1 <==> client.StoreApplication?)
      && (verdict.status == 4 <==> client.Cancel? || (client.JudgeApplication? && client.approved))
      && (verdict.status == 3 <==> client.JudgeApplication? && !client.approved)
      && (client.JudgeApplication? ==> verdict.reason == client.reason) && (client.Cancel? ==> verdict.reason == "operation cancelled")
  {
  }
}
