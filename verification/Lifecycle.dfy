/** A submission and its operation: two records in two namespaces that change together, under any
    number of interleaved creators, reviewers and cancellers, beside the clients of credential
    applications, whose operations share the update and the cancel. */
module Lifecycle {
  import opened Wrappers
  import opened Kernel
  import opened Serialisability
  import opened KeyOrder
  import opened OperationIds

  /** A status as it is stored, the number of a constant; submissions and credential applications
      have constants of their own. */
  type Status = nat

  const PENDING: Status := 1
  // of a submission
  const CANCELLED: Status := 2
  const DENIED: Status := 3
  const APPROVED: Status := 4
  // of an application, where 2 stands for fulfilled
  const REJECTED: Status := 3
  const APPLICATION_CANCELLED: Status := 4

  /** A submission, an application or a credential response: the two fields that updates set, which
      a response gets from an update only, and the rest. */
  datatype Record = Record(status: Status, reason: string, content: nat)

  /** `response` holds the bytes of the record that the operation was closed with. */
  datatype Operation = Operation(id: string, done: bool, response: Option<Record>)

  datatype Key = SubKey(id: string) | AppKey(id: string) | ResponseKey(id: string) | OpKey(namespace: string, opID: string)

  datatype Value = RecordV(record: Record) | OpV(op: Operation)

  datatype Output = Stored | Changed(record: Record) | Updated(record: Record, op: Operation)

  type Store = map<Key, Value>

  const CANCELLED_REASON := "operation cancelled"

  function OpKeyOf(opID: string): Key { OpKey(FromID(opID), opID) }

  /** The operation key that creation and review use for a submission. */
  function OpKeyFor(id: string): Key { OpKeyOf(IDFromSubmissionID(id)) }

  function ResponseOpKey(id: string): Key { OpKeyOf(IDFromResponseID(id)) }

  // ---- UpdateValueAndOperation ----

  datatype Verdict = Verdict(status: Status, reason: string)

  predicate IsRecord(v: Option<Value>) { v.Some? && v.value.RecordV? }

  predicate IsOp(v: Option<Value>) { v.Some? && v.value.OpV? }

  function Get(s: Store, k: Key): Option<Value> { if k in s then Some(s[k]) else None }

  function Judged(record: Record, verdict: Verdict): Record { record.(status := verdict.status, reason := verdict.reason) }

  /** Read the record, change it; read the operation, refuse it when done, else close it with the
      changed record as its response. */
  function UpdateAct(recordKey: Key, opKey: Key, verdict: Verdict, replies: seq<Option<Value>>): Action<Key, Value, Option<Value>, Output> {
    if |replies| == 0 then Ask(s => Get(s, recordKey))
    else if !IsRecord(replies[0]) then Abort("unmarshalling json")
    else if |replies| == 1 then Ask(s => Get(s, opKey))
    else if !IsOp(replies[1]) then Abort("unmarshalling operation")
    else if replies[1].value.op.done then Abort("operation already marked as done")
    else
      var record := Judged(replies[0].value.record, verdict);
      var op := replies[1].value.op.(done := true, response := Some(record));
      Commit(Updated(record, op), [(recordKey, RecordV(record)), (opKey, OpV(op))])
  }

  function UpdateScript(recordKey: Key, opKey: Key, verdict: Verdict): Script<Key, Value, Option<Value>, Output> {
    Script(2, replies => UpdateAct(recordKey, opKey, verdict, replies))
  }

  function PutScript(key: Key, value: Value): Script<Key, Value, Option<Value>, Output> {
    Script(0, _ => Commit(Stored, [(key, value)]))
  }

  /** storage.Update: change one record, whatever its status. */
  function ChangeAct(key: Key, verdict: Verdict, replies: seq<Option<Value>>): Action<Key, Value, Option<Value>, Output> {
    if |replies| == 0 then Ask(s => Get(s, key))
    else if !IsRecord(replies[0]) then Abort("unmarshalling json")
    else
      var record := Judged(replies[0].value.record, verdict);
      Commit(Changed(record), [(key, RecordV(record))])
  }

  function ChangeScript(key: Key, verdict: Verdict): Script<Key, Value, Option<Value>, Output> {
    Script(1, replies => ChangeAct(key, verdict, replies))
  }

  function Refusal(err: string): Script<Key, Value, Option<Value>, Output> { Script(0, _ => Abort(err)) }

  lemma UpdateDecides(s: Store, recordKey: Key, opKey: Key, verdict: Verdict)
    ensures
      var alone := Alone([UpdateScript(recordKey, opKey, verdict)], s);
      if !IsRecord(Get(s, recordKey)) then alone == Aborting("unmarshalling json")
      else if !IsOp(Get(s, opKey)) then alone == Aborting("unmarshalling operation")
      else if s[opKey].op.done then alone == Aborting("operation already marked as done")
      else
        var record := Judged(s[recordKey].record, verdict);
        var op := s[opKey].op.(done := true, response := Some(record));
        alone == Committing([Updated(record, op)], [(recordKey, RecordV(record)), (opKey, OpV(op))])
  {
    var f := UpdateScript(recordKey, opKey, verdict);
    var first, second := Get(s, recordKey), Get(s, opKey);
    assert [] + [first] == [first] && [first] + [second] == [first, second];
    OneTurn(f, [], s);
    OneTurn(f, [first], s);
    OneTurn(f, [first, second], s);
  }

  lemma PutDecides(s: Store, key: Key, value: Value)
    ensures Alone([PutScript(key, value)], s) == Committing([Stored], [(key, value)])
  {
    var b := [PutScript(key, value)];
    assert From(b, 0, [], [], [], s) == From(b, 1, [], [Stored], [(key, value)], s);
  }

  lemma PutStores(s: Store, k: Key, v: Value)
    ensures Alone([PutScript(k, v)], s).Committing? && After([PutScript(k, v)], s) == s[k := v]
  {
    PutDecides(s, k, v);
    ApplyFew(s, (k, v), (k, v), (k, v), (k, v));
  }

  lemma ChangeDecides(s: Store, key: Key, verdict: Verdict)
    ensures Alone([ChangeScript(key, verdict)], s) ==
            if !IsRecord(Get(s, key)) then Aborting("unmarshalling json")
            else Committing([Changed(Judged(s[key].record, verdict))], [(key, RecordV(Judged(s[key].record, verdict)))])
  {
    assert [] + [Get(s, key)] == [Get(s, key)];
    OneTurn(ChangeScript(key, verdict), [], s);
    OneTurn(ChangeScript(key, verdict), [Get(s, key)], s);
  }

  // ---- Clients ----

  /** CreateSubmission is two clients: it stores the submission, then the operation. So does an
      application that is submitted, unless it is denied at once; and the review of an application is
      three clients, which judge it, store the response, and close the operation with the response. */
  datatype Client =
    | StoreSubmission(id: string, vp: nat)
    | StoreOperation(id: string)
    | Review(id: string, approved: bool, reason: string)
    | Cancel(opID: string)
    | StoreApplication(id: string, content: nat)
    | StoreApplicationOperation(id: string)
    | StoreDenial(id: string, content: nat)
    | JudgeApplication(id: string, approved: bool, reason: string)
    | StoreResponse(rid: string, content: nat)
    | AnswerApplication(id: string, rid: string, approved: bool, reason: string)

  /** What a client that only stores writes. */
  function Created(client: Client): (Key, Value)
    requires !ClosesOpen(client) && !client.JudgeApplication?
  {
    match client
    case StoreSubmission(id, vp) => (SubKey(id), RecordV(Record(PENDING, "", vp)))
    case StoreOperation(id) => (OpKeyFor(id), OpV(Operation(IDFromSubmissionID(id), false, None)))
    case StoreApplication(id, content) => (AppKey(id), RecordV(Record(PENDING, "", content)))
    case StoreApplicationOperation(id) => (ResponseOpKey(id), OpV(Operation(IDFromResponseID(id), false, None)))
    case StoreDenial(id, content) => (ResponseOpKey(id), OpV(Operation(IDFromResponseID(id), true, Some(Record(0, "", content)))))
    case StoreResponse(rid, content) => (ResponseKey(rid), RecordV(Record(0, "", content)))
  }

  /** A plain write, of a record that must have an id. */
  function StoreJob(client: Client, ready: Store -> bool): LifecycleJob
    requires !ClosesOpen(client) && !client.JudgeApplication?
  {
    var (k, v) := Created(client);
    if k.OpKey? || k.id != "" then Job([PutScript(k, v)], {}, ready)
    else Job([Refusal("could not store without an ID")], {}, _ => true)
  }

  type LifecycleJob = Job<Key, Value, Option<Value>, Output>

  function ReviewVerdict(approved: bool, reason: string): Verdict { Verdict(if approved then APPROVED else DENIED, reason) }

  const CANCELLATION := Verdict(CANCELLED, CANCELLED_REASON)
  const APPLICATION_CANCELLATION := Verdict(APPLICATION_CANCELLED, CANCELLED_REASON)

  function UpdateJob(recordKey: Key, opKey: Key, verdict: Verdict): LifecycleJob {
    Job([UpdateScript(recordKey, opKey, verdict)], {recordKey, opKey}, _ => true)
  }

  /** A creator has seen that there is no submission under its id, and stores the operation after it
      has stored the submission. Its writes are plain writes, outside any transaction. */
  function JobOf(client: Client): LifecycleJob {
    match client
    case StoreSubmission(id, _) => StoreJob(client, s => SubKey(id) !in s)
    case StoreOperation(id) => StoreJob(client, s => SubKey(id) in s && OpKeyFor(id) !in s)
    case Review(id, approved, reason) => UpdateJob(SubKey(id), OpKeyFor(id), ReviewVerdict(approved, reason))
    case Cancel(opID) =>
      if HasPrefix(opID, PARENT) then UpdateJob(SubKey(StatusObjectID(opID)), OpKeyOf(opID), CANCELLATION)
      else if HasPrefix(opID, RESPONSES) then UpdateJob(AppKey(StatusObjectID(opID)), OpKeyOf(opID), APPLICATION_CANCELLATION)
      else Job([Refusal("unrecognized id structure")], {}, _ => true)
    case JudgeApplication(id, approved, reason) =>
      Job([ChangeScript(AppKey(id), ReviewVerdict(approved, reason))], {AppKey(id)}, _ => true)
    case AnswerApplication(id, rid, approved, reason) => UpdateJob(ResponseKey(rid), ResponseOpKey(id), ReviewVerdict(approved, reason))
    case _ => StoreJob(client, _ => true)
  }

  function Jobs(clients: seq<Client>): seq<LifecycleJob> {
    seq(|clients|, c requires 0 <= c < |clients| => JobOf(clients[c]))
  }

  // ---- What a commit writes ----

  /** The record that a client writes, and the verdict in it afterwards. */
  function RecordEffect(client: Client): Option<(Key, Verdict)> {
    match client
    case StoreSubmission(id, _) => Some((SubKey(id), Verdict(PENDING, "")))
    case Review(id, approved, reason) => Some((SubKey(id), ReviewVerdict(approved, reason)))
    case Cancel(opID) =>
      if HasPrefix(opID, PARENT) then Some((SubKey(StatusObjectID(opID)), CANCELLATION))
      else Some((AppKey(StatusObjectID(opID)), APPLICATION_CANCELLATION))
    case StoreApplication(id, _) => Some((AppKey(id), Verdict(PENDING, "")))
    case JudgeApplication(id, approved, reason) => Some((AppKey(id), ReviewVerdict(approved, reason)))
    case StoreResponse(rid, _) => Some((ResponseKey(rid), Verdict(0, "")))
    case AnswerApplication(_, rid, approved, reason) => Some((ResponseKey(rid), ReviewVerdict(approved, reason)))
    case _ => None
  }

  /** The operation that a client writes, and what it says then: open, or closed with a record that
      carries a verdict. */
  function OpEffect(client: Client): Option<(Key, Option<Verdict>)> {
    match client
    case StoreOperation(id) => Some((OpKeyFor(id), None))
    case Review(id, approved, reason) => Some((OpKeyFor(id), Some(ReviewVerdict(approved, reason))))
    case Cancel(opID) => Some((OpKeyOf(opID), Some(if HasPrefix(opID, PARENT) then CANCELLATION else APPLICATION_CANCELLATION)))
    case StoreApplicationOperation(id) => Some((ResponseOpKey(id), None))
    case StoreDenial(id, _) => Some((ResponseOpKey(id), Some(Verdict(0, ""))))
    case AnswerApplication(id, _, approved, reason) => Some((ResponseOpKey(id), Some(ReviewVerdict(approved, reason))))
    case _ => None
  }

  /** Review, cancel and answer: they close an operation that must be open. */
  predicate ClosesOpen(client: Client) { client.Review? || client.Cancel? || client.AnswerApplication? }

  function VerdictIn(record: Record): Verdict { Verdict(record.status, record.reason) }

  predicate RecordSays(s: Store, k: Key, verdict: Verdict) { IsRecord(Get(s, k)) && VerdictIn(s[k].record) == verdict }

  predicate OpSays(s: Store, k: Key, closed: Option<Verdict>) {
    && IsOp(Get(s, k)) && (s[k].op.done <==> closed.Some?)
    && (closed.Some? ==> s[k].op.response.Some? && VerdictIn(s[k].op.response.value) == closed.value)
  }

  datatype Effect = Effect(record: Option<(Key, Verdict)>, op: Option<(Key, Option<Verdict>)>, closesOpen: bool) {
    predicate Writes(k: Key) { (record.Some? && record.value.0 == k) || (op.Some? && op.value.0 == k) }
  }

  function EffectOf(client: Client): Effect { Effect(RecordEffect(client), OpEffect(client), ClosesOpen(client)) }

  ghost predicate HasEffect(s: Store, s': Store, e: Effect) {
    && (forall k :: !e.Writes(k) ==> Get(s', k) == Get(s, k))
    && (e.record.Some? ==> !e.record.value.0.OpKey? && RecordSays(s', e.record.value.0, e.record.value.1))
    && (e.op.Some? ==> e.op.value.0.OpKey? && OpSays(s', e.op.value.0, e.op.value.1))
    && (e.closesOpen ==>
          && e.record.Some? && e.op.Some? && IsOp(Get(s, e.op.value.0)) && !s[e.op.value.0].op.done
          && s'[e.op.value.0].op.response == Some(s'[e.record.value.0].record))
  }

  /** Every client that commits has these effects and no other, whatever the store. */
  lemma CommitHasEffect(s: Store, client: Client)
    requires Alone(JobOf(client).body, s).Committing?
    ensures HasEffect(s, After(JobOf(client).body, s), EffectOf(client))
  {
    if ClosesOpen(client) {
      UpdateHasEffect(s, client);
    } else if client.JudgeApplication? {
      var k, verdict := AppKey(client.id), ReviewVerdict(client.approved, client.reason);
      ChangeDecides(s, k, verdict);
      var w := (k, RecordV(Judged(s[k].record, verdict)));
      ApplyFew(s, w, w, w, w);
    } else {
      StoreHasEffect(s, client);
    }
  }

  /** What a client needs to commit: a record that is to be stored must have an id; one that is to be
      changed must be there, and an operation that is to be closed must be there and open. */
  predicate Commits(s: Store, client: Client) {
    match client
    case StoreSubmission(id, _) => id != ""
    case StoreApplication(id, _) => id != ""
    case StoreResponse(rid, _) => rid != ""
    case JudgeApplication(id, _, _) => IsRecord(Get(s, AppKey(id)))
    case Review(id, _, _) => IsRecord(Get(s, SubKey(id))) && IsOpen(s, IDFromSubmissionID(id))
    case Cancel(opID) =>
      && (HasPrefix(opID, PARENT) || HasPrefix(opID, RESPONSES)) && IsOpen(s, opID)
      && IsRecord(Get(s, if HasPrefix(opID, PARENT) then SubKey(StatusObjectID(opID)) else AppKey(StatusObjectID(opID))))
    case AnswerApplication(id, rid, _, _) => IsRecord(Get(s, ResponseKey(rid))) && IsOpen(s, IDFromResponseID(id))
    case _ => true
  }

  predicate IsOpen(s: Store, opID: string) { IsOp(Get(s, OpKeyOf(opID))) && !s[OpKeyOf(opID)].op.done }

  lemma CommitDecides(s: Store, client: Client)
    ensures Alone(JobOf(client).body, s).Committing? <==> Commits(s, client)
  {
    if ClosesOpen(client) {
      var record, op, verdict := RecordEffect(client).value.0, OpEffect(client).value.0, RecordEffect(client).value.1;
      UpdateDecides(s, record, op, verdict);
      if JobOf(client).body != [UpdateScript(record, op, verdict)] { OneTurn(JobOf(client).body[0], [], s); }
    } else if client.JudgeApplication? {
      ChangeDecides(s, AppKey(client.id), ReviewVerdict(client.approved, client.reason));
    } else {
      PutDecides(s, Created(client).0, Created(client).1);
      OneTurn(JobOf(client).body[0], [], s);
    }
  }

  lemma StoreHasEffect(s: Store, client: Client)
    requires !ClosesOpen(client) && !client.JudgeApplication? && Alone(JobOf(client).body, s).Committing?
    ensures HasEffect(s, After(JobOf(client).body, s), EffectOf(client))
  {
    var (k, v) := Created(client);
    PutStores(s, k, v);
  }

  /** What a client stores has the client's contents and is named after its key; what it changes keeps
      contents and name. */
  lemma CommitKeepsContents(s: Store, client: Client)
    requires Alone(JobOf(client).body, s).Committing?
    ensures
      var s' := After(JobOf(client).body, s);
      && (client.StoreSubmission? ==> Get(s', SubKey(client.id)) == Some(RecordV(Record(1, "", client.vp))))
      && (client.StoreApplication? ==> Get(s', AppKey(client.id)) == Some(RecordV(Record(1, "", client.content))))
      && (client.StoreResponse? ==> Get(s', ResponseKey(client.rid)) == Some(RecordV(Record(0, "", client.content))))
      && (client.StoreOperation? ==> Get(s', OpKeyFor(client.id)) == Some(OpV(Operation(PARENT + "/" + client.id, false, None))))
      && (client.StoreApplicationOperation? ==> Get(s', ResponseOpKey(client.id)) == Some(OpV(Operation(RESPONSES + "/" + client.id, false, None))))
      && (client.StoreDenial? ==>
            Get(s', ResponseOpKey(client.id)) == Some(OpV(Operation(RESPONSES + "/" + client.id, true, Some(Record(0, "", client.content))))))
    ensures
      var s' := After(JobOf(client).body, s);
      forall k :: k in s ==>
        && k in s'
        && (s[k].RecordV? && (ClosesOpen(client) || client.JudgeApplication?) ==> s'[k].RecordV? && s'[k].record.content == s[k].record.content)
        && (s[k].OpV? && ClosesOpen(client) ==> s'[k].OpV? && s'[k].op.id == s[k].op.id)
  {
    if ClosesOpen(client) {
      CloserKeepsContents(s, client);
    } else if client.JudgeApplication? {
      var k, verdict := AppKey(client.id), ReviewVerdict(client.approved, client.reason);
      ChangeDecides(s, k, verdict);
      var w := (k, RecordV(Judged(s[k].record, verdict)));
      ApplyFew(s, w, w, w, w);
    } else {
      PutDecides(s, Created(client).0, Created(client).1);
      StoreHasEffect(s, client);
      PutStores(s, Created(client).0, Created(client).1);
    }
  }

  lemma CloserKeepsContents(s: Store, client: Client)
    requires ClosesOpen(client) && Alone(JobOf(client).body, s).Committing?
    ensures
      var s' := After(JobOf(client).body, s);
      forall k :: k in s ==>
        && k in s'
        && (s[k].RecordV? ==> s'[k].RecordV? && s'[k].record.content == s[k].record.content)
        && (s[k].OpV? ==> s'[k].OpV? && s'[k].op.id == s[k].op.id)
  {
    var record, op, verdict := RecordEffect(client).value.0, OpEffect(client).value.0, RecordEffect(client).value.1;
    assert JobOf(client).body == [UpdateScript(record, op, verdict)];
    UpdateKeepsContents(s, record, op, verdict);
  }

  lemma UpdateKeepsContents(s: Store, record: Key, op: Key, verdict: Verdict)
    requires record != op && Alone([UpdateScript(record, op, verdict)], s).Committing?
    ensures
      var s' := After([UpdateScript(record, op, verdict)], s);
      forall k :: k in s ==>
        && k in s'
        && (s[k].RecordV? ==> s'[k].RecordV? && s'[k].record.content == s[k].record.content)
        && (s[k].OpV? ==> s'[k].OpV? && s'[k].op.id == s[k].op.id)
  {
    UpdateDecides(s, record, op, verdict);
    var a := (record, RecordV(Judged(s[record].record, verdict)));
    var b := (op, OpV(s[op].op.(done := true, response := Some(a.1.record))));
    ApplyFew(s, a, b, b, b);
  }

  lemma UpdateHasEffect(s: Store, client: Client)
    requires ClosesOpen(client) && Alone(JobOf(client).body, s).Committing?
    ensures HasEffect(s, After(JobOf(client).body, s), EffectOf(client))
  {
    var record, op, verdict := RecordEffect(client).value.0, OpEffect(client).value.0, RecordEffect(client).value.1;
    assert JobOf(client).body == [UpdateScript(record, op, verdict)];
    UpdateEffect(s, record, op, verdict);
  }

  lemma UpdateEffect(s: Store, record: Key, op: Key, verdict: Verdict)
    requires !record.OpKey? && op.OpKey? && Alone([UpdateScript(record, op, verdict)], s).Committing?
    ensures HasEffect(s, After([UpdateScript(record, op, verdict)], s), Effect(Some((record, verdict)), Some((op, Some(verdict))), true))
  {
    UpdateDecides(s, record, op, verdict);
    var a := (record, RecordV(Judged(s[record].record, verdict)));
    var b := (op, OpV(s[op].op.(done := true, response := Some(a.1.record))));
    ApplyFew(s, a, b, b, b);
  }

  /** One creator per id, and ids without a slash. */
  predicate WellPosed(clients: seq<Client>) {
    && (forall c :: 0 <= c < |clients| && (clients[c].StoreSubmission? || clients[c].StoreOperation?) ==> '/' !in clients[c].id)
    && (forall c, d :: 0 <= c < d < |clients| && clients[c].StoreSubmission? && clients[d].StoreSubmission? ==> clients[c].id != clients[d].id)
    && (forall c, d :: 0 <= c < d < |clients| && clients[c].StoreOperation? && clients[d].StoreOperation? ==> clients[c].id != clients[d].id)
  }

  // ---- What every run keeps ----

  predicate Closed(s: Store, id: string) {
    OpKeyFor(id) in s && s[OpKeyFor(id)].OpV? && s[OpKeyFor(id)].op.done
  }

  /** Every operation belongs to a stored submission, under its own id. */
  predicate Shaped(s: Store) {
    forall k :: k in s && AboutSubmission(k) ==>
      if k.SubKey? then s[k].RecordV?
      else
        && s[k].OpV? && s[k].op.id == k.opID
        && k == OpKeyFor(StatusObjectID(k.opID)) && '/' !in StatusObjectID(k.opID)
        && SubKey(StatusObjectID(k.opID)) in s
  }

  predicate AboutSubmission(k: Key) { k.SubKey? || (k.OpKey? && HasPrefix(k.opID, PARENT)) }

  /** Done exactly when the status is not pending, with the submission itself as the response. */
  predicate InStep(s: Store, id: string)
    requires Shaped(s)
  {
    SubKey(id) in s ==>
      && (Closed(s, id) <==> s[SubKey(id)].record.status != PENDING)
      && (Closed(s, id) ==> s[OpKeyFor(id)].op.response == Some(s[SubKey(id)].record))
  }

  /** Both records there, and the operation done exactly when the submission is decided. */
  predicate Paired(s: Store, id: string) {
    && IsRecord(Get(s, SubKey(id))) && IsOp(Get(s, OpKeyFor(id)))
    && (s[OpKeyFor(id)].op.done <==> s[SubKey(id)].record.status != PENDING)
  }

  predicate Decides(client: Client, id: string) {
    (client.Review? && client.id == id) || (client.Cancel? && HasPrefix(client.opID, PARENT) && StatusObjectID(client.opID) == id)
  }

  function VerdictOf(client: Client): Verdict
    requires client.Review? || client.Cancel?
  {
    if client.Review? then ReviewVerdict(client.approved, client.reason) else CANCELLATION
  }

  /** The submission carries the verdict of the client that decided it. */
  predicate Carries(s: Store, client: Client, id: string)
    requires Decides(client, id)
  {
    && Closed(s, id)
    && SubKey(id) in s && s[SubKey(id)].RecordV?
    && Verdict(s[SubKey(id)].record.status, s[SubKey(id)].record.reason) == VerdictOf(client)
  }

  ghost predicate DecidedOnce(clients: seq<Client>, s: Store, done: set<nat>) {
    && (forall c, id :: c in done && c < |clients| && Decides(clients[c], id) ==> Carries(s, clients[c], id))
    && (forall c, d, id :: c in done && d in done && c < |clients| && d < |clients| && Decides(clients[c], id) && Decides(clients[d], id) ==> c == d)
  }

  /** What was closed at the start stays closed, and is nobody's decision. */
  ghost predicate ClosedStays(clients: seq<Client>, s0: Store, s: Store, done: set<nat>) {
    forall id :: Closed(s0, id) ==> Closed(s, id) && forall c :: c in done && c < |clients| ==> !Decides(clients[c], id)
  }

  ghost predicate Good(clients: seq<Client>, s0: Store, s: Store, done: set<nat>) {
    Shaped(s) && (forall id :: InStep(s, id)) && DecidedOnce(clients, s, done) && ClosedStays(clients, s0, s, done)
  }

  /** Nothing is removed, and a closed pair is frozen. */
  predicate Frozen(s: Store, s': Store, id: string) {
    Closed(s, id) ==>
      && Get(s', OpKeyFor(id)) == Get(s, OpKeyFor(id))
      && Get(s', SubKey(id)) == Get(s, SubKey(id))
  }

  ghost function Terms(clients: seq<Client>, s0: Store): Contract<Key, Value> {
    Contract((s: Store, done: set<nat>) => Good(clients, s0, s, done), (s: Store, s': Store, _) => forall id :: Frozen(s, s', id))
  }

  lemma KeysDiffer(id: string, id': string)
    ensures OpKeyFor(id) == OpKeyFor(id') <==> id == id'
  {
    assert IDFromSubmissionID(id)[|PARENT + "/"|..] == id;
    assert IDFromSubmissionID(id')[|PARENT + "/"|..] == id';
  }

  lemma AllInsulated(client: Client, con: Contract<Key, Value>)
    ensures Insulated(JobOf(client), con)
  {
    var job := JobOf(client);
    forall i, replies, s, s', touched |
      && 0 <= i < |job.body| && job.body[i].act(replies).Ask?
      && con.safe(s, s', touched) && Frame(s, s', touched) && touched !! job.watch
      ensures job.body[i].act(replies).query(s) == job.body[i].act(replies).query(s')
    {
      assert forall k :: k in job.watch ==> k !in touched;
    }
  }

  /** The submission gets a verdict and its open operation is closed with it. */
  predicate Settles(s: Store, s': Store, id: string, verdict: Verdict) {
    && IsRecord(Get(s, SubKey(id))) && IsOp(Get(s, OpKeyFor(id))) && !Closed(s, id)
    && var sub := s[SubKey(id)].record.(status := verdict.status, reason := verdict.reason);
       s' == s[SubKey(id) := RecordV(sub)][OpKeyFor(id) := OpV(s[OpKeyFor(id)].op.(done := true, response := Some(sub)))]
  }

  /** A new pending submission, or a new open operation for a stored one. */
  predicate Adds(s: Store, s': Store, k: Key, v: Value) {
    && k !in s && s' == s[k := v]
    && match k
       case SubKey(id) => '/' !in id && v.RecordV? && v.record.status == PENDING
       case OpKey(_, opID) =>
         var id := StatusObjectID(opID);
         SubKey(id) in s && '/' !in id && k == OpKeyFor(id) && v == OpV(Operation(opID, false, None))
       case _ => false
  }

  lemma DecisionSettles(s: Store, client: Client, id: string)
    requires Shaped(s) && Decides(client, id) && Alone(JobOf(client).body, s).Committing?
    ensures Settles(s, After(JobOf(client).body, s), id, VerdictOf(client))
  {
    var opKey := if client.Cancel? then OpKeyOf(client.opID) else OpKeyFor(id);
    UpdateDecides(s, SubKey(id), opKey, VerdictOf(client));
    assert opKey == OpKeyFor(id);
    var sub := s[SubKey(id)].record.(status := VerdictOf(client).status, reason := VerdictOf(client).reason);
    var op := (OpKeyFor(id), OpV(s[opKey].op.(done := true, response := Some(sub))));
    ApplyFew(s, (SubKey(id), RecordV(sub)), op, op, op);
  }

  lemma SettlingKeepsStep(s: Store, s': Store, id: string, verdict: Verdict)
    requires Shaped(s) && (forall i :: InStep(s, i)) && Settles(s, s', id, verdict) && verdict.status != PENDING
    ensures Shaped(s')
    ensures forall i :: InStep(s', i) && Frozen(s, s', i) && (Closed(s', i) <==> Closed(s, i) || i == id)
  {
    forall i ensures InStep(s', i) && Frozen(s, s', i) && (Closed(s', i) <==> Closed(s, i) || i == id) {
      KeysDiffer(i, id);
      assert InStep(s, i);
    }
  }

  lemma AddingKeepsStep(s: Store, s': Store, k: Key, v: Value)
    requires Shaped(s) && (forall i :: InStep(s, i)) && Adds(s, s', k, v)
    ensures Shaped(s')
    ensures forall i :: InStep(s', i) && Frozen(s, s', i) && (Closed(s', i) <==> Closed(s, i))
  {
    forall i ensures InStep(s', i) && Frozen(s, s', i) && (Closed(s', i) <==> Closed(s, i)) {
      if k.OpKey? { KeysDiffer(i, StatusObjectID(k.opID)); }
      assert InStep(s, i);
      NoOperationYet(s, i);
    }
  }

  lemma NoOperationYet(s: Store, id: string)
    requires Shaped(s)
    ensures SubKey(id) !in s ==> OpKeyFor(id) !in s
  {
    if OpKeyFor(id) in s { KeysDiffer(id, StatusObjectID(OpKeyFor(id).opID)); }
  }

  lemma SettlingDecidesOnce(clients: seq<Client>, s0: Store, s: Store, s': Store, done: set<nat>, c: nat, id: string)
    requires Good(clients, s0, s, done) && c < |clients| && c !in done && Decides(clients[c], id)
    requires Settles(s, s', id, VerdictOf(clients[c]))
    ensures Good(clients, s0, s', done + {c}) && forall i :: Frozen(s, s', i)
  {
    SettlingKeepsStep(s, s', id, VerdictOf(clients[c]));
    forall d, i | d in done + {c} && d < |clients| && Decides(clients[d], i) ensures Carries(s', clients[d], i) && (i == id ==> d == c) {
      if d != c {
        assert Carries(s, clients[d], i);
        assert Frozen(s, s', i) && i != id;
      }
    }
  }

  lemma AddingDecidesNothing(clients: seq<Client>, s0: Store, s: Store, s': Store, done: set<nat>, c: nat, k: Key, v: Value)
    requires Good(clients, s0, s, done) && c < |clients| && (clients[c].StoreSubmission? || clients[c].StoreOperation?)
    requires Adds(s, s', k, v)
    ensures Good(clients, s0, s', done + {c}) && forall i :: Frozen(s, s', i)
  {
    AddingKeepsStep(s, s', k, v);
    forall d, i | d in done + {c} && d < |clients| && Decides(clients[d], i) ensures Carries(s', clients[d], i) && d in done {
      assert Carries(s, clients[d], i);
      assert Frozen(s, s', i);
    }
  }

  /** A client that decides about a submission. */
  predicate Settler(client: Client) { client.Review? || (client.Cancel? && HasPrefix(client.opID, PARENT)) }

  ghost predicate Elsewhere(s: Store, s': Store) { forall k :: AboutSubmission(k) ==> Get(s', k) == Get(s, k) }

  /** The clients of applications touch no submission and no operation of one. */
  lemma WritesElsewhere(s: Store, client: Client)
    requires !client.StoreSubmission? && !client.StoreOperation? && !Settler(client) && Alone(JobOf(client).body, s).Committing?
    ensures Elsewhere(s, After(JobOf(client).body, s))
  {
    CommitHasEffect(s, client);
    if client.StoreApplicationOperation? || client.StoreDenial? || client.AnswerApplication? { ResponseNamesMatch(client.id); }
  }

  lemma ElsewhereDecidesNothing(clients: seq<Client>, s0: Store, s: Store, s': Store, done: set<nat>, c: nat)
    requires Good(clients, s0, s, done) && c < |clients| && !Settler(clients[c]) && Elsewhere(s, s')
    ensures Good(clients, s0, s', done + {c}) && forall i :: Frozen(s, s', i)
  {
    ElsewhereKeepsStep(s, s');
    forall d, i | d in done + {c} && d < |clients| && Decides(clients[d], i) ensures Carries(s', clients[d], i) && d in done {
      assert Carries(s, clients[d], i);
      assert Frozen(s, s', i);
    }
  }

  lemma ElsewhereKeepsStep(s: Store, s': Store)
    requires Shaped(s) && (forall i :: InStep(s, i)) && Elsewhere(s, s')
    ensures Shaped(s')
    ensures forall i :: InStep(s', i) && Frozen(s, s', i) && (Closed(s', i) <==> Closed(s, i))
  {
    forall k | k in s' && AboutSubmission(k) ensures k in s && s[k] == s'[k] && (k.OpKey? ==> SubKey(StatusObjectID(k.opID)) in s') {
      assert Get(s', k) == Get(s, k);
      if k.OpKey? { assert AboutSubmission(SubKey(StatusObjectID(k.opID))); }
    }
    forall i ensures InStep(s', i) && Frozen(s, s', i) && (Closed(s', i) <==> Closed(s, i)) {
      NamesMatch(i);
      assert InStep(s, i) && AboutSubmission(OpKeyFor(i)) && AboutSubmission(SubKey(i));
    }
  }

  lemma CreationAdds(s: Store, client: Client)
    requires (client.StoreSubmission? || client.StoreOperation?) && '/' !in client.id
    requires JobOf(client).ready(s) && Alone(JobOf(client).body, s).Committing?
    ensures Adds(s, After(JobOf(client).body, s), Created(client).0, Created(client).1)
  {
    var w := Created(client);
    PutDecides(s, w.0, w.1);
    ApplyFew(s, w, w, w, w);
    NamesMatch(client.id);
  }

  lemma ClientUpholds(clients: seq<Client>, s0: Store, c: nat, s: Store, done: set<nat>)
    requires WellPosed(clients) && c < |clients|
    ensures UpholdsAt(Jobs(clients), Terms(clients, s0), c, s, done)
  {
    var jobs, con, client := Jobs(clients), Terms(clients, s0), clients[c];
    var s' := After(jobs[c].body, s);
    if con.good(s, done) && c !in done && jobs[c].ready(s) && Alone(jobs[c].body, s).Committing? {
      if client.StoreSubmission? || client.StoreOperation? {
        CreationAdds(s, client);
        AddingDecidesNothing(clients, s0, s, s', done, c, Created(client).0, Created(client).1);
      } else if Settler(client) {
        var id := if client.Review? then client.id else StatusObjectID(client.opID);
        DecisionSettles(s, client, id);
        SettlingDecidesOnce(clients, s0, s, s', done, c, id);
      } else {
        WritesElsewhere(s, client);
        ElsewhereDecidesNothing(clients, s0, s, s', done, c);
      }
      forall d | 0 <= d < |jobs| && d != c && jobs[d].ready(s) ensures jobs[d].ready(s') { StaysReady(clients, s, s', c, d); }
    }
  }

  lemma StaysReady(clients: seq<Client>, s: Store, s': Store, c: nat, d: nat)
    requires WellPosed(clients) && c < |clients| && d < |clients| && d != c && JobOf(clients[d]).ready(s)
    requires forall k :: AboutSubmission(k) && k in s ==> k in s'
    requires forall k :: AboutSubmission(k) && k in s' && k !in s ==> (clients[c].StoreSubmission? || clients[c].StoreOperation?) && k == Created(clients[c]).0
    ensures JobOf(clients[d]).ready(s')
  {
    if clients[d].StoreOperation? {
      NamesMatch(clients[d].id);
      if clients[c].StoreOperation? { KeysDiffer(clients[d].id, clients[c].id); }
    }
  }

  lemma ClientsSound(clients: seq<Client>, s0: Store)
    requires WellPosed(clients)
    ensures Sound(Jobs(clients), Terms(clients, s0))
  {
    var jobs, con := Jobs(clients), Terms(clients, s0);
    forall c | 0 <= c < |jobs| ensures Insulated(jobs[c], con) && Upholds(jobs, con, c) {
      AllInsulated(clients[c], con);
      forall s, done ensures UpholdsAt(jobs, con, c, s, done) { ClientUpholds(clients, s0, c, s, done); }
    }
  }

  // ---- Main results ----

  ghost predicate Reaches(clients: seq<Client>, s0: Store, steps: seq<Step>) {
    && WellPosed(clients) && Shaped(s0) && (forall id :: InStep(s0, id))
    && IsRun(Jobs(clients), Start(Jobs(clients), s0), steps)
  }

  ghost function Final(clients: seq<Client>, s0: Store, steps: seq<Step>): World<Key, Value, Option<Value>, Output>
    requires Reaches(clients, s0, steps)
  {
    End(Jobs(clients), Start(Jobs(clients), s0), steps)
  }

  /** Under any interleaving, an operation is done exactly when its submission is no longer pending,
      and its response is then the submission's own bytes. */
  lemma DoneMeansDecided(clients: seq<Client>, s0: Store, steps: seq<Step>, id: string)
    requires Reaches(clients, s0, steps)
    ensures
      var s := Final(clients, s0, steps).store;
      SubKey(id) in s && OpKeyFor(id) in s ==>
        && s[SubKey(id)].RecordV? && s[OpKeyFor(id)].OpV?
        && (s[OpKeyFor(id)].op.done <==> s[SubKey(id)].record.status != PENDING)
        && (s[OpKeyFor(id)].op.done ==> s[OpKeyFor(id)].op.response == Some(s[SubKey(id)].record))
  {
    ClientsSound(clients, s0);
    Serialisable(Jobs(clients), Terms(clients, s0), s0, steps);
    assert InStep(Final(clients, s0, steps).store, id);
  }

  ghost predicate Succeeded(clients: seq<Client>, s0: Store, steps: seq<Step>, c: nat)
    requires Reaches(clients, s0, steps)
  {
    var w := Final(clients, s0, steps);
    c < |w.phases| && w.phases[c].Committed?
  }

  /** Of the reviews and cancels of one submission at most one is told it succeeded, and the record
      carries that one's status and reason. */
  lemma DecidedByOneClient(clients: seq<Client>, s0: Store, steps: seq<Step>, id: string, c: nat)
    requires Reaches(clients, s0, steps) && c < |clients| && Decides(clients[c], id)
    requires Succeeded(clients, s0, steps, c)
    ensures Carries(Final(clients, s0, steps).store, clients[c], id)
    ensures forall d :: 0 <= d < |clients| && Decides(clients[d], id) && Succeeded(clients, s0, steps, d) ==> d == c
    ensures !Closed(s0, id)
  {
    ClientsSound(clients, s0);
    Serialisable(Jobs(clients), Terms(clients, s0), s0, steps);
    var w := Final(clients, s0, steps);
    MembersGrow(w.log, c);
  }

  /** Once a pair is closed, status, reason and response never change again. */
  lemma ClosedIsFinal(clients: seq<Client>, s0: Store, steps: seq<Step>, more: seq<Step>, id: string)
    requires Reaches(clients, s0, steps) && IsRun(Jobs(clients), Final(clients, s0, steps), more)
    requires Closed(Final(clients, s0, steps).store, id)
    ensures
      var s, s' := Final(clients, s0, steps).store, End(Jobs(clients), Final(clients, s0, steps), more).store;
      SubKey(id) in s && SubKey(id) in s' && OpKeyFor(id) in s' && s'[SubKey(id)] == s[SubKey(id)] && s'[OpKeyFor(id)] == s[OpKeyFor(id)]
  {
    var jobs, con, w := Jobs(clients), Terms(clients, s0), Final(clients, s0, steps);
    ClientsSound(clients, s0);
    assert Members([]) == {};
    RunsKeepInv(jobs, con, s0, Start(jobs, s0), steps);
    assert Shaped(w.store) && Closed(w.store, id);
    NoOperationYet(w.store, id);
    var kept := (s: Store) => Closed(s, id) && Get(s, SubKey(id)) == Get(w.store, SubKey(id)) && Get(s, OpKeyFor(id)) == Get(w.store, OpKeyFor(id));
    forall s: Store, s': Store, touched: set<Key> | con.safe(s, s', touched) && kept(s) ensures kept(s') { assert Frozen(s, s', id); }
    RunsKeepStable(jobs, con, s0, w, more, kept);
  }
}
