/** Any number of clients creating credentials and setting their flags, interleaved: the status
    lists, the index allocator and its cursor. */
module StatusRuns {
  import opened Wrappers
  import opened Kernel
  import opened Serialisability
  import opened Batches
  import opened Status
  import opened StatusSteps
  import opened StatusUpdates

  /** A create transaction or an update transaction, of one request or of a batch. */
  datatype Client = Creating(reqs: seq<CreateRequest>) | Updating(updates: seq<UpdateRequest>)

  type StatusJob = Job<Key, Value, Reply, Response>

  function Triples(reqs: seq<CreateRequest>): set<Triple> {
    set i | 0 <= i < |reqs| && reqs[i].HasStatus() && reqs[i].IsStatusValid() :: reqs[i].StatusTriple()
  }

  ghost function Body(reqs: seq<CreateRequest>, strict: bool): seq<Script<Key, Value, Reply, Response>> {
    seq(|reqs|, i requires 0 <= i < |reqs| => CreateScript(reqs[i], strict))
  }

  function WatchedBy(reqs: seq<CreateRequest>): set<Key> {
    (set t | t in Triples(reqs) :: ListKey(t)) + (set t | t in Triples(reqs) :: PoolKey(t)) + (set t | t in Triples(reqs) :: CursorKey(t))
  }

  ghost function JobOf(client: Client, strict: bool): StatusJob {
    match client
    case Creating(reqs) => Job(Body(reqs, strict), WatchedBy(reqs), _ => true)
    case Updating(updates) => Job(UpdateBody(updates), set i | 0 <= i < |updates| :: ListKey(updates[i].t), s => AllHold(s, updates))
  }

  ghost function Jobs(clients: seq<Client>, strict: bool): seq<StatusJob> {
    seq(|clients|, c requires 0 <= c < |clients| => JobOf(clients[c], strict))
  }

  /** No list of one request can be taken for that of another. */
  ghost predicate DistinctLists(reqs: seq<CreateRequest>) {
    forall i, j :: 0 <= i < |reqs| && 0 <= j < |reqs| && reqs[i].HasStatus() && reqs[j].HasStatus() && reqs[i].StatusTriple() != reqs[j].StatusTriple() ==>
      !ListPicked(reqs[i].StatusTriple(), reqs[j].StatusTriple())
  }

  /** Each request has its own id and a real shuffle. */
  ghost predicate FreshRequests(reqs: seq<CreateRequest>) {
    && (forall i :: 0 <= i < |reqs| ==> IsShuffle(reqs[i].shuffle))
    && (forall i, j :: 0 <= i < j < |reqs| ==> reqs[i].id != reqs[j].id)
    && DistinctLists(reqs)
  }

  /** At most one status-bearing request per triple. */
  ghost predicate OnePerTriple(reqs: seq<CreateRequest>) {
    forall i, j :: 0 <= i < j < |reqs| && reqs[i].HasStatus() && reqs[j].HasStatus() ==> reqs[i].StatusTriple() != reqs[j].StatusTriple()
  }

  function Ids(client: Client): set<string> {
    if client.Creating? then set i | 0 <= i < |client.reqs| :: client.reqs[i].id else {}
  }

  /** Updates that set their credential's own flag, at most one credential to a list. */
  predicate OwnFlags(updates: seq<UpdateRequest>) {
    && (forall i :: 0 <= i < |updates| ==> updates[i].SetsOwnFlag())
    && (forall i, j :: 0 <= i < |updates| && 0 <= j < |updates| && updates[i].t == updates[j].t ==> updates[i].id == updates[j].id)
  }

  ghost predicate CreatedBy(clients: seq<Client>, req: CreateRequest) {
    exists c :: 0 <= c < |clients| && clients[c].Creating? && req in clients[c].reqs
  }

  ghost predicate UpdatedBy(clients: seq<Client>, req: UpdateRequest) {
    exists c :: 0 <= c < |clients| && clients[c].Updating? && req in clients[c].updates
  }

  /** The credential that a request will make, as far as scans can see. */
  function Shape(req: CreateRequest): Cred {
    req.NewCred(if req.HasStatus() then Some(Entry(req.StatusTriple().purpose, 0, "")) else None)
  }

  /** No requested credential can be mistaken for one of a list that is updated, and no requested
      list for another one. */
  ghost predicate NamesClear(clients: seq<Client>) {
    && (forall r, u :: CreatedBy(clients, r) && UpdatedBy(clients, u) ==> !Mistakable(Shape(r), u.t))
    && (forall r, r' :: CreatedBy(clients, r) && CreatedBy(clients, r') && r.HasStatus() && r'.HasStatus() && r.StatusTriple() != r'.StatusTriple() ==>
          !ListPicked(r'.StatusTriple(), r.StatusTriple()))
  }

  ghost predicate WellPosed(clients: seq<Client>) {
    && (forall c :: 0 <= c < |clients| ==>
          match clients[c]
          case Creating(reqs) => FreshRequests(reqs) && OnePerTriple(reqs)
          case Updating(updates) => OwnFlags(updates))
    && (forall c, d :: 0 <= c < d < |clients| ==> Ids(clients[c]) !! Ids(clients[d]))
    && NamesClear(clients)
  }

  /** The ids of the status-bearing requests for a triple. */
  function IssuedBy(client: Client, t: Triple): set<string> {
    if client.Creating? then set i | 0 <= i < |client.reqs| && client.reqs[i].HasStatus() && client.reqs[i].StatusTriple() == t :: client.reqs[i].id
    else {}
  }

  function Issued(clients: seq<Client>, done: set<nat>, t: Triple): set<string> {
    set c, id | c in done && c < |clients| && id in IssuedBy(clients[c], t) :: id
  }

  /** The credentials in the store are exactly those of the committed creates. */
  ghost predicate Born(clients: seq<Client>, s: Store, done: set<nat>) {
    && (forall id :: CredKey(id) in s <==> exists c :: c in done && c < |clients| && id in Ids(clients[c]))
    && (forall t, id :: CredKey(id) in Bearers(s, t) <==> id in Issued(clients, done, t))
  }

  /** No stored credential can be mistaken for one of a list that is updated, and no stored list for
      one that a request looks for. */
  ghost predicate StoreClear(clients: seq<Client>, s: Store) {
    && (forall u :: UpdatedBy(clients, u) ==> ClearScan(s, u.t))
    && (forall r :: CreatedBy(clients, r) && r.HasStatus() ==> ClearLists(s, r.StatusTriple()))
  }

  /** A commit that leaves a list alone leaves alone what the scans for it find. */
  ghost predicate Safe(clients: seq<Client>, s: Store, s': Store, touched: set<Key>) {
    && (forall u :: UpdatedBy(clients, u) && ListKey(u.t) !in touched ==> Quiet(s, s', u.t))
    && (forall r :: CreatedBy(clients, r) && r.HasStatus() && ListKey(r.StatusTriple()) !in touched ==>
          FindList(r.StatusTriple())(s') == FindList(r.StatusTriple())(s))
  }

  ghost function Terms(clients: seq<Client>, strict: bool): Contract<Key, Value> {
    Contract((s: Store, done: set<nat>) => Good(s, strict) && Born(clients, s, done) && StoreClear(clients, s),
             (s: Store, s': Store, touched: set<Key>) => Safe(clients, s, s', touched))
  }

  // ---- A batch of creates ----

  /** The reads of a create look at the keys of its own triple only. */
  lemma CreateReads(req: CreateRequest, strict: bool, replies: seq<Reply>, s: Store, s': Store)
    requires CreateAct(req, strict, replies).Ask?
    requires req.HasStatus() && req.IsStatusValid() ==>
      var t := req.StatusTriple();
      FindList(t)(s) == FindList(t)(s') && SameAt(s, s', PoolKey(t)) && SameAt(s, s', CursorKey(t))
    ensures req.HasStatus() && req.IsStatusValid()
    ensures CreateAct(req, strict, replies).query(s) == CreateAct(req, strict, replies).query(s')
  {
  }

  /** What a batch of creates does: new bearers, no triple disturbed, and nothing in the store that
      no request has asked for. */
  ghost predicate BatchEffect(s: Store, s': Store, reqs: seq<CreateRequest>, strict: bool) {
    && Good(s', strict)
    && (forall t :: Quiet(s, s', t))
    && (forall id :: CredKey(id) in s' <==> CredKey(id) in s || id in Ids(Creating(reqs)))
    && (forall t, id :: CredKey(id) in Bearers(s', t) <==> CredKey(id) in Bearers(s, t) || id in IssuedBy(Creating(reqs), t))
    && Requested(s, s', reqs)
  }

  ghost predicate Requested(s: Store, s': Store, reqs: seq<CreateRequest>) {
    && (forall k :: k in s' && k.ListKey? ==> k in s || k.t in Triples(reqs))
    && (forall k :: k in s' && k.CredKey? ==> (k in s && s'[k] == s[k]) || exists i :: MadeFor(s', k, reqs, i))
  }

  ghost predicate MadeFor(s: Store, k: Key, reqs: seq<CreateRequest>, i: int) {
    0 <= i < |reqs| && k in s && s[k].CredV? && CreatedFor(s[k].cred, reqs[i])
  }

  lemma CreateHasEffect(s: Store, req: CreateRequest, strict: bool)
    requires Good(s, strict) && CredKey(req.id) !in s && IsShuffle(req.shuffle) && (req.HasStatus() ==> ClearLists(s, req.StatusTriple()))
    requires Alone(Create(req, strict), s).Committing?
    ensures BatchEffect(s, After(Create(req, strict), s), [req], strict)
    ensures req.IsStatusValid()
    ensures forall t :: !(req.HasStatus() && t == req.StatusTriple()) ==> TripleUntouched(s, After(Create(req, strict), s), t)
  {
    assert TripleGood(s, strict, req.StatusTriple());
    OnlyValidCommits(s, req, strict);
    WrittenByCreate(s, req, strict);
    var s', c := After(Create(req, strict), s), Alone(Create(req, strict), s).outs[0].cred;
    WrittenKeepsGood(s, s', req, strict, c);
    OneRequested(s, s', req, strict, c);
    AddsHasEffect(s, s', req, strict, c);
    WrittenElsewhere(s, s', req, strict, c);
  }

  lemma OnlyValidCommits(s: Store, req: CreateRequest, strict: bool)
    requires Alone(Create(req, strict), s).Committing?
    ensures req.IsStatusValid()
  {
    CreateDecides(s, req, strict);
  }

  ghost predicate TripleUntouched(s: Store, s': Store, t: Triple) {
    SameAt(s, s', ListKey(t)) && SameAt(s, s', PoolKey(t)) && SameAt(s, s', CursorKey(t))
  }

  lemma WrittenElsewhere(s: Store, s': Store, req: CreateRequest, strict: bool, c: Cred)
    requires IsShuffle(req.shuffle) && (req.HasStatus() && ListKey(req.StatusTriple()) in s ==> ListExists(s, req.StatusTriple()))
    requires Written(s, s', req, strict, c)
    ensures forall t :: !(req.HasStatus() && t == req.StatusTriple()) ==> TripleUntouched(s, s', t)
  {
  }

  lemma OneRequested(s: Store, s': Store, req: CreateRequest, strict: bool, c: Cred)
    requires IsShuffle(req.shuffle) && req.IsStatusValid() && CreatedFor(c, req) && c.id == req.id
    requires req.HasStatus() && ListKey(req.StatusTriple()) in s ==> ListExists(s, req.StatusTriple())
    requires Written(s, s', req, strict, c)
    ensures Requested(s, s', [req])
  {
    if req.HasStatus() { assert [req][0].StatusTriple() in Triples([req]); }
    assert MadeFor(s', CredKey(req.id), [req], 0);
  }

  lemma IdsOfOne(req: CreateRequest, t: Triple)
    ensures Ids(Creating([req])) == {req.id}
    ensures IssuedBy(Creating([req]), t) == if req.HasStatus() && req.StatusTriple() == t then {req.id} else {}
  {
    assert [req][0].id in Ids(Creating([req]));
    if req.HasStatus() && req.StatusTriple() == t { assert [req][0].id in IssuedBy(Creating([req]), t); }
  }

  lemma AddsHasEffect(s: Store, s': Store, req: CreateRequest, strict: bool, c: Cred)
    requires Adds(s, s', c) && CreatedFor(c, req) && Good(s', strict) && Requested(s, s', [req]) && forall t :: Quiet(s, s', t)
    ensures BatchEffect(s, s', [req], strict)
  {
    forall t, id ensures CredKey(id) in Bearers(s', t) <==> CredKey(id) in Bearers(s, t) || id in IssuedBy(Creating([req]), t) {
      IdsOfOne(req, t);
      AddsBearer(s, s', c, t);
    }
    IdsOfOne(req, req.StatusTriple());
  }

  lemma EffectsCompose(s: Store, s1: Store, s2: Store, req: CreateRequest, rest: seq<CreateRequest>, strict: bool)
    requires BatchEffect(s, s1, [req], strict) && BatchEffect(s1, s2, rest, strict)
    ensures BatchEffect(s, s2, [req] + rest, strict)
  {
    IdsCompose(req, rest);
    forall t ensures IssuedBy(Creating([req] + rest), t) == IssuedBy(Creating([req]), t) + IssuedBy(Creating(rest), t) { IssuedCompose(req, rest, t); }
    forall t ensures Quiet(s, s2, t) { QuietComposes(s, s1, s2, t); }
    RequestsCompose(s, s1, s2, req, rest);
  }

  lemma IdsCompose(req: CreateRequest, rest: seq<CreateRequest>)
    ensures Ids(Creating([req] + rest)) == Ids(Creating([req])) + Ids(Creating(rest))
  {
    var reqs := [req] + rest;
    forall i | 0 <= i < |rest| ensures rest[i].id in Ids(Creating(reqs)) { assert reqs[i + 1] == rest[i]; }
    assert reqs[0].id in Ids(Creating(reqs)) && [req][0].id in Ids(Creating([req]));
  }

  lemma IssuedCompose(req: CreateRequest, rest: seq<CreateRequest>, t: Triple)
    ensures IssuedBy(Creating([req] + rest), t) == IssuedBy(Creating([req]), t) + IssuedBy(Creating(rest), t)
  {
    var reqs := [req] + rest;
    forall i | 0 <= i < |rest| && rest[i].HasStatus() && rest[i].StatusTriple() == t ensures rest[i].id in IssuedBy(Creating(reqs), t) { assert reqs[i + 1] == rest[i]; }
    if req.HasStatus() && req.StatusTriple() == t { assert reqs[0].id in IssuedBy(Creating(reqs), t) && [req][0].id in IssuedBy(Creating([req]), t); }
  }

  lemma QuietComposes(s: Store, s1: Store, s2: Store, t: Triple)
    requires Quiet(s, s1, t) && Quiet(s1, s2, t)
    ensures Quiet(s, s2, t)
  {
    forall k | k in Bearers(s, t) ensures k in Bearers(s1, t) { assert k in s1 && s1[k] == s[k]; }
  }

  lemma RequestsCompose(s: Store, s1: Store, s2: Store, req: CreateRequest, rest: seq<CreateRequest>)
    requires Requested(s, s1, [req]) && Requested(s1, s2, rest)
    ensures Requested(s, s2, [req] + rest)
  {
    var reqs := [req] + rest;
    forall i | 0 <= i < |rest| ensures reqs[i + 1] == rest[i] { }
    forall k | k in s2 && k.ListKey? && k !in s ensures k.t in Triples(reqs) {
      if k in s1 {
        var i :| 0 <= i < |[req]| && [req][i].HasStatus() && [req][i].IsStatusValid() && [req][i].StatusTriple() == k.t;
        assert reqs[0] == req && reqs[0].StatusTriple() in Triples(reqs);
      } else {
        var i :| 0 <= i < |rest| && rest[i].HasStatus() && rest[i].IsStatusValid() && rest[i].StatusTriple() == k.t;
        assert reqs[i + 1].StatusTriple() in Triples(reqs);
      }
    }
    forall k | k in s2 && k.CredKey? && !(k in s && s2[k] == s[k]) ensures exists i :: MadeFor(s2, k, reqs, i) {
      if k in s1 && s2[k] == s1[k] {
        var i :| MadeFor(s1, k, [req], i);
        assert MadeFor(s2, k, reqs, 0);
      } else {
        var i :| MadeFor(s2, k, rest, i);
        assert MadeFor(s2, k, reqs, i + 1);
      }
    }
  }

  /** After one create, the lists that the others look for are found as before. */
  lemma OthersStayClear(s: Store, s1: Store, first: CreateRequest, req: CreateRequest)
    requires ClearLists(s, req.StatusTriple()) && Requested(s, s1, [first])
    requires first.HasStatus() && first.StatusTriple() != req.StatusTriple() ==> !ListPicked(first.StatusTriple(), req.StatusTriple())
    ensures ClearLists(s1, req.StatusTriple())
    ensures SameAt(s, s1, ListKey(req.StatusTriple())) ==> FindList(req.StatusTriple())(s1) == FindList(req.StatusTriple())(s)
  {
    forall k | k in s1 && k.ListKey? && k !in s ensures k.t == first.StatusTriple() && first.HasStatus() { }
    FindListExact(s, req.StatusTriple());
    FindListExact(s1, req.StatusTriple());
  }

  /** A batch with at most one status-bearing request per triple commits as its requests would one
      after the other, and keeps every triple good. */
  lemma {:induction false} BatchKeepsGood(s: Store, reqs: seq<CreateRequest>, strict: bool)
    requires Good(s, strict) && FreshRequests(reqs) && OnePerTriple(reqs)
    requires forall i :: 0 <= i < |reqs| ==> CredKey(reqs[i].id) !in s && (reqs[i].HasStatus() ==> ClearLists(s, reqs[i].StatusTriple()))
    ensures Unrelated(Body(reqs, strict), s)
    ensures Alone(Body(reqs, strict), s).Committing? ==> BatchEffect(s, After(Body(reqs, strict), s), reqs, strict)
    decreases |reqs|
  {
    if reqs == [] {
      assert Alone(Body(reqs, strict), s) == Committing([], []);
    } else {
      var s1 := After(Create(reqs[0], strict), s);
      FirstOfBatch(s, s1, reqs, strict);
      BatchKeepsGood(s1, reqs[1..], strict);
      BatchUnrelated(s, s1, reqs, strict);
      if Alone(Body(reqs, strict), s).Committing? { BatchComposes(s, s1, reqs, strict); }
    }
  }

  lemma BatchUnrelated(s: Store, s1: Store, reqs: seq<CreateRequest>, strict: bool)
    requires reqs != [] && s1 == After(Create(reqs[0], strict), s) && Unrelated(Body(reqs[1..], strict), s1)
    requires forall i, replies :: 1 <= i < |reqs| && CreateAct(reqs[i], strict, replies).Ask? ==>
               CreateAct(reqs[i], strict, replies).query(s) == CreateAct(reqs[i], strict, replies).query(s1)
    ensures Unrelated(Body(reqs, strict), s)
  {
    BodyUnfolds(reqs, strict);
  }

  lemma BatchComposes(s: Store, s1: Store, reqs: seq<CreateRequest>, strict: bool)
    requires reqs != [] && s1 == After(Create(reqs[0], strict), s) && Unrelated(Body(reqs, strict), s) && Alone(Body(reqs, strict), s).Committing?
    requires Alone(Create(reqs[0], strict), s).Committing? ==> BatchEffect(s, s1, [reqs[0]], strict)
    requires Alone(Body(reqs[1..], strict), s1).Committing? ==> BatchEffect(s1, After(Body(reqs[1..], strict), s1), reqs[1..], strict)
    ensures BatchEffect(s, After(Body(reqs, strict), s), reqs, strict)
  {
    BodyUnfolds(reqs, strict);
    BatchIsSequential(Body(reqs, strict), s);
    EffectsCompose(s, s1, After(Body(reqs, strict), s), reqs[0], reqs[1..], strict);
    assert [reqs[0]] + reqs[1..] == reqs;
  }

  lemma BodyUnfolds(reqs: seq<CreateRequest>, strict: bool)
    requires reqs != []
    ensures Body(reqs, strict)[1..] == Body(reqs[1..], strict) && [Body(reqs, strict)[0]] == Create(reqs[0], strict)
  {
  }

  /** What the first request of a batch leaves to the others. */
  lemma FirstOfBatch(s: Store, s1: Store, reqs: seq<CreateRequest>, strict: bool)
    requires Good(s, strict) && FreshRequests(reqs) && OnePerTriple(reqs) && reqs != [] && s1 == After(Create(reqs[0], strict), s)
    requires forall i :: 0 <= i < |reqs| ==> CredKey(reqs[i].id) !in s && (reqs[i].HasStatus() ==> ClearLists(s, reqs[i].StatusTriple()))
    ensures Alone(Create(reqs[0], strict), s).Committing? ==> BatchEffect(s, s1, [reqs[0]], strict)
    ensures Good(s1, strict)
    ensures forall i :: 0 <= i < |reqs[1..]| ==> CredKey(reqs[1..][i].id) !in s1 && (reqs[1..][i].HasStatus() ==> ClearLists(s1, reqs[1..][i].StatusTriple()))
    ensures forall i, replies :: 1 <= i < |reqs| && CreateAct(reqs[i], strict, replies).Ask? ==>
              CreateAct(reqs[i], strict, replies).query(s) == CreateAct(reqs[i], strict, replies).query(s1)
  {
    var committing := Alone(Create(reqs[0], strict), s).Committing?;
    if committing {
      CreateHasEffect(s, reqs[0], strict);
      IdsOfOne(reqs[0], reqs[0].StatusTriple());
    } else {
      assert s1 == s;
    }
    forall i | 1 <= i < |reqs| && reqs[i].HasStatus()
      ensures ClearLists(s1, reqs[i].StatusTriple()) && FindList(reqs[i].StatusTriple())(s1) == FindList(reqs[i].StatusTriple())(s)
    {
      if committing {
        assert TripleUntouched(s, s1, reqs[i].StatusTriple());
        OthersStayClear(s, s1, reqs[0], reqs[i]);
      }
    }
    forall i | 0 <= i < |reqs[1..]| ensures CredKey(reqs[1..][i].id) !in s1 { assert reqs[1..][i] == reqs[i + 1]; }
    forall i, replies | 1 <= i < |reqs| && CreateAct(reqs[i], strict, replies).Ask?
      ensures CreateAct(reqs[i], strict, replies).query(s) == CreateAct(reqs[i], strict, replies).query(s1)
    {
      if committing && reqs[i].HasStatus() { assert TripleUntouched(s, s1, reqs[i].StatusTriple()); }
      CreateReads(reqs[i], strict, replies, s, s1);
    }
  }

  // ---- The clients keep the contract ----

  lemma CreatingInsulated(clients: seq<Client>, c: nat, strict: bool)
    requires c < |clients| && clients[c].Creating?
    ensures Insulated(JobOf(clients[c], strict), Terms(clients, strict))
  {
    var job, reqs := JobOf(clients[c], strict), clients[c].reqs;
    forall i, replies, s, s', touched |
      0 <= i < |job.body| && job.body[i].act(replies).Ask? && Safe(clients, s, s', touched) && Frame(s, s', touched) && touched !! job.watch
      ensures job.body[i].act(replies).query(s) == job.body[i].act(replies).query(s')
    {
      assert CreatedBy(clients, reqs[i]);
      if reqs[i].HasStatus() && reqs[i].IsStatusValid() {
        var t := reqs[i].StatusTriple();
        assert t in Triples(reqs);
        assert {ListKey(t), PoolKey(t), CursorKey(t)} <= job.watch;
      }
      CreateReads(reqs[i], strict, replies, s, s');
    }
  }

  /** The credentials an update reads and scans are not watched; the list keys do the locking. */
  lemma UpdatingInsulated(clients: seq<Client>, c: nat, strict: bool)
    requires c < |clients| && clients[c].Updating? && OwnFlags(clients[c].updates)
    ensures Insulated(JobOf(clients[c], strict), Terms(clients, strict))
  {
    var job, updates := JobOf(clients[c], strict), clients[c].updates;
    forall i, replies, s, s', touched |
      0 <= i < |job.body| && job.body[i].act(replies).Ask? && Safe(clients, s, s', touched) && touched !! job.watch && AllHold(s, updates)
      ensures job.body[i].act(replies).query(s) == job.body[i].act(replies).query(s')
    {
      assert UpdatedBy(clients, updates[i]);
      assert ListKey(updates[i].t) in job.watch;
      assert Quiet(s, s', updates[i].t);
      assert CredKey(updates[i].id) in Bearers(s, updates[i].t);
    }
  }

  lemma ShapeMistaken(c: Cred, req: CreateRequest, t: Triple)
    requires CreatedFor(c, req)
    ensures Mistakable(c, t) <==> Mistakable(Shape(req), t)
  {
    assert c.Name() == Shape(req).Name();
  }

  /** What the requests of the clients have put there cannot be mistaken. */
  lemma RequestedStaysClear(clients: seq<Client>, s: Store, s': Store, c: nat)
    requires NamesClear(clients) && StoreClear(clients, s) && c < |clients| && clients[c].Creating? && Requested(s, s', clients[c].reqs)
    ensures StoreClear(clients, s')
  {
    var reqs := clients[c].reqs;
    forall u | UpdatedBy(clients, u) ensures ClearScan(s', u.t) {
      forall k | k in s' && k.CredKey? && s'[k].CredV? ensures !Mistakable(s'[k].cred, u.t) {
        if !(k in s && s'[k] == s[k]) {
          var i :| MadeFor(s', k, reqs, i);
          assert CreatedBy(clients, reqs[i]);
          ShapeMistaken(s'[k].cred, reqs[i], u.t);
        } else {
          assert ClearScan(s, u.t);
        }
      }
    }
    forall r | CreatedBy(clients, r) && r.HasStatus() ensures ClearLists(s', r.StatusTriple()) {
      forall k | k in s' && k.ListKey? && k.t != r.StatusTriple() ensures !ListPicked(k.t, r.StatusTriple()) {
        if k !in s {
          var i :| 0 <= i < |reqs| && reqs[i].HasStatus() && reqs[i].IsStatusValid() && reqs[i].StatusTriple() == k.t;
          assert CreatedBy(clients, reqs[i]);
        } else {
          assert ClearLists(s, r.StatusTriple());
        }
      }
    }
  }

  lemma FoundAsBefore(clients: seq<Client>, s: Store, s': Store, touched: set<Key>)
    requires StoreClear(clients, s) && StoreClear(clients, s') && Frame(s, s', touched)
    ensures forall r :: CreatedBy(clients, r) && r.HasStatus() && ListKey(r.StatusTriple()) !in touched ==>
              FindList(r.StatusTriple())(s') == FindList(r.StatusTriple())(s)
  {
    forall r | CreatedBy(clients, r) && r.HasStatus() && ListKey(r.StatusTriple()) !in touched
      ensures FindList(r.StatusTriple())(s') == FindList(r.StatusTriple())(s)
    {
      FindListExact(s, r.StatusTriple());
      FindListExact(s', r.StatusTriple());
    }
  }

  lemma CreatingUpholds(clients: seq<Client>, strict: bool, c: nat, s: Store, done: set<nat>)
    requires WellPosed(clients) && c < |clients| && clients[c].Creating?
    ensures UpholdsAt(Jobs(clients, strict), Terms(clients, strict), c, s, done)
  {
    var jobs, con, reqs := Jobs(clients, strict), Terms(clients, strict), clients[c].reqs;
    var alone := Alone(jobs[c].body, s);
    if con.good(s, done) && c !in done && alone.Committing? {
      var s' := Apply(s, alone.writes);
      CreateCommits(clients, strict, c, s, done);
      CreatedIsGood(clients, strict, c, s, s', done);
      ApplyFrames(s, alone.writes);
      FoundAsBefore(clients, s, s', Keys(alone.writes));
      AllStayReady(clients, strict, s, s');
    }
  }

  lemma CreateCommits(clients: seq<Client>, strict: bool, c: nat, s: Store, done: set<nat>)
    requires WellPosed(clients) && c < |clients| && clients[c].Creating? && c !in done && Terms(clients, strict).good(s, done)
    requires Alone(Body(clients[c].reqs, strict), s).Committing?
    ensures BatchEffect(s, After(Body(clients[c].reqs, strict), s), clients[c].reqs, strict)
  {
    var reqs := clients[c].reqs;
    NewIds(clients, s, done, c);
    forall i | 0 <= i < |reqs| && reqs[i].HasStatus() ensures ClearLists(s, reqs[i].StatusTriple()) { assert CreatedBy(clients, reqs[i]); }
    BatchKeepsGood(s, reqs, strict);
  }

  lemma CreatedIsGood(clients: seq<Client>, strict: bool, c: nat, s: Store, s': Store, done: set<nat>)
    requires WellPosed(clients) && c < |clients| && clients[c].Creating? && Terms(clients, strict).good(s, done)
    requires BatchEffect(s, s', clients[c].reqs, strict)
    ensures Terms(clients, strict).good(s', done + {c}) && StoreClear(clients, s')
    ensures forall t :: Quiet(s, s', t)
  {
    assert clients[c] == Creating(clients[c].reqs);
    BornOfCreate(clients, s, s', done, c, strict);
    RequestedStaysClear(clients, s, s', c);
  }

  lemma BornOfCreate(clients: seq<Client>, s: Store, s': Store, done: set<nat>, c: nat, strict: bool)
    requires Born(clients, s, done) && c < |clients| && clients[c].Creating? && BatchEffect(s, s', clients[c].reqs, strict)
    ensures Born(clients, s', done + {c})
  {
    assert clients[c] == Creating(clients[c].reqs);
    BornGrows(clients, s, s', done, c);
  }

  lemma NewIds(clients: seq<Client>, s: Store, done: set<nat>, c: nat)
    requires WellPosed(clients) && Born(clients, s, done) && c < |clients| && c !in done && clients[c].Creating?
    ensures forall i :: 0 <= i < |clients[c].reqs| ==> CredKey(clients[c].reqs[i].id) !in s
  {
    var reqs := clients[c].reqs;
    forall i | 0 <= i < |reqs| ensures CredKey(reqs[i].id) !in s {
      assert reqs[i].id in Ids(clients[c]);
      forall d | d in done && d < |clients| ensures reqs[i].id !in Ids(clients[d]) {
        if d < c { assert Ids(clients[d]) !! Ids(clients[c]); } else { assert Ids(clients[c]) !! Ids(clients[d]); }
      }
    }
  }

  lemma UpdaterStaysReady(client: Client, strict: bool, s: Store, s': Store)
    requires JobOf(client, strict).ready(s) && forall t :: Quiet(s, s', t)
    ensures JobOf(client, strict).ready(s')
  {
    if client.Updating? {
      forall i | 0 <= i < |client.updates| ensures Holds(s', client.updates[i]) {
        assert Quiet(s, s', client.updates[i].t);
        assert CredKey(client.updates[i].id) in Bearers(s, client.updates[i].t);
      }
    }
  }

  lemma AllStayReady(clients: seq<Client>, strict: bool, s: Store, s': Store)
    requires forall t :: Quiet(s, s', t)
    ensures forall d :: 0 <= d < |clients| && JobOf(clients[d], strict).ready(s) ==> JobOf(clients[d], strict).ready(s')
  {
    forall d | 0 <= d < |clients| && JobOf(clients[d], strict).ready(s) ensures JobOf(clients[d], strict).ready(s') { UpdaterStaysReady(clients[d], strict, s, s'); }
  }

  lemma BornGrows(clients: seq<Client>, s: Store, s': Store, done: set<nat>, c: nat)
    requires Born(clients, s, done) && c < |clients|
    requires forall id :: CredKey(id) in s' <==> CredKey(id) in s || id in Ids(clients[c])
    requires forall t, id :: CredKey(id) in Bearers(s', t) <==> CredKey(id) in Bearers(s, t) || id in IssuedBy(clients[c], t)
    ensures Born(clients, s', done + {c})
  {
    forall t, id ensures id in Issued(clients, done + {c}, t) <==> id in Issued(clients, done, t) || id in IssuedBy(clients[c], t) {
    }
    forall id
      ensures (exists d :: d in done + {c} && d < |clients| && id in Ids(clients[d])) <==>
              (exists d :: d in done && d < |clients| && id in Ids(clients[d])) || id in Ids(clients[c])
    {
      if id in Ids(clients[c]) { assert c in done + {c}; }
      if d :| d in done && d < |clients| && id in Ids(clients[d]) { assert d in done + {c}; }
    }
  }

  lemma MovedStaysClear(clients: seq<Client>, s: Store, s': Store)
    requires StoreClear(clients, s) && FlagsMoved(s, s') && CredsPure(s)
    ensures StoreClear(clients, s')
  {
    forall u | UpdatedBy(clients, u) ensures ClearScan(s', u.t) {
      assert ClearScan(s, u.t);
      forall k | k in s' && k.CredKey? && s'[k].CredV? ensures !Mistakable(s'[k].cred, u.t) {
        assert k == CredKey(k.id) && SameButFlags(s[k], s'[k]) && s'[k].cred.Name() == s[k].cred.Name();
      }
    }
    forall r | CreatedBy(clients, r) && r.HasStatus() ensures ClearLists(s', r.StatusTriple()) {
      assert ClearLists(s, r.StatusTriple());
      forall k | k in s' && k.ListKey? ensures k in s { assert k == ListKey(k.t); }
    }
  }

  lemma UpdatingUpholds(clients: seq<Client>, strict: bool, c: nat, s: Store, done: set<nat>)
    requires WellPosed(clients) && c < |clients| && clients[c].Updating?
    ensures UpholdsAt(Jobs(clients, strict), Terms(clients, strict), c, s, done)
  {
    var jobs, con, updates := Jobs(clients, strict), Terms(clients, strict), clients[c].updates;
    var alone := Alone(jobs[c].body, s);
    if con.good(s, done) && c !in done && jobs[c].ready(s) && alone.Committing? {
      var s' := Apply(s, alone.writes);
      assert s' == After(UpdateBody(updates), s);
      WrittenByUpdates(s, updates);
      BatchMoves(s, s', updates, strict);
      UpdatedIsGood(clients, strict, c, s, s', done);
      ApplyFrames(s, alone.writes);
      UpdatedIsSafe(clients, strict, c, s, s', Keys(alone.writes));
      forall d | 0 <= d < |jobs| && jobs[d].ready(s) ensures jobs[d].ready(s') { FlagsKeepReady(clients[d], strict, s, s'); }
    }
  }

  lemma UpdatedIsGood(clients: seq<Client>, strict: bool, c: nat, s: Store, s': Store, done: set<nat>)
    requires WellPosed(clients) && c < |clients| && clients[c].Updating? && Terms(clients, strict).good(s, done)
    requires AllHold(s, clients[c].updates) && BatchUpdated(s, s', clients[c].updates) && FlagsMoved(s, s')
    ensures Terms(clients, strict).good(s', done + {c})
  {
    var updates := clients[c].updates;
    forall i | 0 <= i < |updates| ensures ClearScan(s, updates[i].t) { assert UpdatedBy(clients, updates[i]); }
    UpdatesKeepGood(s, s', updates, strict);
    MovedStaysClear(clients, s, s');
    forall t ensures Bearers(s', t) == Bearers(s, t) { BearersStay(s, s', t); }
    BornGrows(clients, s, s', done, c);
  }

  lemma UpdatedIsSafe(clients: seq<Client>, strict: bool, c: nat, s: Store, s': Store, touched: set<Key>)
    requires c < |clients| && clients[c].Updating? && Good(s, strict) && StoreClear(clients, s) && FlagsMoved(s, s')
    requires AllHold(s, clients[c].updates) && BatchUpdated(s, s', clients[c].updates) && Frame(s, s', touched)
    requires forall t :: Touches(s, clients[c].updates, ListKey(t)) ==> ListKey(t) in touched
    ensures Safe(clients, s, s', touched)
  {
    MovedStaysClear(clients, s, s');
    FoundAsBefore(clients, s, s', touched);
    forall u | UpdatedBy(clients, u) && ListKey(u.t) !in touched ensures Quiet(s, s', u.t) {
      assert !Touches(s, clients[c].updates, ListKey(u.t));
      UpdatesAreQuiet(s, s', clients[c].updates, u.t, strict);
    }
  }

  lemma FlagsKeepReady(client: Client, strict: bool, s: Store, s': Store)
    requires JobOf(client, strict).ready(s) && FlagsMoved(s, s')
    ensures JobOf(client, strict).ready(s')
  {
    if client.Updating? {
      forall i | 0 <= i < |client.updates| ensures Holds(s', client.updates[i]) {
        assert SameButFlags(s[CredKey(client.updates[i].id)], s'[CredKey(client.updates[i].id)]);
      }
    }
  }

  lemma StatusClientsSound(clients: seq<Client>, strict: bool)
    requires WellPosed(clients)
    ensures Sound(Jobs(clients, strict), Terms(clients, strict))
  {
    var jobs, con := Jobs(clients, strict), Terms(clients, strict);
    forall c | 0 <= c < |jobs| ensures Insulated(jobs[c], con) && Upholds(jobs, con, c) {
      match clients[c]
      case Creating(_) =>
        CreatingInsulated(clients, c, strict);
        forall s, done ensures UpholdsAt(jobs, con, c, s, done) { CreatingUpholds(clients, strict, c, s, done); }
      case Updating(_) =>
        UpdatingInsulated(clients, c, strict);
        forall s, done ensures UpholdsAt(jobs, con, c, s, done) { UpdatingUpholds(clients, strict, c, s, done); }
    }
  }

  // ---- Main results ----

  ghost predicate Reaches(clients: seq<Client>, strict: bool, steps: seq<Step>) {
    WellPosed(clients) && IsRun(Jobs(clients, strict), Start(Jobs(clients, strict), map[]), steps)
  }

  ghost function Final(clients: seq<Client>, strict: bool, steps: seq<Step>): World<Key, Value, Reply, Response>
    requires Reaches(clients, strict, steps)
  {
    End(Jobs(clients, strict), Start(Jobs(clients, strict), map[]), steps)
  }

  /** Concurrent creates and updates are serialisable although updates scan unwatched keys. */
  lemma StatusSerialisable(clients: seq<Client>, strict: bool, steps: seq<Step>)
    requires Reaches(clients, strict, steps)
    ensures
      var w := Final(clients, strict, steps);
      && History(Jobs(clients, strict), Terms(clients, strict), map[], w)
      && Good(w.store, strict) && Born(clients, w.store, Members(w.log)) && StoreClear(clients, w.store)
  {
    var s0: Store := map[];
    StatusClientsSound(clients, strict);
    forall t ensures Bearers(s0, t) == {} && TripleGood(s0, strict, t) { }
    assert Good(s0, strict);
    assert Born(clients, s0, {});
    Serialisable(Jobs(clients, strict), Terms(clients, strict), s0, steps);
  }

  /** Every list is exactly the index set of the credentials that carry its flag. */
  lemma StatusListAgrees(clients: seq<Client>, strict: bool, steps: seq<Step>, t: Triple)
    requires Reaches(clients, strict, steps) && ListKey(t) in Final(clients, strict, steps).store
    ensures Agrees(Final(clients, strict, steps).store, t)
  {
    StatusSerialisable(clients, strict, steps);
    assert TripleGood(Final(clients, strict, steps).store, strict, t);
  }

  /** All holders of a triple's indexes name the one list there is, and the indexes lie in
      1..131072. They are pairwise distinct if and only if no more than that many have been handed out; a run that reports exhaustion never hands out as many. */
  lemma UniqueIndexes(clients: seq<Client>, strict: bool, steps: seq<Step>, t: Triple)
    requires Reaches(clients, strict, steps)
    ensures
      var s := Final(clients, strict, steps).store;
      && (strict ==> |Bearers(s, t)| <= 131071)
      && (forall k :: k in Bearers(s, t) ==>
            ListKey(t) in s && s[ListKey(t)].ListV? && s[k].cred.status.value.listID == s[ListKey(t)].list.id)
      && (forall k :: k in Bearers(s, t) ==> 1 <= IndexAt(s, k) <= 131072)
      && (Distinct(s, t) <==> |Bearers(s, t)| <= 131072)
  {
    StatusSerialisable(clients, strict, steps);
    IndexesUnique(Final(clients, strict, steps).store, strict, t);
  }

  lemma IndexesUnique(s: Store, strict: bool, t: Triple)
    requires TripleGood(s, strict, t)
    ensures forall k :: k in Bearers(s, t) ==> 1 <= IndexAt(s, k) <= BIT_STRING_LENGTH
    ensures Distinct(s, t) <==> |Bearers(s, t)| <= BIT_STRING_LENGTH
  {
    if ListKey(t) in s {
      var pool, n := s[PoolKey(t)].pool, Min(|Bearers(s, t)|, BIT_STRING_LENGTH);
      forall k | k in Bearers(s, t) ensures 1 <= IndexAt(s, k) <= BIT_STRING_LENGTH {
        var i :| 0 <= i < n && pool[..n][i] == IndexAt(s, k);
        assert pool[..n][i] == pool[i];
      }
      if Distinct(s, t) { DistinctFit(s, t, Bearers(s, t), BIT_STRING_LENGTH); }
    }
  }

  /** No more than n keys hold distinct indexes in 1..n. */
  lemma {:induction false} DistinctFit(s: Store, t: Triple, ks: set<Key>, n: nat)
    requires Distinct(s, t) && ks <= Bearers(s, t) && forall k :: k in ks ==> 1 <= IndexAt(s, k) <= n
    ensures |ks| <= n
    decreases n
  {
    if k :| k in ks && IndexAt(s, k) == n {
      DistinctFit(s, t, ks - {k}, n - 1);
    } else if n > 0 {
      DistinctFit(s, t, ks, n - 1);
    } else {
      assert ks == {};
    }
  }

  /** Before the limit the cursor counts the status-bearing requests that committed for the triple: an
      aborted create consumes no index and a committed one exactly one. */
  lemma IndexConservation(clients: seq<Client>, strict: bool, steps: seq<Step>, t: Triple)
    requires Reaches(clients, strict, steps)
    ensures
      var w := Final(clients, strict, steps);
      var issued := Issued(clients, Members(w.log), t);
      && (ListKey(t) !in w.store ==> issued == {})
      && (ListKey(t) in w.store && |issued| <= BIT_STRING_LENGTH - 1 ==>
            CursorKey(t) in w.store && w.store[CursorKey(t)] == CursorV(|issued|))
  {
    StatusSerialisable(clients, strict, steps);
    var w := Final(clients, strict, steps);
    var issued := Issued(clients, Members(w.log), t);
    assert TripleGood(w.store, strict, t);
    forall id ensures id in issued <==> CredKey(id) in Bearers(w.store, t) { }
    assert Bearers(w.store, t) == KeysOf(issued) by {
      forall k | k in Bearers(w.store, t) ensures k in KeysOf(issued) { assert k == CredKey(k.id); }
    }
    KeysOfSize(issued);
  }

  ghost function KeysOf(ids: set<string>): set<Key> { set id | id in ids :: CredKey(id) }

  lemma {:induction false} KeysOfSize(ids: set<string>)
    ensures |KeysOf(ids)| == |ids|
    decreases |ids|
  {
    if ids != {} {
      var id :| id in ids;
      KeysOfSize(ids - {id});
      assert KeysOf(ids) == KeysOf(ids - {id}) + {CredKey(id)};
    }
  }
}
