/** The credential status allocator and the status lists of the credential service (W3C Verifiable
    Credentials Status List v2021, sections "StatusList2021Entry" and "Bitstring Generation
    Algorithm"). */
module Status {
  import opened Wrappers
  import opened Kernel
  import ScanKeys

  /** The number of indexes that a status list has. */
  const BIT_STRING_LENGTH := 8 * 1024 * 16

  datatype Purpose = Revocation | Suspension

  datatype Triple = Triple(issuer: string, schema: string, purpose: Purpose)
  {
    /** What the list's key string is made of. */
    function Name(): ScanKeys.ListName {
      ScanKeys.ListName(issuer, schema, match purpose case Revocation => "revocation" case Suspension => "suspension")
    }
  }

  datatype Entry = Entry(purpose: Purpose, index: int, listID: string)

  datatype Cred = Cred(id: string, issuer: string, subject: string, schema: string, status: Option<Entry>, revoked: bool, suspended: bool)
  {
    /** What the credential's key string is made of. */
    function Name(): ScanKeys.CredentialName { ScanKeys.CredentialName(id, issuer, subject, schema) }
  }

  datatype BitList = BitList(id: string, purpose: Purpose, bits: set<int>)

  /** A credential's key string begins with its id, which is a UUID and no other's prefix; the other
      keys carry the triple's key string. */
  datatype Key = ListKey(t: Triple) | PoolKey(t: Triple) | CursorKey(t: Triple) | CredKey(id: string)

  datatype Value = ListV(list: BitList) | PoolV(pool: seq<int>) | CursorV(cursor: int) | CredV(cred: Cred)

  type Store = map<Key, Value>

  datatype Reply = Found(v: Option<Value>) | Several | Indexes(ix: set<int>)

  datatype Response = Created(cred: Cred) | Updated(revoked: bool, suspended: bool)

  function Lookup(k: Key): Store -> Reply {
    (s: Store) => Found(if k in s then Some(s[k]) else None)
  }

  // ---- Finding records by taking key strings apart ----

  /** The scan for a triple's list takes a stored list's key. */
  predicate ListPicked(t': Triple, t: Triple) { ScanKeys.ListMatches(ScanKeys.StatusListKey(t'.Name()), t.Name()) }

  /** The scan for an issuer and schema takes a stored credential's key. */
  predicate CredPicked(c: Cred, t: Triple) { ScanKeys.CredentialMatches(ScanKeys.PrefixKey(c.Name()), t.issuer, t.schema) }

  function ListsFound(s: Store, t: Triple): set<Key> {
    set k | k in s && k.ListKey? && ListPicked(k.t, t)
  }

  /** GetStatusListCredentialKeyData: the list whose key the scan takes, if it takes just one. */
  ghost function FindList(t: Triple): Store -> Reply {
    (s: Store) =>
      var found := ListsFound(s, t);
      if found == {} then Found(None) else if |found| > 1 then Several else var k :| k in found; Found(Some(s[k]))
  }

  // ---- Creating credentials ----

  /** What the caller asks for, and what the service draws for itself: the credential's and a new
      list's uuid, a shuffle of 1..BIT_STRING_LENGTH, and whether the SDK steps (schema, builder,
      signatures) succeed. */
  datatype CreateRequest = CreateRequest(issuer: string, subject: string, schema: string, revocable: bool, suspendable: bool,
                                         id: string, listID: string, shuffle: seq<int>, builds: bool)
  {
    predicate HasStatus() { suspendable || revocable }

    predicate IsStatusValid() { !(revocable && suspendable) }

    function StatusTriple(): Triple { Triple(issuer, schema, if suspendable then Suspension else Revocation) }

    function NewCred(status: Option<Entry>): Cred { Cred(id, issuer, subject, schema, status, false, false) }
  }

  function StoreCred(req: CreateRequest, status: Option<Entry>, writes: seq<(Key, Value)>): Action<Key, Value, Reply, Response> {
    if !req.builds then Abort("could not build credential")
    else Commit(Created(req.NewCred(status)), writes + [(CredKey(req.id), CredV(req.NewCred(status)))])
  }

  /** createCredential with createStatusListEntryForCredential inside it. `strict` says whether
      wrapping a nil error yields an error: the exhaustion check does that, and the SDK function
      it calls is not part of the repository. */
  ghost function CreateAct(req: CreateRequest, strict: bool, replies: seq<Reply>): Action<Key, Value, Reply, Response> {
    if !req.IsStatusValid() then Abort("credential may have at most one status")
    else if !req.HasStatus() then StoreCred(req, None, [])
    else
      var t := req.StatusTriple();
      if |replies| == 0 then Ask(FindList(t))
      else match replies[0]
        case Found(None) =>
          if req.shuffle == [] then Abort("index out of range")
          else StoreCred(req, Some(Entry(t.purpose, req.shuffle[0], req.listID)),
                         [(PoolKey(t), PoolV(req.shuffle)), (CursorKey(t), CursorV(1)),
                          (ListKey(t), ListV(BitList(req.listID, t.purpose, {})))])
        case Found(Some(ListV(list))) => AllocateAct(req, strict, t, list, replies[1..])
        case _ => Abort("unmarshalling credential")
  }

  /** GetNextStatusListRandomIndex, then IncrementStatusListIndexTx with its own read of the cursor. */
  function AllocateAct(req: CreateRequest, strict: bool, t: Triple, list: BitList, replies: seq<Reply>): Action<Key, Value, Reply, Response> {
    if |replies| == 0 then Ask(Lookup(PoolKey(t)))
    else if !(replies[0].Found? && replies[0].v.Some? && replies[0].v.value.PoolV? && replies[0].v.value.pool != []) then
      Abort("could not get unique numbers from db")
    else if |replies| < 3 then Ask(Lookup(CursorKey(t)))
    else match (replies[1], replies[2])
      case (Found(Some(CursorV(current))), Found(Some(CursorV(cursor)))) =>
        var pool := replies[0].v.value.pool;
        if !(0 <= current < |pool|) then Abort("index out of range")
        else
          var entry := Some(Entry(t.purpose, pool[current], list.id));
          if cursor >= BIT_STRING_LENGTH - 1 then
            if strict then Abort("no more indexes available for status list index")
            else StoreCred(req, entry, [])
          else StoreCred(req, entry, [(CursorKey(t), CursorV(cursor + 1))])
      case _ => Abort("unmarshalling unique numbers")
  }

  ghost function CreateScript(req: CreateRequest, strict: bool): Script<Key, Value, Reply, Response> {
    Script(4, (replies: seq<Reply>) => CreateAct(req, strict, replies))
  }

  // ---- Updating a status ----

  /** `t` is the triple that the caller's first read found in the credential; its list key is
      the one watched. */
  datatype UpdateRequest = UpdateRequest(id: string, revoked: bool, suspended: bool, t: Triple, builds: bool)
  {
    /** A request that sets the flag of the credential's own purpose. */
    predicate SetsOwnFlag() { revoked == (t.purpose == Revocation) && suspended == (t.purpose == Suspension) }

    predicate Clears() { !revoked && !suspended }
  }

  predicate Flagged(c: Cred, purpose: Purpose) {
    match purpose case Revocation => c.revoked case Suspension => c.suspended
  }

  predicate IsMarked(v: Value, t: Triple) {
    v.CredV? && v.cred.status.Some? && Flagged(v.cred, t.purpose) && CredPicked(v.cred, t)
  }

  /** The flagged credentials that the scan takes, whatever list they belong to. */
  function Marked(s: Store, t: Triple): set<(string, int)> {
    set k | k in s && k.CredKey? && IsMarked(s[k], t) :: (k.id, s[k].cred.status.value.index)
  }

  function Others(s: Store, t: Triple, id: string): set<int> {
    set m | m in Marked(s, t) && m.0 != id :: m.1
  }

  function ScanOthers(req: UpdateRequest): Store -> Reply {
    (s: Store) => Indexes(
      if req.Clears() then {}
      else Others(s, Triple(req.t.issuer, req.t.schema, if req.suspended then Suspension else Revocation), req.id))
  }

  /** updateCredentialStatusBusinessLogic with updateCredentialStatus inside it. */
  function UpdateAct(req: UpdateRequest, replies: seq<Reply>): Action<Key, Value, Reply, Response> {
    if req.suspended && req.revoked then Abort("cannot update both suspended and revoked status")
    else if |replies| == 0 then Ask(Lookup(CredKey(req.id)))
    else match replies[0]
      case Found(Some(CredV(got))) =>
        if got.revoked == req.revoked && got.suspended == req.suspended then Commit(Updated(got.revoked, got.suspended), [])
        else if got.status.None? then Abort("no credential status")
        else if |replies| == 1 then Ask(ScanOthers(req))
        else if !replies[1].Indexes? || !req.builds then Abort("could not generate status list")
        else
          var bits := replies[1].ix + if req.Clears() then {} else {got.status.value.index};
          var list := BitList(got.status.value.listID, if req.suspended then Suspension else Revocation, bits);
          Commit(Updated(req.revoked, req.suspended),
                 [(CredKey(req.id), CredV(got.(revoked := req.revoked, suspended := req.suspended))), (ListKey(req.t), ListV(list))])
      case _ => Abort("credential not found")
  }

  function UpdateScript(req: UpdateRequest): Script<Key, Value, Reply, Response> {
    Script(2, (replies: seq<Reply>) => UpdateAct(req, replies))
  }

  // ---- What holds of a store ----

  function TripleOf(c: Cred): Triple
    requires c.status.Some?
  {
    Triple(c.issuer, c.schema, c.status.value.purpose)
  }

  predicate Bears(v: Value, t: Triple) { v.CredV? && v.cred.status.Some? && TripleOf(v.cred) == t }

  /** The keys of the status-bearing credentials of a triple. */
  function Bearers(s: Store, t: Triple): set<Key> {
    set k | k in s && k.CredKey? && Bears(s[k], t)
  }

  ghost predicate IsShuffle(pool: seq<int>) {
    && |pool| == BIT_STRING_LENGTH
    && (forall i :: 0 <= i < |pool| ==> 1 <= pool[i] <= BIT_STRING_LENGTH)
    && (forall i, j :: 0 <= i < j < |pool| ==> pool[i] != pool[j])
  }

  /** Pool, cursor and list of a triple exist together and are well formed. */
  ghost predicate ListExists(s: Store, t: Triple) {
    && ListKey(t) in s && s[ListKey(t)].ListV? && s[ListKey(t)].list.purpose == t.purpose
    && PoolKey(t) in s && s[PoolKey(t)].PoolV? && IsShuffle(s[PoolKey(t)].pool)
    && CursorKey(t) in s && s[CursorKey(t)].CursorV? && 1 <= s[CursorKey(t)].cursor <= BIT_STRING_LENGTH - 1
  }

  function IndexAt(s: Store, k: Key): int
    requires k in s && s[k].CredV? && s[k].cred.status.Some?
  {
    s[k].cred.status.value.index
  }

  function Min(a: int, b: int): int { if a < b then a else b }

  predicate Distinct(s: Store, t: Triple) {
    forall k, k' :: k in Bearers(s, t) && k' in Bearers(s, t) && k != k' ==> IndexAt(s, k) != IndexAt(s, k')
  }

  /** The cursor counts the bearers up to the limit, and they hold indexes from the part of the pool
      that has been handed out, pairwise distinct ones as long as there are any. */
  ghost predicate Allocated(s: Store, t: Triple)
    requires ListExists(s, t)
  {
    && s[CursorKey(t)].cursor == Min(|Bearers(s, t)|, BIT_STRING_LENGTH - 1)
    && (forall k :: k in Bearers(s, t) ==> IndexAt(s, k) in s[PoolKey(t)].pool[..Min(|Bearers(s, t)|, BIT_STRING_LENGTH)])
    && (|Bearers(s, t)| <= BIT_STRING_LENGTH ==> Distinct(s, t))
  }

  /** The list's bits are exactly the indexes of the triple's credentials that carry the flag, and
      it is a list of the triple's purpose. */
  ghost predicate Agrees(s: Store, t: Triple) {
    && ListKey(t) in s && s[ListKey(t)].ListV? && s[ListKey(t)].list.purpose == t.purpose
    && s[ListKey(t)].list.bits == set k | k in Bearers(s, t) && Flagged(s[k].cred, t.purpose) :: IndexAt(s, k)
  }

  ghost predicate TripleGood(s: Store, strict: bool, t: Triple) {
    if ListKey(t) in s then
      && ListExists(s, t)
      && Agrees(s, t)
      && (forall k :: k in Bearers(s, t) ==> s[k].cred.status.value.listID == s[ListKey(t)].list.id)
      && Allocated(s, t)
      && (strict ==> |Bearers(s, t)| <= BIT_STRING_LENGTH - 1)
    else Bearers(s, t) == {}
  }

  /** Every credential is stored under its own id and carries no flag but its own purpose's. */
  ghost predicate CredsPure(s: Store) {
    forall k :: k in s && k.CredKey? ==>
      && s[k].CredV? && s[k].cred.id == k.id
      && (s[k].cred.revoked ==> s[k].cred.status.Some? && s[k].cred.status.value.purpose == Revocation)
      && (s[k].cred.suspended ==> s[k].cred.status.Some? && s[k].cred.status.value.purpose == Suspension)
  }

  ghost predicate Good(s: Store, strict: bool) {
    CredsPure(s) && forall t :: TripleGood(s, strict, t)
  }

  ghost predicate SameAt(s: Store, s': Store, k: Key) { (k in s' <==> k in s) && (k in s ==> s'[k] == s[k]) }

  /** A credential of another triple that the scan for t's list would count, once it is flagged. */
  predicate Mistakable(c: Cred, t: Triple) {
    c.status.Some? && c.status.value.purpose == t.purpose && TripleOf(c) != t && CredPicked(c, t)
  }

  /** No credential in the store can be mistaken for one of the triple. */
  predicate ClearScan(s: Store, t: Triple) {
    forall k :: k in s && k.CredKey? && s[k].CredV? ==> !Mistakable(s[k].cred, t)
  }

  /** No list in the store but its own is taken by the scan for a triple's list. */
  predicate ClearLists(s: Store, t: Triple) {
    forall k :: k in s && k.ListKey? && k.t != t ==> !ListPicked(k.t, t)
  }

  /** A commit leaves the triple's bearers, and what the scan for it finds, alone. */
  ghost predicate Quiet(s: Store, s': Store, t: Triple) {
    && (forall k :: k in Bearers(s, t) ==> k in s' && s'[k] == s[k])
    && Marked(s', t) == Marked(s, t)
  }
}
