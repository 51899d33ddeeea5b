/** Private keys and their public halves: two records in two namespaces, written one after the
    other, and the batches of DIDs that are stored with them. */
module Keystore {
  import opened Wrappers
  import opened Kernel
  import opened Execute

  /** Key material that may not be a key of its type. */
  datatype Material = Secret(n: nat) | Unreadable

  datatype PublicKey = PublicKey(keyType: string, n: nat)

  datatype StoredKey = StoredKey(id: string, controller: string, keyType: string, material: Material, revoked: bool, revokedAt: string, createdAt: string)
  {
    function Public(): Option<PublicKey> {
      match material case Secret(n) => Some(PublicKey(keyType, n)) case Unreadable => None
    }
  }

  datatype KeyDetails = KeyDetails(id: string, controller: string, keyType: string, revoked: bool, revokedAt: string, createdAt: string, publicKey: PublicKey)

  datatype Document = Document(id: string, keyID: string, key: PublicKey)

  datatype Key = Private(id: string) | Public(id: string) | Did(id: string) | Temporary(id: string)

  datatype Value = PrivateV(key: StoredKey) | PublicV(publicKey: PublicKey) | DidV(document: Document) | Starting

  type Store = map<Key, Value>

  function Get(s: Store, k: Key): Option<Value> { if k in s then Some(s[k]) else None }

  /** The public record is the public half of the private one. */
  predicate Paired(s: Store, id: string) {
    Private(id) in s ==>
      && s[Private(id)].PrivateV? && s[Private(id)].key.id == id && s[Private(id)].key.Public().Some?
      && Get(s, Public(id)) == Some(PublicV(s[Private(id)].key.Public().value))
  }

  predicate HasPrivate(s: Store, id: string) { Private(id) in s && s[Private(id)].PrivateV? }

  /** The two writes of StoreKey, in their order. */
  function StoreWrites(key: StoredKey): Result<seq<(Key, Value)>> {
    if key.id == "" then Err("could not store key without an ID")
    else match key.Public()
      case None => Err("reconstructing private key from input")
      case Some(public) => Ok([(Public(key.id), PublicV(public)), (Private(key.id), PrivateV(key))])
  }

  /** StoreKey keeps every pair; cut short after its first write, it leaves the pair broken exactly
      when there was a private key with another public half. */
  lemma StoreKeepsPairs(s: Store, key: StoredKey, id: string)
    requires StoreWrites(key).Ok? && Paired(s, id) && Paired(s, key.id)
    ensures var writes := StoreWrites(key).value;
      && |writes| == 2
      && Paired(Apply(s, writes), id) && Paired(Apply(s, writes), key.id) && Private(key.id) in Apply(s, writes)
      && (id != key.id ==> Paired(Apply(s, writes[..1]), id))
      && (Paired(Apply(s, writes[..1]), key.id) <==> Private(key.id) in s ==> s[Private(key.id)].key.Public() == key.Public())
  {
    var a, b := (Public(key.id), PublicV(key.Public().value)), (Private(key.id), PrivateV(key));
    assert [a, b][..1] == [a];
    ApplyFew(s, a, b, a, b);
  }

  class KeyStorage {
    var data: Store

    constructor ()
      ensures data == map[]
    {
      data := map[];
    }

    method StoreKey(key: StoredKey) returns (r: Result<()>)
      modifies this
      ensures r.Ok? <==> StoreWrites(key).Ok?
      ensures data == if r.Ok? then Apply(old(data), StoreWrites(key).value) else old(data)
      ensures r.Ok? ==> Paired(data, key.id) && Get(data, Private(key.id)) == Some(PrivateV(key))
    {
      if key.id == "" {
        return Err("could not store key without an ID");
      }
      if key.Public().None? {
        return Err("reconstructing private key from input");
      }
      var a, b := (Public(key.id), PublicV(key.Public().value)), (Private(key.id), PrivateV(key));
      ApplyFew(data, a, b, a, b);
      data := data[Public(key.id) := PublicV(key.Public().value)];
      data := data[Private(key.id) := PrivateV(key)];
      r := Ok(());
    }

    method GetKey(id: string) returns (r: Result<StoredKey>)
      ensures match Get(data, Private(id))
              case Some(PrivateV(key)) => r == Ok(key)
              case _ => r.Err?
    {
      if Private(id) !in data {
        return Err("could not find key details for key");
      }
      if !data[Private(id)].PrivateV? {
        return Err("unmarshalling stored key");
      }
      r := Ok(data[Private(id)].key);
    }

    /** Sets the flag and the time and stores the key again, under the id that the record itself
        carries; a key pair stays as it was. */
    method RevokeKey(id: string, now: string) returns (r: Result<()>)
      modifies this
      ensures r.Ok? <==> HasPrivate(old(data), id) && StoreWrites(old(data)[Private(id)].key).Ok?
      ensures r.Ok? ==> data == Apply(old(data), StoreWrites(old(data)[Private(id)].key.(revoked := true, revokedAt := now)).value)
      ensures r.Ok? && Paired(old(data), id) ==>
        && data == old(data)[Private(id) := PrivateV(old(data)[Private(id)].key.(revoked := true, revokedAt := now))]
        && Paired(data, id)
      ensures r.Err? ==> data == old(data)
    {
      var key := GetKey(id);
      if key.Err? {
        return Err(key.err);
      }
      var revoked := key.value.(revoked := true, revokedAt := now);
      if StoreWrites(revoked).Ok? {
        var a, b := (Public(revoked.id), PublicV(revoked.Public().value)), (Private(revoked.id), PrivateV(revoked));
        ApplyFew(data, a, b, a, b);
      }
      r := StoreKey(revoked);
    }

    /** The details show the public record, which is the public half of a paired key, and tell
        whether, but not when, the key was revoked. */
    method GetKeyDetails(id: string) returns (r: Result<KeyDetails>)
      ensures r.Ok? <==> HasPrivate(data, id) && Public(id) in data && data[Public(id)].PublicV?
      ensures r.Ok? ==>
        var key := data[Private(id)].key;
        && data[Public(id)] == PublicV(r.value.publicKey)
        && (Paired(data, id) ==> key.Public() == Some(r.value.publicKey))
        && r.value.revoked == key.revoked && r.value.revokedAt == ""
        && r.value.id == key.id && r.value.controller == key.controller && r.value.keyType == key.keyType && r.value.createdAt == key.createdAt
    {
      var stored := GetKey(id);
      if stored.Err? {
        return Err(stored.err);
      }
      var key := stored.value;
      var public := Get(data, Public(id));
      if public.None? || !public.value.PublicV? {
        return Err("unmarshalling public key");
      }
      r := Ok(KeyDetails(key.id, key.controller, key.keyType, key.revoked, "", key.createdAt, public.value.publicKey));
    }
  }

  // ---- Batches of DIDs ----

  /** A request with the key that will be generated for it; not every type can be generated, and not
      every generated type can be stored. */
  datatype DidRequest = DidRequest(keyType: string, generated: nat, generates: bool, supported: bool, now: string)

  /** How a did:key and its verification method are named after the public key. */
  datatype Naming = Naming(did: PublicKey -> string, keyID: PublicKey -> string)

  ghost predicate Distinguishes(naming: Naming) {
    (forall k, k' :: naming.did(k) == naming.did(k') ==> k == k') && (forall k, k' :: naming.keyID(k) == naming.keyID(k') ==> k == k')
    && forall k :: naming.keyID(k) != ""
  }

  function DocumentOf(naming: Naming, req: DidRequest): Document {
    var key := PublicKey(req.keyType, req.generated);
    Document(naming.did(key), naming.keyID(key), key)
  }

  function KeyOf(naming: Naming, req: DidRequest): StoredKey {
    var document := DocumentOf(naming, req);
    StoredKey(document.keyID, document.id, req.keyType, Secret(req.generated), false, "", req.now)
  }

  predicate Creatable(naming: Naming, req: DidRequest) {
    req.generates && req.supported && KeyOf(naming, req).id != ""
  }

  function CreateWrites(naming: Naming, req: DidRequest): seq<(Key, Value)> {
    var document, key := DocumentOf(naming, req), KeyOf(naming, req);
    [(Did(document.id), DidV(document)), (Public(key.id), PublicV(document.key)), (Private(key.id), PrivateV(key))]
  }

  function BatchWrites(naming: Naming, reqs: seq<DidRequest>): seq<(Key, Value)>
    decreases |reqs|
  {
    if reqs == [] then [] else BatchWrites(naming, reqs[..|reqs| - 1]) + CreateWrites(naming, reqs[|reqs| - 1])
  }

  /** The DID is there, named after the generated key, and under the key id a private key of the DID that
      has the generated material and has not been revoked, with its public half. */
  predicate Served(naming: Naming, s: Store, req: DidRequest) {
    var key := PublicKey(req.keyType, req.generated);
    var did, keyID := naming.did(key), naming.keyID(key);
    && Get(s, Did(did)) == Some(DidV(Document(did, keyID, key)))
    && Get(s, Public(keyID)) == Some(PublicV(key))
    && Private(keyID) in s && s[Private(keyID)].PrivateV?
    && s[Private(keyID)].key == StoredKey(keyID, did, req.keyType, Secret(req.generated), false, "", s[Private(keyID)].key.createdAt)
  }

  /** So the key is paired. */
  lemma ServedIsPaired(naming: Naming, s: Store, req: DidRequest)
    requires Served(naming, s, req)
    ensures Paired(s, naming.keyID(PublicKey(req.keyType, req.generated)))
  {
  }

  lemma CreateServes(naming: Naming, s: Store, req: DidRequest)
    ensures
      var s', document := Apply(s, CreateWrites(naming, req)), DocumentOf(naming, req);
      && Served(naming, s', req) && s'[Private(document.keyID)].key.createdAt == req.now
      && s' == s[Did(document.id) := DidV(document)][Public(document.keyID) := PublicV(document.key)][Private(document.keyID) := PrivateV(KeyOf(naming, req))]
  {
    var w := CreateWrites(naming, req);
    assert w[1..] == [w[1], w[2]] && w[1..][1..] == [w[2]] && w[1..][1..][1..] == [];
    assert Apply(s, w) == Apply(s[w[0].0 := w[0].1], w[1..]);
    ApplyFew(s[w[0].0 := w[0].1], w[1], w[2], w[1], w[2]);
  }

  /** After a batch every request is served, whatever the store held and whatever the others were. */
  lemma {:induction false} BatchServesAll(naming: Naming, s: Store, reqs: seq<DidRequest>, req: DidRequest)
    requires Distinguishes(naming) && req in reqs
    ensures Served(naming, Apply(s, BatchWrites(naming, reqs)), req)
    decreases |reqs|
  {
    var n := |reqs| - 1;
    var before := Apply(s, BatchWrites(naming, reqs[..n]));
    ApplyConcat(s, BatchWrites(naming, reqs[..n]), CreateWrites(naming, reqs[n]));
    CreateServes(naming, before, reqs[n]);
    if req != reqs[n] {
      assert req in reqs[..n];
      BatchServesAll(naming, s, reqs[..n], req);
      StillServed(naming, before, reqs[n], req);
    }
  }

  lemma StillServed(naming: Naming, s: Store, last: DidRequest, req: DidRequest)
    requires Distinguishes(naming) && Served(naming, s, req)
    ensures Served(naming, Apply(s, CreateWrites(naming, last)), req)
  {
    CreateServes(naming, s, last);
    var mine, other := PublicKey(req.keyType, req.generated), PublicKey(last.keyType, last.generated);
    assert naming.did(mine) == naming.did(other) || naming.keyID(mine) == naming.keyID(other) ==> mine == other;
  }

  class BatchService {
    var data: Store
    const naming: Naming

    constructor (naming: Naming)
      ensures this.naming == naming && data == map[]
    {
      this.naming := naming;
      data := map[];
    }

    /** Creates one DID through the transaction: document, public record, private record. */
    method CreateDID(tx: Tx<Key, Value>, req: DidRequest) returns (r: Result<Document>)
      modifies tx
      ensures r.Ok? <==> Creatable(naming, req)
      ensures r.Ok? ==> r.value == DocumentOf(naming, req) && tx.queue == old(tx.queue) + CreateWrites(naming, req)
    {
      if !req.generates {
        return Err("could not create did:key");
      }
      var document := DocumentOf(naming, req);
      tx.Write(Did(document.id), DidV(document));
      if !req.supported {
        return Err("unsupported key type");
      }
      var key := StoredKey(document.keyID, document.id, req.keyType, Secret(req.generated), false, "", req.now);
      if key.id == "" {
        return Err("could not store key without an ID");
      }
      tx.Write(Public(key.id), PublicV(document.key));
      tx.Write(Private(key.id), PrivateV(key));
      r := Ok(document);
    }

    /** Either every request is created, or the store differs by the temporary key alone. */
    method BatchCreateDIDs(reqs: seq<DidRequest>, uuid: string) returns (r: Result<seq<Document>>)
      modifies this
      ensures r.Ok? <==> forall i :: 0 <= i < |reqs| ==> Creatable(naming, reqs[i])
      ensures r.Err? ==> data == old(data)[Temporary(uuid) := Starting]
      ensures r.Ok? ==>
        && data == Apply(old(data)[Temporary(uuid) := Starting], BatchWrites(naming, reqs))
        && r.value == seq(|reqs|, i requires 0 <= i < |reqs| => DocumentOf(naming, reqs[i]))
      ensures r.Ok? && Distinguishes(naming) ==> forall req :: req in reqs ==> Served(naming, data, req)
    {
      data := data[Temporary(uuid) := Starting];
      var tx := new Tx<Key, Value>();
      var documents := [];
      for i := 0 to |reqs|
        invariant tx.queue == BatchWrites(naming, reqs[..i])
        invariant data == old(data)[Temporary(uuid) := Starting]
        invariant forall j :: 0 <= j < i ==> Creatable(naming, reqs[j])
        invariant documents == seq(i, j requires 0 <= j < i => DocumentOf(naming, reqs[j]))
      {
        var created := CreateDID(tx, reqs[i]);
        if created.Err? {
          return Err(created.err);
        }
        assert reqs[..i + 1][..i] == reqs[..i];
        documents := documents + [created.value];
      }
      assert reqs[..|reqs|] == reqs;
      if Distinguishes(naming) {
        forall req | req in reqs ensures Served(naming, Apply(data, BatchWrites(naming, reqs)), req) { BatchServesAll(naming, data, reqs, req); }
      }
      data := Apply(data, tx.queue);
      r := Ok(documents);
    }
  }

  /** What a batch leaves alone: everything but the records of its own requests. */
  lemma {:induction false} BatchTouches(naming: Naming, s: Store, reqs: seq<DidRequest>, k: Key)
    requires forall i :: 0 <= i < |reqs| ==>
      var document := DocumentOf(naming, reqs[i]); k != Did(document.id) && k != Public(document.keyID) && k != Private(document.keyID)
    ensures Get(Apply(s, BatchWrites(naming, reqs)), k) == Get(s, k)
    decreases |reqs|
  {
    if reqs != [] {
      var n := |reqs| - 1;
      BatchTouches(naming, s, reqs[..n], k);
      ApplyConcat(s, BatchWrites(naming, reqs[..n]), CreateWrites(naming, reqs[n]));
      CreateServes(naming, Apply(s, BatchWrites(naming, reqs[..n])), reqs[n]);
    }
  }
}
