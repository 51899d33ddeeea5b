/** The encrypting wrapper refines the plain store: whoever uses it sees the store behind it as if
    its values had never been encrypted. */
module Encrypted {
  import opened Wrappers
  import opened KeyOrder
  import opened Paging
  import opened Buckets

  /** A randomised cipher: each encryption gets a nonce of its own. */
  datatype Cipher = Cipher(enc: (nat, Bytes) -> Bytes, dec: Bytes -> Option<Bytes>)

  ghost predicate Inverts(cipher: Cipher) { forall n, plain :: cipher.dec(cipher.enc(n, plain)) == Some(plain) }

  function Plain(cipher: Cipher): Bytes -> Bytes {
    bytes => match cipher.dec(bytes) case Some(plain) => plain case None => []
  }

  // ---- The store with a function applied to every value ----

  function Under(f: Bytes -> Bytes, b: Bucket<Bytes>): Bucket<Bytes> {
    seq(|b|, i requires 0 <= i < |b| => (b[i].0, f(b[i].1)))
  }

  function MapValues(f: Bytes -> Bytes, m: map<string, Bytes>): map<string, Bytes> {
    map key | key in m :: f(m[key])
  }

  function View(f: Bytes -> Bytes, s: Buckets): Buckets { map ns | ns in s :: Under(f, s[ns]) }

  function Revealed(f: Bytes -> Bytes, reply: Reply): Reply {
    match reply
    case Value(Some(value)) => Value(Some(f(value)))
    case Entries(entries) => Entries(MapValues(f, entries))
    case OnePage(page, next) => OnePage(MapValues(f, page), next)
    case _ => reply
  }

  lemma UnderCons(f: Bytes -> Bytes, e: (string, Bytes), rest: Bucket<Bytes>)
    ensures Under(f, [e] + rest) == [(e.0, f(e.1))] + Under(f, rest)
  {
  }

  lemma {:induction false} UnderInsert(f: Bytes -> Bytes, b: Bucket<Bytes>, key: string, value: Bytes)
    ensures Under(f, Insert(b, key, value)) == Insert(Under(f, b), key, f(value))
    decreases |b|
  {
    if b != [] {
      assert b == [b[0]] + b[1..];
      UnderCons(f, b[0], b[1..]);
      assert Under(f, b)[1..] == Under(f, b[1..]);
      UnderCons(f, (key, value), b[1..]);
      UnderCons(f, (key, value), b);
      if b[0].0 != key && !Less(key, b[0].0) {
        UnderInsert(f, b[1..], key, value);
        UnderCons(f, b[0], Insert(b[1..], key, value));
      }
    }
  }

  lemma {:induction false} UnderRemove(f: Bytes -> Bytes, b: Bucket<Bytes>, key: string)
    ensures Under(f, Remove(b, key)) == Remove(Under(f, b), key)
    decreases |b|
  {
    if b != [] {
      assert Under(f, b)[1..] == Under(f, b[1..]);
      if b[0].0 != key {
        UnderRemove(f, b[1..], key);
        UnderCons(f, b[0], Remove(b[1..], key));
      }
    }
  }

  lemma {:induction false} UnderMapOf(f: Bytes -> Bytes, b: Bucket<Bytes>)
    ensures MapOf(Under(f, b)) == MapValues(f, MapOf(b))
    decreases |b|
  {
    if b != [] {
      var n := |b| - 1;
      UnderMapOf(f, b[..n]);
      assert Under(f, b)[..n] == Under(f, b[..n]);
    }
  }

  lemma {:induction false} UnderSeek(f: Bytes -> Bytes, b: Bucket<Bytes>, token: string, start: nat)
    requires start <= |b|
    ensures SeekFrom(Under(f, b), token, start) == SeekFrom(b, token, start)
    decreases |b| - start
  {
    if start < |b| && Less(b[start].0, token) {
      UnderSeek(f, b, token, start + 1);
    }
  }

  lemma UnderPage(f: Bytes -> Bytes, b: Bucket<Bytes>, token: string, size: int)
    ensures PageOf(Under(f, b), token, size) == Page(Under(f, PageOf(b, token, size).entries), PageOf(b, token, size).next)
  {
    UnderSeek(f, b, token, 0);
    var n := Seek(b, token);
    assert Under(f, b)[n..] == Under(f, b[n..]);
    if 0 < size < |b| - n {
      assert Under(f, b[n..])[..size] == Under(f, b[n..][..size]);
    }
  }

  /** Reading after revealing is revealing after reading. */
  lemma UnderAnswer(f: Bytes -> Bytes, s: Buckets, query: Query)
    ensures Answer(View(f, s), query) == Revealed(f, Answer(s, query))
  {
    var b := At(s, query.namespace);
    assert At(View(f, s), query.namespace) == Under(f, b);
    UnderMapOf(f, b);
    match query
    case ReadPage(_, token, size) =>
      UnderPage(f, b, token, size);
      UnderMapOf(f, PageOf(b, token, size).entries);
    case ReadPrefix(_, prefix) =>
      assert WithPrefix(MapValues(f, MapOf(b)), prefix) == MapValues(f, WithPrefix(MapOf(b), prefix));
    case ReadAllKeys(_) =>
      assert KeysOf(Under(f, b)) == KeysOf(b);
    case _ =>
  }

  function ViewResult(f: Bytes -> Bytes, r: Result<Buckets>): Result<Buckets> {
    match r case Ok(s) => Ok(View(f, s)) case Err(err) => Err(err)
  }

  lemma ViewPut(f: Bytes -> Bytes, s: Buckets, put: Put)
    ensures PutOne(View(f, s), put.(value := f(put.value))) == ViewResult(f, PutOne(s, put))
  {
    if PutOne(s, put).Ok? {
      var b := At(s, put.namespace);
      assert At(View(f, s), put.namespace) == Under(f, b);
      UnderInsert(f, b, put.key, put.value);
      assert View(f, s[put.namespace := Insert(b, put.key, put.value)]) == View(f, s)[put.namespace := Under(f, Insert(b, put.key, put.value))];
    }
  }

  lemma {:induction false} ViewListed(f: Bytes -> Bytes, s: Buckets, namespaces: seq<string>, keys: seq<string>, values: seq<Bytes>, plain: seq<Bytes>)
    requires |plain| == |values| && forall i :: 0 <= i < |values| ==> f(values[i]) == plain[i]
    ensures Listed(View(f, s), namespaces, keys, plain) == ViewResult(f, Listed(s, namespaces, keys, values))
    decreases |namespaces|
  {
    if namespaces != [] && namespaces[0] != "" && keys != [] && values != [] {
      var put := Put(namespaces[0], keys[0], values[0]);
      ViewPut(f, s, put);
      if PutOne(s, put).Ok? {
        ViewListed(f, PutOne(s, put).value, namespaces[1..], keys[1..], values[1..], plain[1..]);
      }
    }
  }

  // ---- The stores ----

  class BoltTx {
    var pending: Buckets

    constructor (data: Buckets)
      ensures pending == data
    {
      pending := data;
    }

    method Write(put: Put) returns (r: Result<()>)
      modifies this
      ensures match PutOne(old(pending), put)
              case Ok(s) => r.Ok? && pending == s
              case Err(err) => r == Err(err) && pending == old(pending)
    {
      if put.namespace == "" {
        return Err("bucket name required");
      }
      if put.key == "" {
        return Err("key required");
      }
      var bucket := if put.namespace in pending then pending[put.namespace] else [];
      pending := pending[put.namespace := Insert(bucket, put.key, put.value)];
      r := Ok(());
    }
  }

  class BoltStore {
    var data: Buckets

    constructor ()
      ensures data == map[]
    {
      data := map[];
    }

    method Ask(query: Query) returns (r: Reply)
      requires AllSorted(data)
      ensures r == Answer(data, query)
    {
      var bucket := if query.namespace in data then data[query.namespace] else [];
      match query
      case Read(_, key) =>
        var all := Paging.ReadAll(bucket);
        r := Value(Lookup(all, key));
      case Exists(_, key) =>
        var all := Paging.ReadAll(bucket);
        r := Flag(key in all);
      case ReadAll(_) =>
        var all := Paging.ReadAll(bucket);
        r := Entries(all);
      case ReadPage(_, token, size) =>
        var page, next := Paging.ReadPage(bucket, token, size);
        r := OnePage(page, next);
      case ReadPrefix(_, prefix) =>
        var found := Paging.ReadPrefix(bucket, prefix);
        PrefixIsFilter(bucket, prefix, found);
        r := Entries(found);
      case ReadAllKeys(_) =>
        r := Keys(KeysOf(bucket));
    }

    method Write(put: Put) returns (r: Reply)
      modifies this
      ensures (data, r) == Outcome(old(data), PutOne(old(data), put))
    {
      var tx := new BoltTx(data);
      var written := tx.Write(put);
      if written.Err? {
        return Failed(written.err);
      }
      data := tx.pending;
      r := Done;
    }

    method WriteMany(namespaces: seq<string>, keys: seq<string>, values: seq<Bytes>) returns (r: Reply)
      modifies this
      ensures (data, r) == Outcome(old(data), PutMany(old(data), namespaces, keys, values))
    {
      if |namespaces| != |keys| && |namespaces| != |values| {
        return Failed("namespaces, keys, and values, are not of equal length");
      }
      var tx := new BoltTx(data);
      for i := 0 to |namespaces|
        invariant data == old(data)
        invariant i <= |keys| && i <= |values|
        invariant Listed(old(data), namespaces, keys, values) == Listed(tx.pending, namespaces[i..], keys[i..], values[i..])
      {
        if namespaces[i] == "" {
          return Failed("bucket name required");
        }
        if i >= |keys| || i >= |values| {
          return Failed("index out of range");
        }
        var written := tx.Write(Put(namespaces[i], keys[i], values[i]));
        if written.Err? {
          return Failed(written.err);
        }
      }
      data := tx.pending;
      r := Done;
    }

    method Delete(namespace: string, key: string) returns (r: Reply)
      modifies this
      ensures (data, r) == Meaning(old(data), Op.Delete(namespace, key))
    {
      if namespace !in data {
        return Failed("namespace does not exist");
      }
      data := data[namespace := Remove(data[namespace], key)];
      r := Done;
    }

    method DeleteNamespace(namespace: string) returns (r: Reply)
      modifies this
      ensures (data, r) == Meaning(old(data), Op.DeleteNamespace(namespace))
    {
      if namespace !in data {
        return Failed("could not delete namespace");
      }
      data := data - {namespace};
      r := Done;
    }
  }

  lemma PrefixIsFilter(b: Bucket<Bytes>, prefix: string, found: map<string, Bytes>)
    requires Sorted(b)
    requires forall key :: key in found <==> HasPrefix(key, prefix) && Holds(b, key)
    requires forall i :: 0 <= i < |b| && HasPrefix(b[i].0, prefix) ==> b[i].0 in found && found[b[i].0] == b[i].1
    ensures found == WithPrefix(MapOf(b), prefix)
  {
    var wanted := WithPrefix(MapOf(b), prefix);
    forall key ensures key in found <==> key in wanted { HoldsMap(b, key); }
    forall key | key in found ensures found[key] == MapOf(b)[key] { FoundIsStored(b, prefix, found, key); }
  }

  lemma FoundIsStored(b: Bucket<Bytes>, prefix: string, found: map<string, Bytes>, key: string)
    requires Sorted(b) && Holds(b, key) && HasPrefix(key, prefix)
    requires forall i :: 0 <= i < |b| && HasPrefix(b[i].0, prefix) ==> b[i].0 in found && found[b[i].0] == b[i].1
    ensures key in found && key in MapOf(b) && found[key] == MapOf(b)[key]
  {
    var i :| 0 <= i < |b| && b[i].0 == key;
    MapOfAt(b, i);
  }

  lemma {:induction false} MapOfAt<V>(b: Bucket<V>, i: nat)
    requires i < |b| && forall j, k :: 0 <= j < k < |b| ==> Less(b[j].0, b[k].0)
    ensures b[i].0 in MapOf(b) && MapOf(b)[b[i].0] == b[i].1
    decreases |b|
  {
    var n := |b| - 1;
    if i < n {
      LessTotal(b[i].0, b[n].0);
      MapOfAt(b[..n], i);
    }
  }
}
