/** The encrypting wrapper itself, around a Bolt store. */
module EncryptedStore {
  import opened Wrappers
  import opened KeyOrder
  import opened Paging
  import opened Buckets
  import opened Encrypted

  predicate Readable(cipher: Cipher, b: Bucket<Bytes>) { forall i :: 0 <= i < |b| ==> cipher.dec(b[i].1).Some? }

  /** Sorted buckets, every value of which decrypts. */
  ghost predicate WellKept(cipher: Cipher, s: Buckets) {
    forall ns :: ns in s ==> Sorted(s[ns]) && Readable(cipher, s[ns])
  }

  lemma {:induction false} InsertReadable(cipher: Cipher, b: Bucket<Bytes>, key: string, value: Bytes)
    requires Readable(cipher, b) && cipher.dec(value).Some?
    ensures Readable(cipher, Insert(b, key, value))
    decreases |b|
  {
    if b != [] && b[0].0 != key && !Less(key, b[0].0) {
      InsertReadable(cipher, b[1..], key, value);
    }
  }

  lemma {:induction false} RemoveReadable(cipher: Cipher, b: Bucket<Bytes>, key: string)
    requires Readable(cipher, b)
    ensures Readable(cipher, Remove(b, key))
    decreases |b|
  {
    if b != [] && b[0].0 != key {
      RemoveReadable(cipher, b[1..], key);
    }
  }

  lemma PutKeeps(cipher: Cipher, s: Buckets, put: Put)
    requires WellKept(cipher, s) && cipher.dec(put.value).Some? && PutOne(s, put).Ok?
    ensures WellKept(cipher, PutOne(s, put).value)
  {
    InsertSorts(At(s, put.namespace), put.key, put.value);
    InsertReadable(cipher, At(s, put.namespace), put.key, put.value);
  }

  lemma {:induction false} ListedKeeps(cipher: Cipher, s: Buckets, namespaces: seq<string>, keys: seq<string>, values: seq<Bytes>)
    requires WellKept(cipher, s) && (forall i :: 0 <= i < |values| ==> cipher.dec(values[i]).Some?)
    requires Listed(s, namespaces, keys, values).Ok?
    ensures WellKept(cipher, Listed(s, namespaces, keys, values).value)
    decreases |namespaces|
  {
    if namespaces != [] {
      var put := Put(namespaces[0], keys[0], values[0]);
      PutKeeps(cipher, s, put);
      ListedKeeps(cipher, PutOne(s, put).value, namespaces[1..], keys[1..], values[1..]);
    }
  }

  /** What the values of a reply decrypt to. */
  predicate AllDecrypt(cipher: Cipher, m: map<string, Bytes>) { forall key :: key in m ==> cipher.dec(m[key]).Some? }

  lemma {:induction false} MapReadable(cipher: Cipher, b: Bucket<Bytes>)
    requires Readable(cipher, b)
    ensures AllDecrypt(cipher, MapOf(b))
    decreases |b|
  {
    if b != [] {
      MapReadable(cipher, b[..|b| - 1]);
    }
  }

  lemma MapValuesGrows(f: Bytes -> Bytes, m: map<string, Bytes>, keys: set<string>, key: string)
    requires key in keys && keys <= m.Keys
    ensures MapValues(f, map k | k in m && k !in keys - {key} :: m[k]) == MapValues(f, map k | k in m && k !in keys :: m[k])[key := f(m[key])]
  {
  }

  /** Every value that a well-kept store answers with decrypts. */
  lemma AnswerReadable(cipher: Cipher, s: Buckets, query: Query)
    requires WellKept(cipher, s)
    ensures match Answer(s, query)
            case Value(Some(bytes)) => cipher.dec(bytes).Some?
            case Entries(entries) => AllDecrypt(cipher, entries)
            case OnePage(page, _) => AllDecrypt(cipher, page)
            case _ => true
  {
    var b := At(s, query.namespace);
    MapReadable(cipher, b);
    if query.ReadPage? { MapReadable(cipher, PageOf(b, query.token, query.size).entries); }
  }

  class EncryptedWrapper {
    const s: BoltStore
    const cipher: Cipher
    var nonce: nat

    constructor (s: BoltStore, cipher: Cipher)
      requires Inverts(cipher) && WellKept(cipher, s.data)
      ensures Valid() && this.s == s && this.cipher == cipher
    {
      this.s, this.cipher, this.nonce := s, cipher, 0;
    }

    ghost predicate Valid()
      reads this, s
    {
      Inverts(cipher) && WellKept(cipher, s.data)
    }

    /** The store as its users see it. */
    ghost function Seen(): Buckets
      reads this, s
    {
      View(Plain(cipher), s.data)
    }

    method Encrypt(plain: Bytes) returns (bytes: Bytes)
      requires Inverts(cipher)
      modifies this`nonce
      ensures cipher.dec(bytes) == Some(plain) && Plain(cipher)(bytes) == plain
    {
      bytes := cipher.enc(nonce, plain);
      nonce := nonce + 1;
    }

    /** Decrypts a map value by value. */
    method DecryptMap(encrypted: map<string, Bytes>) returns (r: Result<map<string, Bytes>>)
      ensures r.Ok? <==> AllDecrypt(cipher, encrypted)
      ensures r.Ok? ==> r.value == MapValues(Plain(cipher), encrypted)
    {
      var decrypted := map[];
      var keys := encrypted.Keys;
      while keys != {}
        invariant keys <= encrypted.Keys
        invariant decrypted == MapValues(Plain(cipher), map key | key in encrypted && key !in keys :: encrypted[key])
        invariant forall key :: key in encrypted && key !in keys ==> cipher.dec(encrypted[key]).Some?
        decreases |keys|
      {
        var key :| key in keys;
        match cipher.dec(encrypted[key])
        case None => return Err("decrypting data");
        case Some(plain) =>
          MapValuesGrows(Plain(cipher), encrypted, keys, key);
          decrypted := decrypted[key := plain];
          keys := keys - {key};
      }
      assert (map key | key in encrypted && key !in keys :: encrypted[key]) == encrypted;
      r := Ok(decrypted);
    }

    method Ask(query: Query) returns (r: Reply)
      requires Valid()
      ensures r == Answer(Seen(), query)
    {
      UnderAnswer(Plain(cipher), s.data, query);
      AnswerReadable(cipher, s.data, query);
      var got := s.Ask(query);
      match got
      case Value(Some(bytes)) =>
        var plain := cipher.dec(bytes);
        r := if plain.Some? then Value(plain) else Failed("decrypting data");
      case Entries(entries) =>
        var decrypted := DecryptMap(entries);
        r := if decrypted.Ok? then Entries(decrypted.value) else Failed("decrypting data");
      case OnePage(page, next) =>
        var decrypted := DecryptMap(page);
        r := if decrypted.Ok? then OnePage(decrypted.value, next) else Failed("decrypting data");
      case _ => r := got;
    }

    method Write(put: Put) returns (r: Reply)
      requires Valid()
      modifies this, s
      ensures Valid() && (Seen(), r) == Meaning(old(Seen()), Op.Write(put))
    {
      var bytes := Encrypt(put.value);
      var encrypted := put.(value := bytes);
      ViewPut(Plain(cipher), s.data, encrypted);
      if PutOne(s.data, encrypted).Ok? { PutKeeps(cipher, s.data, encrypted); }
      r := s.Write(encrypted);
    }

    method WriteMany(namespaces: seq<string>, keys: seq<string>, values: seq<Bytes>) returns (r: Reply)
      requires Valid()
      modifies this, s
      ensures Valid() && (Seen(), r) == Meaning(old(Seen()), Op.WriteMany(namespaces, keys, values))
    {
      var encrypted: seq<Bytes> := [];
      for i := 0 to |values|
        invariant Valid() && s.data == old(s.data) && |encrypted| == i
        invariant forall j :: 0 <= j < i ==> cipher.dec(encrypted[j]).Some? && Plain(cipher)(encrypted[j]) == values[j]
      {
        var bytes := Encrypt(values[i]);
        encrypted := encrypted + [bytes];
      }
      ViewListed(Plain(cipher), s.data, namespaces, keys, encrypted, values);
      if PutMany(s.data, namespaces, keys, encrypted).Ok? {
        ListedKeeps(cipher, s.data, namespaces, keys, encrypted);
      }
      r := s.WriteMany(namespaces, keys, encrypted);
    }

    method Delete(namespace: string, key: string) returns (r: Reply)
      requires Valid()
      modifies s
      ensures Valid() && (Seen(), r) == Meaning(old(Seen()), Op.Delete(namespace, key))
    {
      if namespace in s.data {
        UnderRemove(Plain(cipher), s.data[namespace], key);
        RemoveSorts(s.data[namespace], key);
        RemoveReadable(cipher, s.data[namespace], key);
      }
      r := s.Delete(namespace, key);
      assert r.Done? ==> Seen() == old(Seen())[namespace := Remove(old(Seen())[namespace], key)];
    }

    method DeleteNamespace(namespace: string) returns (r: Reply)
      requires Valid()
      modifies s
      ensures Valid() && (Seen(), r) == Meaning(old(Seen()), Op.DeleteNamespace(namespace))
    {
      r := s.DeleteNamespace(namespace);
      assert r.Done? ==> Seen() == old(Seen()) - {namespace};
    }

    /** The business function reads through the wrapper and writes through a transaction that
        encrypts; a failed write, or a failure of its own, rolls everything back. */
    method Execute(program: Program) returns (r: Reply)
      requires Valid()
      modifies this, s
      ensures Valid() && (Seen(), r) == Meaning(old(Seen()), Op.Execute(program))
    {
      var replies: seq<Reply> := [];
      while true
        invariant Valid() && s.data == old(s.data)
        invariant Perform(old(Seen()), program, replies) == Perform(old(Seen()), program, [])
        decreases program.looks - |replies|
      {
        match program.act(replies)
        case Look(query) =>
          if |replies| >= program.looks {
            return Failed("too many reads");
          }
          var reply := Ask(query);
          replies := replies + [reply];
        case Finish(reply, writes) =>
          var failed := WriteTx(writes);
          return if failed.Ok? then reply else Failed(failed.err);
        case Fail(err) =>
          return Failed(err);
      }
    }

    method WriteTx(writes: seq<Put>) returns (r: Result<()>)
      requires Valid()
      modifies this, s
      ensures Valid()
      ensures match PutAll(old(Seen()), writes)
              case Ok(seen) => r.Ok? && Seen() == seen
              case Err(err) => r == Err(err) && Seen() == old(Seen())
    {
      var tx := new BoltTx(s.data);
      for i := 0 to |writes|
        invariant Valid() && s.data == old(s.data) && WellKept(cipher, tx.pending)
        invariant PutAll(old(Seen()), writes) == PutAll(View(Plain(cipher), tx.pending), writes[i..])
      {
        var bytes := Encrypt(writes[i].value);
        var encrypted := writes[i].(value := bytes);
        ViewPut(Plain(cipher), tx.pending, encrypted);
        if PutOne(tx.pending, encrypted).Ok? { PutKeeps(cipher, tx.pending, encrypted); }
        assert writes[i..][0] == writes[i] && writes[i..][1..] == writes[i + 1..];
        var written := tx.Write(encrypted);
        if written.Err? {
          return Err(written.err);
        }
      }
      s.data := tx.pending;
      r := Ok(());
    }

    method Do(op: Op) returns (r: Reply)
      requires Valid()
      modifies this, s
      ensures Valid() && (Seen(), r) == Meaning(old(Seen()), op)
    {
      match op
      case Ask(query) => r := Ask(query);
      case Write(put) => r := Write(put);
      case WriteMany(namespaces, keys, values) => r := WriteMany(namespaces, keys, values);
      case Delete(namespace, key) => r := Delete(namespace, key);
      case DeleteNamespace(namespace) => r := DeleteNamespace(namespace);
      case Execute(program) => r := Execute(program);
    }

    /** Any sequence of operations, seen from outside, is the same sequence on the plain store. */
    method DoAll(ops: seq<Op>) returns (replies: seq<Reply>)
      requires Valid()
      modifies this, s
      ensures Valid() && (Seen(), replies) == Meanings(old(Seen()), ops)
    {
      replies := [];
      for i := 0 to |ops|
        invariant Valid()
        invariant (Seen(), replies) == Meanings(old(Seen()), ops[..i])
      {
        var reply := Do(ops[i]);
        assert ops[..i + 1][..i] == ops[..i];
        replies := replies + [reply];
      }
      assert ops[..|ops|] == ops;
    }
  }
}
