/** A namespaced store of byte strings, as Bolt keeps it: sorted buckets, one for each namespace. */
module Buckets {
  import opened Wrappers
  import opened KeyOrder
  import opened Paging

  type Bytes = seq<bv8>

  type Buckets = map<string, Bucket<Bytes>>

  /** One pending write: namespace, key, value. */
  datatype Put = Put(namespace: string, key: string, value: Bytes)

  datatype Query =
    | Read(namespace: string, key: string)
    | Exists(namespace: string, key: string)
    | ReadAll(namespace: string)
    | ReadPage(namespace: string, token: string, size: int)
    | ReadPrefix(namespace: string, prefix: string)
    | ReadAllKeys(namespace: string)

  datatype Reply =
    | Done
    | Failed(err: string)
    | Value(value: Option<Bytes>)
    | Flag(flag: bool)
    | Entries(entries: map<string, Bytes>)
    | OnePage(page: map<string, Bytes>, next: string)
    | Keys(keys: seq<string>)

  datatype Act = Look(query: Query) | Finish(reply: Reply, writes: seq<Put>) | Fail(err: string)

  /** A business function: it looks at the committed store, then finishes with buffered writes. */
  datatype Program = Program(looks: nat, act: seq<Reply> -> Act)

  datatype Op =
    | Ask(query: Query)
    | Write(put: Put)
    | WriteMany(namespaces: seq<string>, keys: seq<string>, values: seq<Bytes>)
    | Delete(namespace: string, key: string)
    | DeleteNamespace(namespace: string)
    | Execute(program: Program)

  // ---- What the operations mean ----

  function Insert<V>(b: Bucket<V>, key: string, value: V): Bucket<V>
    decreases |b|
  {
    if b == [] then [(key, value)]
    else if b[0].0 == key then [(key, value)] + b[1..]
    else if Less(key, b[0].0) then [(key, value)] + b
    else [b[0]] + Insert(b[1..], key, value)
  }

  function Remove<V>(b: Bucket<V>, key: string): Bucket<V>
    decreases |b|
  {
    if b == [] then [] else if b[0].0 == key then b[1..] else [b[0]] + Remove(b[1..], key)
  }

  function At(s: Buckets, namespace: string): Bucket<Bytes> {
    if namespace in s then s[namespace] else []
  }

  function Lookup(m: map<string, Bytes>, key: string): Option<Bytes> { if key in m then Some(m[key]) else None }

  function WithPrefix(m: map<string, Bytes>, prefix: string): map<string, Bytes> {
    map key | key in m && HasPrefix(key, prefix) :: m[key]
  }

  function KeysOf<V>(b: Bucket<V>): seq<string> { seq(|b|, i requires 0 <= i < |b| => b[i].0) }

  function Answer(s: Buckets, query: Query): Reply {
    var b := At(s, query.namespace);
    match query
    case Read(_, key) => Value(Lookup(MapOf(b), key))
    case Exists(_, key) => Flag(key in MapOf(b))
    case ReadAll(_) => Entries(MapOf(b))
    case ReadPage(_, token, size) => var p := PageOf(b, token, size); OnePage(MapOf(p.entries), p.next)
    case ReadPrefix(_, prefix) => Entries(WithPrefix(MapOf(b), prefix))
    case ReadAllKeys(_) => Keys(KeysOf(b))
  }

  /** Bolt takes no empty bucket name and no empty key. */
  function PutOne(s: Buckets, put: Put): Result<Buckets> {
    if put.namespace == "" then Err("bucket name required")
    else if put.key == "" then Err("key required")
    else Ok(s[put.namespace := Insert(At(s, put.namespace), put.key, put.value)])
  }

  /** All of the writes, or none of them. */
  function PutAll(s: Buckets, writes: seq<Put>): Result<Buckets>
    decreases |writes|
  {
    if writes == [] then Ok(s)
    else match PutOne(s, writes[0])
      case Ok(s') => PutAll(s', writes[1..])
      case Err(err) => Err(err)
  }

  /** The loop runs over the namespaces; the lengths are refused only when both are wrong. */
  function PutMany(s: Buckets, namespaces: seq<string>, keys: seq<string>, values: seq<Bytes>): Result<Buckets> {
    if |namespaces| != |keys| && |namespaces| != |values| then Err("namespaces, keys, and values, are not of equal length")
    else Listed(s, namespaces, keys, values)
  }

  function Listed(s: Buckets, namespaces: seq<string>, keys: seq<string>, values: seq<Bytes>): Result<Buckets>
    decreases |namespaces|
  {
    if namespaces == [] then Ok(s)
    else if namespaces[0] == "" then Err("bucket name required")
    else if keys == [] || values == [] then Err("index out of range")
    else match PutOne(s, Put(namespaces[0], keys[0], values[0]))
      case Ok(s') => Listed(s', namespaces[1..], keys[1..], values[1..])
      case Err(err) => Err(err)
  }

  function Perform(s: Buckets, program: Program, replies: seq<Reply>): Result<(Reply, seq<Put>)>
    decreases program.looks - |replies|
  {
    match program.act(replies)
    case Look(query) =>
      if |replies| < program.looks then Perform(s, program, replies + [Answer(s, query)]) else Err("too many reads")
    case Finish(reply, writes) => Ok((reply, writes))
    case Fail(err) => Err(err)
  }

  function Outcome(s: Buckets, r: Result<Buckets>): (Buckets, Reply) {
    match r
    case Ok(s') => (s', Done)
    case Err(err) => (s, Failed(err))
  }

  /** One operation on the store: the store after it, and what the caller sees. */
  function Meaning(s: Buckets, op: Op): (Buckets, Reply) {
    match op
    case Ask(query) => (s, Answer(s, query))
    case Write(put) => Outcome(s, PutOne(s, put))
    case WriteMany(namespaces, keys, values) => Outcome(s, PutMany(s, namespaces, keys, values))
    case Delete(namespace, key) =>
      if namespace in s then (s[namespace := Remove(s[namespace], key)], Done) else (s, Failed("namespace does not exist"))
    case DeleteNamespace(namespace) =>
      if namespace in s then (s - {namespace}, Done) else (s, Failed("could not delete namespace"))
    case Execute(program) =>
      match Perform(s, program, [])
      case Ok((reply, writes)) => (match PutAll(s, writes) case Ok(s') => (s', reply) case Err(err) => (s, Failed(err)))
      case Err(err) => (s, Failed(err))
  }

  function Meanings(s: Buckets, ops: seq<Op>): (Buckets, seq<Reply>)
    decreases |ops|
  {
    if ops == [] then (s, [])
    else
      var (s', replies) := Meanings(s, ops[..|ops| - 1]);
      var (s'', reply) := Meaning(s', ops[|ops| - 1]);
      (s'', replies + [reply])
  }

  // ---- Buckets stay sorted ----

  ghost predicate AllSorted(s: Buckets) { forall ns :: ns in s ==> Sorted(s[ns]) }

  lemma SortedCons<V>(e: (string, V), rest: Bucket<V>)
    requires Sorted(rest) && e.0 != "" && (rest != [] ==> Less(e.0, rest[0].0))
    ensures Sorted([e] + rest)
  {
    forall i | 0 <= i < |rest| ensures Less(e.0, rest[i].0) {
      if i > 0 { LessTrans(e.0, rest[0].0, rest[i].0); }
    }
  }

  lemma {:induction false} InsertSorts<V>(b: Bucket<V>, key: string, value: V)
    requires Sorted(b) && key != ""
    ensures Sorted(Insert(b, key, value))
    ensures Insert(b, key, value) != []
    ensures Insert(b, key, value)[0] == (key, value) || (b != [] && Insert(b, key, value)[0] == b[0])
    decreases |b|
  {
    if b != [] {
      LessTotal(key, b[0].0);
      if b[0].0 == key {
        SortedCons((key, value), b[1..]);
      } else if Less(key, b[0].0) {
        SortedCons((key, value), b);
      } else {
        InsertSorts(b[1..], key, value);
        SortedCons(b[0], Insert(b[1..], key, value));
      }
    }
  }

  lemma {:induction false} RemoveSorts<V>(b: Bucket<V>, key: string)
    requires Sorted(b)
    ensures Sorted(Remove(b, key))
    ensures Remove(b, key) != [] ==> b != [] && (Remove(b, key)[0] == b[0] || (|b| > 1 && Remove(b, key)[0] == b[1]))
    decreases |b|
  {
    if b != [] && b[0].0 != key {
      RemoveSorts(b[1..], key);
      if |b| > 2 { LessTrans(b[0].0, b[1].0, b[2].0); }
      SortedCons(b[0], Remove(b[1..], key));
    }
  }

  lemma {:induction false} MapOfCons<V>(e: (string, V), rest: Bucket<V>)
    ensures MapOf([e] + rest) == map[e.0 := e.1] + MapOf(rest)
    decreases |rest|
  {
    var b := [e] + rest;
    if rest != [] {
      var n := |rest| - 1;
      assert b[..|b| - 1] == [e] + rest[..n];
      MapOfCons(e, rest[..n]);
    } else {
      assert b[..0] == [];
    }
  }

  lemma HeadIsNew<V>(b: Bucket<V>)
    requires Sorted(b) && b != []
    ensures b[0].0 !in MapOf(b[1..]) && MapOf(b) == map[b[0].0 := b[0].1] + MapOf(b[1..])
  {
    HoldsMap(b[1..], b[0].0);
    forall i | 0 <= i < |b[1..]| ensures b[1..][i].0 != b[0].0 { LessTotal(b[0].0, b[i + 1].0); }
    assert b == [b[0]] + b[1..];
    MapOfCons(b[0], b[1..]);
  }

  lemma MapUpdates<V>(m: map<string, V>, k: string, v: V, k': string, v': V)
    ensures k' !in m ==> map[k' := v'] + m == m[k' := v'] && (map[k' := v'] + m)[k' := v] == map[k' := v] + m
    ensures k != k' ==> map[k' := v'] + m[k := v] == (map[k' := v'] + m)[k := v]
    ensures k != k' ==> map[k' := v'] + (m - {k}) == (map[k' := v'] + m) - {k}
    ensures k' !in m ==> (map[k' := v'] + m) - {k'} == m
  {
  }

  /** A bucket is the map it stands for. */
  lemma {:induction false} InsertMeans<V>(b: Bucket<V>, key: string, value: V)
    requires Sorted(b)
    ensures MapOf(Insert(b, key, value)) == MapOf(b)[key := value]
    decreases |b|
  {
    if b == [] {
      assert [(key, value)] == [(key, value)] + [];
      MapOfCons((key, value), b);
    } else {
      HeadIsNew(b);
      MapUpdates(MapOf(b[1..]), key, value, b[0].0, b[0].1);
      if b[0].0 == key {
        MapOfCons((key, value), b[1..]);
      } else if Less(key, b[0].0) {
        MapOfCons((key, value), b);
        SmallestIsNew(b, key);
        MapUpdates(MapOf(b), key, value, key, value);
      } else {
        InsertMeans(b[1..], key, value);
        MapOfCons(b[0], Insert(b[1..], key, value));
      }
    }
  }

  lemma SmallestIsNew<V>(b: Bucket<V>, key: string)
    requires Sorted(b) && b != [] && Less(key, b[0].0)
    ensures key !in MapOf(b)
  {
    HoldsMap(b, key);
    forall i | 0 <= i < |b| ensures b[i].0 != key {
      if i > 0 { LessTrans(key, b[0].0, b[i].0); }
      LessTotal(key, b[i].0);
    }
  }

  lemma {:induction false} RemoveMeans<V>(b: Bucket<V>, key: string)
    requires Sorted(b)
    ensures MapOf(Remove(b, key)) == MapOf(b) - {key}
    decreases |b|
  {
    if b != [] {
      HeadIsNew(b);
      MapUpdates(MapOf(b[1..]), key, b[0].1, b[0].0, b[0].1);
      if b[0].0 != key {
        RemoveMeans(b[1..], key);
        MapOfCons(b[0], Remove(b[1..], key));
      }
    }
  }
}
