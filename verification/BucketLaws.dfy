/** The plain store by what its users see: what is read after what has been written. */
module BucketLaws {
  import opened Wrappers
  import opened KeyOrder
  import opened Paging
  import opened Buckets

  /** All reads tell of the same contents: one value, a flag, all of them, those with a prefix, and the
      keys in their order. */
  lemma ReadsAgree(s: Buckets, namespace: string, key: string, prefix: string)
    requires AllSorted(s)
    ensures
      var got := Answer(s, Read(namespace, key));
      && got.Value?
      && Answer(s, Exists(namespace, key)) == Flag(got.value.Some?)
      && var all, some, keys := Answer(s, ReadAll(namespace)), Answer(s, ReadPrefix(namespace, prefix)), Answer(s, ReadAllKeys(namespace));
         && all.Entries? && (key in all.entries <==> got.value.Some?) && (key in all.entries ==> Some(all.entries[key]) == got.value)
         && some.Entries? && (key in some.entries <==> got.value.Some? && HasPrefix(key, prefix)) && (key in some.entries ==> Some(some.entries[key]) == got.value)
         && keys.Keys? && (key in keys.keys <==> got.value.Some?) && forall i, j :: 0 <= i < j < |keys.keys| ==> Less(keys.keys[i], keys.keys[j])
  {
    var b := At(s, namespace);
    HoldsMap(b, key);
    assert key in KeysOf(b) <==> Holds(b, key) by {
      if Holds(b, key) { var i :| 0 <= i < |b| && b[i].0 == key; assert KeysOf(b)[i] == key; }
    }
  }

  /** A write is refused exactly for an empty name, and then changes nothing; otherwise its value is what
      is read at its key, and every other key reads as before. */
  lemma WriteIsRead(s: Buckets, put: Put, namespace: string, key: string)
    requires AllSorted(s)
    ensures
      var (s', r) := Meaning(s, Write(put));
      && AllSorted(s')
      && (r == Done <==> put.namespace != "" && put.key != "") && (r != Done ==> s' == s)
      && (r == Done ==>
            Answer(s', Read(namespace, key)) == if (namespace, key) == (put.namespace, put.key) then Value(Some(put.value)) else Answer(s, Read(namespace, key)))
  {
    if put.namespace != "" && put.key != "" {
      InsertMeans(At(s, put.namespace), put.key, put.value);
      InsertSorts(At(s, put.namespace), put.key, put.value);
    }
  }

  /** A delete is refused exactly for a missing namespace; otherwise its key reads as missing. */
  lemma DeleteIsRead(s: Buckets, from: string, gone: string, namespace: string, key: string)
    requires AllSorted(s)
    ensures
      var (s', r) := Meaning(s, Delete(from, gone));
      && AllSorted(s')
      && (r == Done <==> from in s) && (r != Done ==> s' == s)
      && (r == Done ==> Answer(s', Read(namespace, key)) == if (namespace, key) == (from, gone) then Value(None) else Answer(s, Read(namespace, key)))
  {
    if from in s {
      RemoveMeans(s[from], gone);
      RemoveSorts(s[from], gone);
    }
  }

  lemma DeleteNamespaceIsRead(s: Buckets, from: string, namespace: string, key: string)
    requires AllSorted(s)
    ensures
      var (s', r) := Meaning(s, DeleteNamespace(from));
      && AllSorted(s')
      && (r == Done <==> from in s) && (r != Done ==> s' == s)
      && (r == Done ==> Answer(s', Read(namespace, key)) == if namespace == from then Value(None) else Answer(s, Read(namespace, key)))
  {
  }

  /** The value of the last of the writes to a key. */
  function LastPut(writes: seq<Put>, namespace: string, key: string): Option<Bytes>
    decreases |writes|
  {
    if writes == [] then None
    else
      var last := writes[|writes| - 1];
      if (last.namespace, last.key) == (namespace, key) then Some(last.value) else LastPut(writes[..|writes| - 1], namespace, key)
  }

  function Either(first: Option<Bytes>, second: Reply): Reply { if first.Some? then Value(first) else second }

  predicate Named(writes: seq<Put>) { forall i :: 0 <= i < |writes| ==> writes[i].namespace != "" && writes[i].key != "" }

  lemma {:induction false} LastPutUnfolds(writes: seq<Put>, namespace: string, key: string)
    requires writes != []
    ensures LastPut(writes, namespace, key) ==
            if LastPut(writes[1..], namespace, key).Some? then LastPut(writes[1..], namespace, key)
            else if (writes[0].namespace, writes[0].key) == (namespace, key) then Some(writes[0].value) else None
    decreases |writes|
  {
    if |writes| > 1 {
      assert writes[..|writes| - 1][1..] == writes[1..][..|writes| - 2];
      LastPutUnfolds(writes[..|writes| - 1], namespace, key);
    }
  }

  /** Writes in one transaction are all made or none is; each key then reads as the last of them. */
  lemma {:induction false} WritesAreRead(s: Buckets, writes: seq<Put>, namespace: string, key: string)
    requires AllSorted(s)
    ensures PutAll(s, writes).Ok? <==> Named(writes)
    ensures PutAll(s, writes).Ok? ==> AllSorted(PutAll(s, writes).value)
    ensures PutAll(s, writes).Ok? ==>
      Answer(PutAll(s, writes).value, Read(namespace, key)) == Either(LastPut(writes, namespace, key), Answer(s, Read(namespace, key)))
    decreases |writes|
  {
    if writes != [] {
      assert Named(writes) <==> writes[0].namespace != "" && writes[0].key != "" && Named(writes[1..]) by {
        forall i | 0 <= i < |writes[1..]| ensures writes[1..][i] == writes[i + 1] { }
        if Named(writes[1..]) { forall i | 1 <= i < |writes| ensures writes[i] == writes[1..][i - 1] { } }
      }
      WriteIsRead(s, writes[0], namespace, key);
      LastPutUnfolds(writes, namespace, key);
      if PutOne(s, writes[0]).Ok? { WritesAreRead(PutOne(s, writes[0]).value, writes[1..], namespace, key); }
    }
  }

  function Zipped(namespaces: seq<string>, keys: seq<string>, values: seq<Bytes>): seq<Put>
    requires |keys| >= |namespaces| && |values| >= |namespaces|
  {
    seq(|namespaces|, i requires 0 <= i < |namespaces| => Put(namespaces[i], keys[i], values[i]))
  }

  lemma {:induction false} ListedIsPutAll(s: Buckets, namespaces: seq<string>, keys: seq<string>, values: seq<Bytes>)
    ensures Listed(s, namespaces, keys, values).Ok? ==> |keys| >= |namespaces| && |values| >= |namespaces|
    ensures |keys| >= |namespaces| && |values| >= |namespaces| ==> Listed(s, namespaces, keys, values) == PutAll(s, Zipped(namespaces, keys, values))
    decreases |namespaces|
  {
    if namespaces != [] && keys != [] && values != [] {
      if |keys| >= |namespaces| && |values| >= |namespaces| {
        assert Zipped(namespaces, keys, values)[1..] == Zipped(namespaces[1..], keys[1..], values[1..]);
      }
      var first := PutOne(s, Put(namespaces[0], keys[0], values[0]));
      if first.Ok? { ListedIsPutAll(first.value, namespaces[1..], keys[1..], values[1..]); }
    }
  }

  /** WriteMany writes each value under its namespace and key, the last of them for a repeated key, or
      refuses and changes nothing: for an empty name, or for lists that are both of other lengths than
      the namespaces or too short. */
  lemma WriteManyIsRead(s: Buckets, namespaces: seq<string>, keys: seq<string>, values: seq<Bytes>, namespace: string, key: string)
    requires AllSorted(s)
    ensures
      var (s', r) := Meaning(s, WriteMany(namespaces, keys, values));
      && AllSorted(s') && (r != Done ==> s' == s)
      && (r == Done <==>
            && (|keys| == |namespaces| || |values| == |namespaces|) && |keys| >= |namespaces| && |values| >= |namespaces|
            && Named(Zipped(namespaces, keys, values)))
      && (r == Done ==> Answer(s', Read(namespace, key)) == Either(LastPut(Zipped(namespaces, keys, values), namespace, key), Answer(s, Read(namespace, key))))
  {
    ListedIsPutAll(s, namespaces, keys, values);
    if |keys| >= |namespaces| && |values| >= |namespaces| { WritesAreRead(s, Zipped(namespaces, keys, values), namespace, key); }
  }

  // ---- Transactions ----

  /** The replies that a program gets to its reads of the store. */
  predicate Transcript(s: Buckets, program: Program, replies: seq<Reply>) {
    && |replies| <= program.looks
    && forall i :: 0 <= i < |replies| ==> program.act(replies[..i]).Look? && replies[i] == Answer(s, program.act(replies[..i]).query)
  }

  lemma {:induction false} PerformFollows(s: Buckets, program: Program, replies: seq<Reply>)
    requires Transcript(s, program, replies)
    ensures Perform(s, program, replies) == Perform(s, program, [])
    decreases |replies|
  {
    if replies != [] {
      var before := replies[..|replies| - 1];
      forall i | 0 <= i < |before| ensures before[..i] == replies[..i] { }
      PerformFollows(s, program, before);
      assert before + [replies[|replies| - 1]] == replies;
    }
  }

  /** A transaction reads the store as it was, answers what its function answers and makes all of its
      writes; or it fails, as its function does, for a read too many or for an empty name, and changes
      nothing. */
  lemma ExecuteIsRead(s: Buckets, program: Program, replies: seq<Reply>, namespace: string, key: string)
    requires AllSorted(s) && Transcript(s, program, replies) && (program.act(replies).Look? ==> |replies| == program.looks)
    ensures
      var (s', r) := Meaning(s, Execute(program));
      var end := program.act(replies);
      && AllSorted(s')
      && (end.Look? ==> s' == s && r.Failed?)
      && (end.Fail? ==> s' == s && r == Failed(end.err))
      && (end.Finish? ==>
            if Named(end.writes) then r == end.reply && Answer(s', Read(namespace, key)) == Either(LastPut(end.writes, namespace, key), Answer(s, Read(namespace, key)))
            else s' == s && r.Failed?)
  {
    PerformFollows(s, program, replies);
    if program.act(replies).Finish? { WritesAreRead(s, program.act(replies).writes, namespace, key); }
  }
}
