/** The strings that credentials and status lists are stored under, and the scans that look them up
    again by taking the strings apart. */
module ScanKeys {
  import opened Wrappers
  import opened KeyOrder
  import opened Paging

  datatype ListName = ListName(issuer: string, schema: string, purpose: string)

  /** What a credential's key is made of. */
  datatype CredentialName = CredentialName(id: string, issuer: string, subject: string, schema: string)

  function Join(parts: seq<string>): string
    decreases |parts|
  {
    if parts == [] then "" else if |parts| == 1 then parts[0] else parts[0] + ":" + Join(parts[1..])
  }

  function StatusListKey(t: ListName): string { Join(["is", t.issuer, "sc", t.schema, "sp", t.purpose]) }

  function PrefixKey(c: CredentialName): string { Join([c.id, "is", c.issuer, "su", c.subject, "sc", c.schema]) }

  predicate HasSuffix(s: string, suffix: string) { |suffix| <= |s| && s[|s| - |suffix|..] == suffix }

  predicate OccursAt(s: string, part: string, i: nat) { i + |part| <= |s| && s[i..i + |part|] == part }

  predicate Contains(s: string, part: string) { exists i: nat :: i <= |s| && OccursAt(s, part, i) }

  predicate Plain(s: string) { ':' !in s }

  predicate ListMatches(key: string, t: ListName) {
    Contains(key, t.issuer) && HasSuffix(key, Join(["sc", t.schema, "sp", t.purpose]))
  }

  predicate CredentialMatches(key: string, issuer: string, schema: string) {
    Contains(key, issuer) && HasSuffix(key, Join(["sc", schema]))
  }

  // ---- Taking joined strings apart ----

  lemma JoinRest(part: string, parts: seq<string>)
    requires parts != []
    ensures Join([part] + parts) == part + ":" + Join(parts)
  {
    assert ([part] + parts)[1..] == parts;
  }

  lemma JoinTwo(a: string, b: string)
    ensures Join([a, b]) == a + ":" + b
  {
    JoinRest(a, [b]);
    assert [a] + [b] == [a, b];
  }

  lemma JoinFour(a: string, b: string, c: string, d: string)
    ensures Join([a, b, c, d]) == (a + ":" + b + ":" + c) + ":" + d
  {
    JoinTwo(c, d);
    JoinRest(b, [c, d]);
    JoinRest(a, [b, c, d]);
    assert [b] + [c, d] == [b, c, d] && [a] + [b, c, d] == [a, b, c, d];
  }

  lemma JoinSix(a: string, b: string, c: string, d: string, e: string, f: string)
    ensures Join([a, b, c, d, e, f]) == (a + ":" + b + ":") + Join([c, d, e, f])
  {
    JoinRest(b, [c, d, e, f]);
    JoinRest(a, [b, c, d, e, f]);
    assert [b] + [c, d, e, f] == [b, c, d, e, f] && [a] + [b, c, d, e, f] == [a, b, c, d, e, f];
  }

  lemma PrefixKeyJoined(c: CredentialName)
    ensures PrefixKey(c) == c.id + ":" + ("is" + ":" + (c.issuer + ":" + ("su" + ":" + c.subject + ":" + "sc" + ":" + c.schema)))
  {
    JoinFour("su", c.subject, "sc", c.schema);
    JoinRest(c.issuer, ["su", c.subject, "sc", c.schema]);
    JoinRest("is", [c.issuer, "su", c.subject, "sc", c.schema]);
    JoinRest(c.id, ["is", c.issuer, "su", c.subject, "sc", c.schema]);
    assert [c.issuer] + ["su", c.subject, "sc", c.schema] == [c.issuer, "su", c.subject, "sc", c.schema];
    assert ["is"] + [c.issuer, "su", c.subject, "sc", c.schema] == ["is", c.issuer, "su", c.subject, "sc", c.schema];
    assert [c.id] + ["is", c.issuer, "su", c.subject, "sc", c.schema] == [c.id, "is", c.issuer, "su", c.subject, "sc", c.schema];
  }

  /** A credential's key: the id first, the schema last. */
  lemma PrefixKeyParts(c: CredentialName)
    ensures PrefixKey(c) == c.id + (":is:" + c.issuer + ":su:" + c.subject + ":sc:" + c.schema)
    ensures PrefixKey(c) == (c.id + ":is:" + c.issuer + ":su:" + c.subject + ":sc") + ":" + c.schema
  {
    PrefixKeyJoined(c);
  }

  lemma ColonAt(a: string, x: string)
    requires Plain(x)
    ensures var s := a + ":" + x; s[|a|] == ':' && forall i :: |a| < i < |s| ==> s[i] != ':'
  {
    forall i | |a| < i < |a + ":" + x| ensures (a + ":" + x)[i] == x[i - |a| - 1] { }
  }

  /** A part without a colon is cut off at the last colon. */
  lemma LastColon(a: string, x: string, b: string, y: string)
    requires Plain(x) && Plain(y) && a + ":" + x == b + ":" + y
    ensures a == b && x == y
  {
    var s, s' := a + ":" + x, b + ":" + y;
    ColonAt(a, x);
    ColonAt(b, y);
    assert |a| == |b|;
    assert s[..|a|] == a && s'[..|b|] == b && s[|a| + 1..] == x && s'[|b| + 1..] == y;
  }

  lemma SameEnd(a: string, b: string, e: string)
    requires a + e == b + e
    ensures a == b
  {
    assert (a + e)[..|a|] == a && (b + e)[..|b|] == b;
  }

  /** A status list's key: the issuer's part, then what a query looks for at the end. */
  lemma StatusListKeyParts(t: ListName)
    ensures StatusListKey(t) == ("is:" + t.issuer + ":") + Join(["sc", t.schema, "sp", t.purpose])
    ensures Join(["sc", t.schema, "sp", t.purpose]) == ("sc:" + t.schema + ":sp") + ":" + t.purpose
  {
    JoinSix("is", t.issuer, "sc", t.schema, "sp", t.purpose);
    JoinFour("sc", t.schema, "sp", t.purpose);
    assert "is" + ":" + t.issuer + ":" == "is:" + t.issuer + ":";
    assert "sc" + ":" + t.schema + ":" + "sp" == "sc:" + t.schema + ":sp";
  }

  /** With a colon-free schema and purpose, the end of the key says which they are. */
  lemma SuffixDecides(t': ListName, t: ListName)
    requires Plain(t'.schema) && Plain(t'.purpose) && Plain(t.schema) && Plain(t.purpose)
    ensures HasSuffix(StatusListKey(t'), Join(["sc", t.schema, "sp", t.purpose])) <==> t'.schema == t.schema && t'.purpose == t.purpose
  {
    var key, query := StatusListKey(t'), Join(["sc", t.schema, "sp", t.purpose]);
    StatusListKeyParts(t');
    StatusListKeyParts(t);
    var head := "is:" + t'.issuer + ":";
    if HasSuffix(key, query) {
      var u := key[..|key| - |query|];
      assert key == u + query;
      EndsAlike(u, t.schema, t.purpose, head, t'.schema, t'.purpose);
    }
    if t'.schema == t.schema && t'.purpose == t.purpose {
      assert key[|head|..] == query;
    }
  }

  lemma EndsAlike(u: string, schema: string, purpose: string, u': string, schema': string, purpose': string)
    requires Plain(schema') && Plain(purpose') && Plain(schema) && Plain(purpose)
    requires u + (("sc:" + schema + ":sp") + ":" + purpose) == u' + (("sc:" + schema' + ":sp") + ":" + purpose')
    ensures u == u' && schema == schema' && purpose == purpose'
  {
    var a, b := (u + "sc") + ":" + schema, (u' + "sc") + ":" + schema';
    assert (a + ":sp") + ":" + purpose == u + (("sc:" + schema + ":sp") + ":" + purpose);
    assert (b + ":sp") + ":" + purpose' == u' + (("sc:" + schema' + ":sp") + ":" + purpose');
    LastColon(a + ":sp", purpose, b + ":sp", purpose');
    SameEnd(a, b, ":sp");
    LastColon(u + "sc", schema, u' + "sc", schema');
    SameEnd(u, u', "sc");
  }

  // ---- Status lists ----

  /** No issuer can be mistaken for a longer one when its key is read from the left. */
  predicate ClearIssuer(issuer: string) { !Contains(issuer + ":sc", ":sc:") }

  /** Two triples share a key only if they are the same. */
  lemma StatusListKeyInjective(t: ListName, t': ListName)
    requires ClearIssuer(t.issuer) && ClearIssuer(t'.issuer) && Plain(t.purpose) && Plain(t'.purpose)
    requires StatusListKey(t) == StatusListKey(t')
    ensures t == t'
  {
    var rest, rest' := (t.schema + ":sp") + ":" + t.purpose, (t'.schema + ":sp") + ":" + t'.purpose;
    KeyFromLeft(t);
    KeyFromLeft(t');
    SameStart("is:", t.issuer + ":sc:" + rest, t'.issuer + ":sc:" + rest');
    if |t.issuer| < |t'.issuer| { MarkInside(t.issuer, rest, t'.issuer, rest'); }
    if |t'.issuer| < |t.issuer| { MarkInside(t'.issuer, rest', t.issuer, rest); }
    SameIssuer(t.issuer, rest, t'.issuer, rest');
    LastColon(t.schema + ":sp", t.purpose, t'.schema + ":sp", t'.purpose);
    SameEnd(t.schema, t'.schema, ":sp");
  }

  lemma KeyFromLeft(t: ListName)
    ensures StatusListKey(t) == "is:" + (t.issuer + ":sc:" + ((t.schema + ":sp") + ":" + t.purpose))
  {
    StatusListKeyParts(t);
  }

  lemma SameStart(a: string, x: string, y: string)
    requires a + x == a + y
    ensures x == y
  {
    assert (a + x)[|a|..] == x && (a + y)[|a|..] == y;
  }

  lemma SameIssuer(issuer: string, rest: string, issuer': string, rest': string)
    requires |issuer| == |issuer'| && issuer + ":sc:" + rest == issuer' + ":sc:" + rest'
    ensures issuer == issuer' && rest == rest'
  {
    var n := |issuer|;
    assert (issuer + ":sc:" + rest)[..n] == issuer && (issuer' + ":sc:" + rest')[..n] == issuer';
    assert (issuer + ":sc:" + rest)[n + 4..] == rest && (issuer' + ":sc:" + rest')[n + 4..] == rest';
  }

  lemma MarkInside(issuer: string, rest: string, issuer': string, rest': string)
    requires |issuer| < |issuer'| && issuer + ":sc:" + rest == issuer' + ":sc:" + rest'
    ensures Contains(issuer' + ":sc", ":sc:")
  {
    var i := |issuer|;
    assert (issuer + ":sc:" + rest)[i..i + 4] == ":sc:";
    assert (issuer' + ":sc:" + rest')[i..i + 4] == (issuer' + ":sc")[i..i + 4];
    assert OccursAt(issuer' + ":sc", ":sc:", i);
  }

  function Scan(keys: seq<string>, t: ListName): seq<string>
    decreases |keys|
  {
    if keys == [] then []
    else Scan(keys[..|keys| - 1], t) + if ListMatches(keys[|keys| - 1], t) then [keys[|keys| - 1]] else []
  }

  /** The scan over all keys of the namespace. */
  method GetStatusListKeys(keys: seq<string>, t: ListName) returns (found: seq<string>)
    ensures found == Scan(keys, t)
  {
    found := [];
    var query := Join(["sc", t.schema, "sp", t.purpose]);
    for i := 0 to |keys|
      invariant found == Scan(keys[..i], t)
    {
      assert keys[..i + 1][..i] == keys[..i];
      if Contains(keys[i], t.issuer) && HasSuffix(keys[i], query) {
        found := found + [keys[i]];
      }
    }
    assert keys[..|keys|] == keys;
  }

  /** The scan takes a key if and only if it is there and matches. */
  lemma {:induction false} ScanDecides(keys: seq<string>, t: ListName, key: string)
    ensures key in Scan(keys, t) <==> key in keys && ListMatches(key, t)
    decreases |keys|
  {
    if keys != [] {
      var n := |keys| - 1;
      assert key in keys <==> key in keys[..n] || key == keys[n];
      ScanDecides(keys[..n], t, key);
    }
  }

  function KeysOf(ts: seq<ListName>): seq<string> { seq(|ts|, i requires 0 <= i < |ts| => StatusListKey(ts[i])) }

  /** Whatever colons its parts have, a key matches a scan for its own triple. */
  lemma OwnKeyMatches(t: ListName)
    ensures ListMatches(StatusListKey(t), t)
  {
    var key, query := StatusListKey(t), Join(["sc", t.schema, "sp", t.purpose]);
    StatusListKeyParts(t);
    assert key[|"is:" + t.issuer + ":"|..] == query;
    assert OccursAt(key, t.issuer, 3);
  }

  predicate Distinct(ts: seq<ListName>) { forall i, j :: 0 <= i < j < |ts| ==> ts[i] != ts[j] }

  /** No key of another triple of the same schema and purpose has the issuer somewhere in it. */
  predicate Unmistakable(ts: seq<ListName>, t: ListName) {
    forall i :: 0 <= i < |ts| && ts[i] != t && ts[i].schema == t.schema && ts[i].purpose == t.purpose ==> !Contains(StatusListKey(ts[i]), t.issuer)
  }

  /** With colon-free schemas and purposes the scan finds exactly the triple's own list if and only
      if no other list of that schema and purpose has the issuer somewhere in its key. */
  lemma {:induction false} ScanIsExact(ts: seq<ListName>, t: ListName)
    requires Distinct(ts) && Plain(t.schema) && Plain(t.purpose)
    requires forall i :: 0 <= i < |ts| ==> Plain(ts[i].schema) && Plain(ts[i].purpose)
    ensures Scan(KeysOf(ts), t) == (if t in ts then [StatusListKey(t)] else []) <==> Unmistakable(ts, t)
    ensures |Scan(KeysOf(ts), t)| >= if t in ts then 1 else 0
    decreases |ts|
  {
    if ts != [] {
      var n := |ts| - 1;
      ScanIsExact(ts[..n], t);
      assert KeysOf(ts)[..n] == KeysOf(ts[..n]);
      assert t in ts <==> t in ts[..n] || t == ts[n];
      UnmistakableUnfolds(ts, t);
      if ts[n] == t {
        OwnKeyMatches(t);
        assert t !in ts[..n];
      } else if ListMatches(StatusListKey(ts[n]), t) {
        assert |Scan(KeysOf(ts), t)| == |Scan(KeysOf(ts[..n]), t)| + 1;
      }
    }
  }

  lemma UnmistakableUnfolds(ts: seq<ListName>, t: ListName)
    requires ts != [] && Plain(t.schema) && Plain(t.purpose) && Plain(ts[|ts| - 1].schema) && Plain(ts[|ts| - 1].purpose)
    ensures var n := |ts| - 1;
      Unmistakable(ts, t) <==> Unmistakable(ts[..n], t) && (ts[n] == t || !ListMatches(StatusListKey(ts[n]), t))
  {
    SuffixDecides(ts[|ts| - 1], t);
  }

  /** An issuer that begins another issuer's name is handed the other's list. */
  lemma IssuerPrefixIsMistaken(issuer: string, more: string, schema: string, purpose: string)
    requires Plain(schema) && Plain(purpose) && more != ""
    ensures
      var t, t' := ListName(issuer, schema, purpose), ListName(issuer + more, schema, purpose);
      Scan(KeysOf([t']), t) == [StatusListKey(t')]
  {
    var t, t' := ListName(issuer, schema, purpose), ListName(issuer + more, schema, purpose);
    SuffixDecides(t', t);
    StatusListKeyParts(t');
    assert OccursAt(StatusListKey(t'), issuer, 3);
    assert KeysOf([t']) == [StatusListKey(t')] && [StatusListKey(t')][..0] == [];
  }

  // ---- Credentials ----

  lemma PrefixesNest(key: string, a: string, b: string)
    requires HasPrefix(key, a) && HasPrefix(key, b)
    ensures HasPrefix(a, b) || HasPrefix(b, a)
  {
    if |a| <= |b| {
      assert b[..|a|] == key[..|b|][..|a|] == key[..|a|];
    } else {
      assert a[..|b|] == key[..|a|][..|b|] == key[..|b|];
    }
  }

  predicate Apart(a: string, b: string) { !HasPrefix(a, b) && !HasPrefix(b, a) }

  /** A key begins with an id only if it is the id's own, when no id begins another. */
  lemma PrefixDecides(c: CredentialName, id: string)
    requires c.id == id || Apart(c.id, id)
    ensures HasPrefix(PrefixKey(c), id) <==> c.id == id
  {
    PrefixKeyParts(c);
    assert HasPrefix(PrefixKey(c), c.id);
    if HasPrefix(PrefixKey(c), id) {
      PrefixesNest(PrefixKey(c), c.id, id);
    }
  }

  /** Ids of one length, as UUIDs are, never begin one another. */
  lemma SameLengthApart(a: string, b: string)
    requires |a| == |b|
    ensures a == b || Apart(a, b)
  {
    assert a[..|b|] == a && b[..|a|] == b;
  }

  /** A bucket that holds credentials under their own keys. */
  ghost predicate HoldsCredentials(b: Bucket<CredentialName>) {
    Sorted(b) && forall i :: 0 <= i < |b| ==> b[i].0 == PrefixKey(b[i].1)
  }

  predicate OnlyAt(b: Bucket<CredentialName>, id: string, i: nat) {
    i < |b| && b[i].1.id == id && forall j :: 0 <= j < |b| && b[j].1.id == id ==> j == i
  }

  /** The credential at `i` is the one whose key begins with the id, and the only one. */
  predicate OnlyMatch(b: Bucket<CredentialName>, id: string, i: nat) {
    i < |b| && HasPrefix(b[i].0, id) && forall j :: 0 <= j < |b| && HasPrefix(b[j].0, id) ==> j == i
  }

  /** Reading by the id as a prefix gives the credential if exactly one key begins with the id. It is
      the requested one if and only if the requested one is stored; otherwise it is that of an id
      which the requested one begins. */
  method GetCredential(b: Bucket<CredentialName>, id: string) returns (r: Result<CredentialName>)
    requires HoldsCredentials(b)
    ensures r.Ok? <==> exists i: nat :: OnlyMatch(b, id, i)
    ensures r.Ok? ==> exists i: nat :: OnlyMatch(b, id, i) && b[i].1 == r.value
    ensures r.Ok? ==> (r.value.id == id <==> exists i :: 0 <= i < |b| && b[i].1.id == id)
  {
    var values := Paging.ReadPrefix(b, id);
    forall i | 0 <= i < |b| ensures b[i].0 in values <==> HasPrefix(b[i].0, id) { assert Holds(b, b[i].0); }
    OneKey(b, id, values);
    if |values| > 1 {
      return Err("multiple prefix values matched credential id");
    }
    if values == map[] {
      return Err("credential not found");
    }
    var key :| key in values;
    r := Ok(values[key]);
    forall i | 0 <= i < |b| && b[i].1.id == id ensures HasPrefix(b[i].0, id) { PrefixKeyParts(b[i].1); }
  }

  /** When no other id begins with this one or the other way round, the only match is the only
      credential with the id. */
  lemma MatchesById(b: Bucket<CredentialName>, id: string, i: nat)
    requires HoldsCredentials(b) && forall i :: 0 <= i < |b| ==> b[i].1.id == id || Apart(b[i].1.id, id)
    ensures OnlyMatch(b, id, i) <==> OnlyAt(b, id, i)
  {
    forall i | 0 <= i < |b| ensures HasPrefix(b[i].0, id) <==> b[i].1.id == id { PrefixDecides(b[i].1, id); }
  }

  lemma OneKey(b: Bucket<CredentialName>, id: string, values: map<string, CredentialName>)
    requires HoldsCredentials(b)
    requires forall key :: key in values ==> Holds(b, key)
    requires forall i :: 0 <= i < |b| ==> (b[i].0 in values <==> HasPrefix(b[i].0, id))
    requires forall i :: 0 <= i < |b| && b[i].0 in values ==> values[b[i].0] == b[i].1
    ensures |values| == 1 <==> exists i: nat :: OnlyMatch(b, id, i)
    ensures |values| == 1 ==> forall key :: key in values ==> exists i: nat :: OnlyMatch(b, id, i) && b[i].1 == values[key]
  {
    forall i, j | 0 <= i < j < |b| ensures b[i].0 != b[j].0 { LessTotal(b[i].0, b[j].0); }
    if i: nat :| OnlyMatch(b, id, i) {
      assert values.Keys == {b[i].0};
      assert |values| == |values.Keys|;
    }
    if |values| == 1 {
      var key :| key in values;
      Singleton(values, key);
      var i :| 0 <= i < |b| && b[i].0 == key;
      assert OnlyMatch(b, id, i);
    }
  }

  lemma Singleton<T>(m: map<string, T>, key: string)
    requires key in m && |m| == 1
    ensures m.Keys == {key}
  {
    assert |m.Keys - {key}| == |m.Keys| - 1;
    assert |m.Keys| == |m|;
    assert m.Keys - {key} == {};
  }

  /** The credential scan of an issuer and schema takes exactly the credentials of that schema with
      the issuer somewhere in their key, their own among them. */
  lemma CredentialScanDecides(c: CredentialName, issuer: string, schema: string)
    requires Plain(c.schema) && Plain(schema)
    ensures CredentialMatches(PrefixKey(c), issuer, schema) <==> c.schema == schema && Contains(PrefixKey(c), issuer)
    ensures Contains(PrefixKey(c), c.issuer)
  {
    SchemaDecides(c, schema);
    PrefixKeyParts(c);
    assert OccursAt(PrefixKey(c), c.issuer, |c.id| + 4);
  }

  /** Whatever colons its parts have, a credential's key matches a scan for its own issuer and schema. */
  lemma OwnCredentialMatches(c: CredentialName)
    ensures CredentialMatches(PrefixKey(c), c.issuer, c.schema)
  {
    var key := PrefixKey(c);
    PrefixKeyParts(c);
    JoinTwo("sc", c.schema);
    var front := c.id + ":is:" + c.issuer + ":su:" + c.subject + ":";
    assert key == front + ("sc" + ":" + c.schema);
    assert key[|front|..] == "sc" + ":" + c.schema;
    assert OccursAt(key, c.issuer, |c.id| + 4);
  }

  /** A scan for the credentials of an issuer also takes those that others have issued to it. */
  lemma SubjectIsMistaken(id: string, issuer: string, subject: string, schema: string)
    ensures CredentialMatches(PrefixKey(CredentialName(id, issuer, subject, schema)), subject, schema)
  {
    var c := CredentialName(id, issuer, subject, schema);
    OwnCredentialMatches(c);
    PrefixKeyParts(c);
    assert PrefixKey(c) == (id + ":is:" + issuer + ":su:") + subject + (":sc" + ":" + schema);
    assert OccursAt(PrefixKey(c), subject, |id + ":is:" + issuer + ":su:"|);
  }

  lemma SchemaDecides(c: CredentialName, schema: string)
    requires Plain(c.schema) && Plain(schema)
    ensures HasSuffix(PrefixKey(c), Join(["sc", schema])) <==> c.schema == schema
  {
    var key, query := PrefixKey(c), Join(["sc", schema]);
    PrefixKeyParts(c);
    JoinTwo("sc", schema);
    var front := c.id + ":is:" + c.issuer + ":su:" + c.subject + ":";
    assert c.id + ":is:" + c.issuer + ":su:" + c.subject + ":sc" == front + "sc";
    if HasSuffix(key, query) {
      var u := key[..|key| - |query|];
      assert key == u + query == (u + "sc") + ":" + schema;
      LastColon(u + "sc", schema, front + "sc", c.schema);
    }
    if c.schema == schema {
      assert key[|front|..] == query;
    }
  }
}
