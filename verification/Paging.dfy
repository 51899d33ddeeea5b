/** Cursor paging over one namespace's bucket, on a store that may change between two pages. */
module Paging {
  import opened KeyOrder

  /** A bucket, as its cursor runs through it. */
  type Bucket<V> = seq<(string, V)>

  ghost predicate Sorted<V>(b: Bucket<V>) {
    && (forall i :: 0 <= i < |b| ==> b[i].0 != "")
    && (forall i, j :: 0 <= i < j < |b| ==> Less(b[i].0, b[j].0))
  }

  function MapOf<V>(entries: Bucket<V>): map<string, V>
    decreases |entries|
  {
    if entries == [] then map[] else MapOf(entries[..|entries| - 1])[entries[|entries| - 1].0 := entries[|entries| - 1].1]
  }

  predicate Holds<V>(b: Bucket<V>, key: string) { exists i :: 0 <= i < |b| && b[i].0 == key }

  /** Where the cursor lands: the first key not before the token. */
  function Seek<V>(b: Bucket<V>, token: string): (n: nat)
    ensures n <= |b|
  {
    SeekFrom(b, token, 0)
  }

  function SeekFrom<V>(b: Bucket<V>, token: string, start: nat): (n: nat)
    requires start <= |b|
    ensures start <= n <= |b|
    decreases |b| - start
  {
    if start < |b| && Less(b[start].0, token) then SeekFrom(b, token, start + 1) else start
  }

  lemma {:induction false} SeekStops<V>(b: Bucket<V>, token: string, start: nat)
    requires start <= |b|
    ensures var n := SeekFrom(b, token, start);
      (forall i :: start <= i < n ==> Less(b[i].0, token)) && (n < |b| ==> !Less(b[n].0, token))
    decreases |b| - start
  {
    if start < |b| && Less(b[start].0, token) {
      SeekStops(b, token, start + 1);
    }
  }

  datatype Page<V> = Page(entries: Bucket<V>, next: string)

  /** `size` entries from the token on (all of them for -1), and the key that follows them. */
  function PageOf<V>(b: Bucket<V>, token: string, size: int): (p: Page<V>)
  {
    var rest := b[Seek(b, token)..];
    if size == -1 || size >= |rest| then Page(rest, "")
    else if size <= 0 then Page([], "")
    else Page(rest[..size], rest[size].0)
  }

  lemma SeekPast<V>(b: Bucket<V>, token: string)
    requires Sorted(b)
    ensures forall i :: Seek(b, token) <= i < |b| ==> !Less(b[i].0, token)
  {
    SeekStops(b, token, 0);
    forall i | Seek(b, token) <= i < |b| ensures !Less(b[i].0, token) {
      var n := Seek(b, token);
      if n < i && Less(b[i].0, token) { LessTrans(b[n].0, b[i].0, token); }
    }
  }

  lemma SeekFinds<V>(b: Bucket<V>, n: nat)
    requires Sorted(b) && n < |b|
    ensures Seek(b, b[n].0) == n
  {
    SeekStops(b, b[n].0, 0);
    LessTotal(b[n].0, b[n].0);
  }

  // ---- Reading loops ----

  method ReadPage<V>(b: Bucket<V>, token: string, size: int) returns (result: map<string, V>, next: string)
    requires Sorted(b)
    ensures result == MapOf(PageOf(b, token, size).entries) && next == PageOf(b, token, size).next
    ensures |result| == |PageOf(b, token, size).entries|
  {
    result, next := map[], "";
    var k: nat := 0;
    if token != "" {
      k := Seek(b, token);
    }
    ghost var rest := b[Seek(b, token)..];
    ghost var read := 0;
    while size == -1 || |result| < size
      invariant read <= |rest| && k == |b| - |rest| + read
      invariant result == MapOf(rest[..read]) && |result| == read
      invariant size != -1 ==> read <= size || read == 0
      invariant next == if read == 0 || read == |rest| then "" else rest[read].0
      decreases |rest| - read
    {
      if k == |b| {
        break;
      }
      MapGrows(rest, read);
      result := result[b[k].0 := b[k].1];
      k := k + 1;
      read := read + 1;
      next := if k < |b| then b[k].0 else "";
    }
    PageRead(b, token, size, read);
  }

  /** What has been read when the loop stops is the page. */
  lemma PageRead<V>(b: Bucket<V>, token: string, size: int, read: nat)
    requires read <= |b| - Seek(b, token)
    requires if size != -1 && read >= size then read == 0 || read == size else read == |b| - Seek(b, token)
    ensures var rest := b[Seek(b, token)..];
      PageOf(b, token, size) == Page(rest[..read], if read == 0 || read == |rest| then "" else rest[read].0)
  {
    var rest := b[Seek(b, token)..];
    assert rest[..|rest|] == rest;
  }

  lemma MapGrows<V>(b: Bucket<V>, n: nat)
    requires n < |b| && (forall i, j :: 0 <= i < j < |b| ==> Less(b[i].0, b[j].0))
    ensures MapOf(b[..n + 1]) == MapOf(b[..n])[b[n].0 := b[n].1]
    ensures b[n].0 !in MapOf(b[..n])
  {
    assert b[..n + 1][..n] == b[..n];
    HoldsMap(b[..n], b[n].0);
    forall i | 0 <= i < n ensures b[..n][i].0 != b[n].0 { LessTotal(b[i].0, b[n].0); }
  }

  lemma {:induction false} HoldsMap<V>(b: Bucket<V>, key: string)
    ensures key in MapOf(b) <==> Holds(b, key)
    decreases |b|
  {
    if b != [] {
      var n := |b| - 1;
      HoldsMap(b[..n], key);
      assert Holds(b, key) <==> Holds(b[..n], key) || b[n].0 == key;
    }
  }

  method ReadAll<V>(b: Bucket<V>) returns (result: map<string, V>)
    ensures result == MapOf(b)
  {
    result := map[];
    for k := 0 to |b|
      invariant result == MapOf(b[..k])
    {
      assert b[..k + 1][..k] == b[..k];
      result := result[b[k].0 := b[k].1];
    }
    assert b[..|b|] == b;
  }

  /** The block that a prefix query reads is all there is with that prefix. */
  method ReadPrefix<V>(b: Bucket<V>, prefix: string) returns (result: map<string, V>)
    requires Sorted(b)
    ensures forall key :: key in result <==> HasPrefix(key, prefix) && Holds(b, key)
    ensures forall i :: 0 <= i < |b| && HasPrefix(b[i].0, prefix) ==> b[i].0 in result && result[b[i].0] == b[i].1
  {
    result := map[];
    var k := Seek(b, prefix);
    SeekStops(b, prefix, 0);
    forall i | 0 <= i < k ensures !HasPrefix(b[i].0, prefix) { PrefixBlock(prefix, b[i].0, ""); }
    while k < |b| && HasPrefix(b[k].0, prefix)
      invariant Seek(b, prefix) <= k <= |b|
      invariant forall key :: key in result <==> HasPrefix(key, prefix) && Holds(b[..k], key)
      invariant forall i :: 0 <= i < k && HasPrefix(b[i].0, prefix) ==> b[i].0 in result && result[b[i].0] == b[i].1
    {
      assert forall key :: Holds(b[..k + 1], key) <==> Holds(b[..k], key) || b[k].0 == key by {
        assert forall i :: 0 <= i < k ==> b[..k + 1][i] == b[..k][i];
      }
      forall i | 0 <= i < k ensures b[i].0 != b[k].0 { LessTotal(b[i].0, b[k].0); }
      result := result[b[k].0 := b[k].1];
      k := k + 1;
    }
    SeekPast(b, prefix);
    forall i | k <= i < |b| ensures !HasPrefix(b[i].0, prefix) { PrefixBlock(prefix, b[k].0, b[i].0); }
    forall key | HasPrefix(key, prefix) ensures Holds(b, key) <==> Holds(b[..k], key) {
      if Holds(b[..k], key) { var i :| 0 <= i < k && b[..k][i].0 == key; assert b[i].0 == key; }
      if Holds(b, key) { var i :| 0 <= i < |b| && b[i].0 == key; assert b[..k][i].0 == key; }
    }
  }

  // ---- Following the tokens ----

  /** The entries handed out by following the tokens, page i read from the bucket bs[i]. */
  function Walk<V>(bs: seq<Bucket<V>>, token: string, size: int): Bucket<V>
    decreases |bs|
  {
    if bs == [] then []
    else
      var p := PageOf(bs[0], token, size);
      p.entries + if p.next == "" then [] else Walk(bs[1..], p.next, size)
  }

  /** The walk gets to a page without a token. */
  predicate Completes<V>(bs: seq<Bucket<V>>, token: string, size: int)
    decreases |bs|
  {
    bs != [] && (PageOf(bs[0], token, size).next == "" || Completes(bs[1..], PageOf(bs[0], token, size).next, size))
  }

  lemma PageShape<V>(b: Bucket<V>, token: string, size: int)
    requires Sorted(b)
    ensures
      var p, n := PageOf(b, token, size), Seek(b, token);
      && Sorted(p.entries)
      && (forall i :: 0 <= i < |p.entries| ==> !Less(p.entries[i].0, token) && p.entries[i] == b[n + i])
      && (p.next != "" ==> 0 < |p.entries| == size && n + size < |b| && p.next == b[n + size].0
                           && forall i :: 0 <= i < |p.entries| ==> Less(p.entries[i].0, p.next))
      && (p.next == "" && (size == -1 || size >= 1) ==> p.entries == b[n..])
  {
    SeekPast(b, token);
  }

  /** Whatever is written or deleted between the pages, a walk hands out no key twice. */
  lemma {:induction false} NoKeyTwice<V>(bs: seq<Bucket<V>>, token: string, size: int)
    requires forall i :: 0 <= i < |bs| ==> Sorted(bs[i])
    ensures Sorted(Walk(bs, token, size))
    ensures forall i :: 0 <= i < |Walk(bs, token, size)| ==> !Less(Walk(bs, token, size)[i].0, token)
    decreases |bs|
  {
    if bs != [] {
      var p := PageOf(bs[0], token, size);
      PageShape(bs[0], token, size);
      if p.next != "" {
        var rest := Walk(bs[1..], p.next, size);
        NoKeyTwice(bs[1..], p.next, size);
        forall i, j | 0 <= i < |p.entries| && 0 <= j < |rest| ensures Less(p.entries[i].0, rest[j].0) {
          LessTotal(p.next, rest[j].0);
          if rest[j].0 != p.next { LessTrans(p.entries[i].0, p.next, rest[j].0); }
        }
        forall j | 0 <= j < |rest| ensures !Less(rest[j].0, token) {
          if Less(rest[j].0, token) { LessTrans(p.entries[0].0, rest[j].0, token); }
        }
      }
    }
  }

  /** A walk that completes hands out every key that was present throughout, with a value it had on
      one of the pages. */
  lemma {:induction false} NoKeyMissed<V>(bs: seq<Bucket<V>>, token: string, size: int, key: string)
    requires forall i :: 0 <= i < |bs| ==> Sorted(bs[i]) && Holds(bs[i], key)
    requires size == -1 || size >= 1
    requires Completes(bs, token, size) && !Less(key, token)
    ensures Holds(Walk(bs, token, size), key)
    decreases |bs|
  {
    var p := PageOf(bs[0], token, size);
    OnThisPageOrLater(bs[0], token, size, key);
    if Holds(p.entries, key) {
      var i :| 0 <= i < |p.entries| && p.entries[i].0 == key;
      assert Walk(bs, token, size)[i] == p.entries[i];
    } else {
      NoKeyMissed(bs[1..], p.next, size, key);
      var rest := Walk(bs[1..], p.next, size);
      var j :| 0 <= j < |rest| && rest[j].0 == key;
      assert Walk(bs, token, size)[|p.entries| + j] == rest[j];
    }
  }

  predicate Once<V>(entries: Bucket<V>, key: string) {
    exists i :: 0 <= i < |entries| && entries[i].0 == key && forall j :: 0 <= j < |entries| && entries[j].0 == key ==> j == i
  }

  /** Both together: a key that is there throughout is handed out exactly once. */
  lemma EveryKeyOnce<V>(bs: seq<Bucket<V>>, size: int, key: string)
    requires forall i :: 0 <= i < |bs| ==> Sorted(bs[i]) && Holds(bs[i], key)
    requires (size == -1 || size >= 1) && Completes(bs, "", size)
    ensures Once(Walk(bs, "", size), key)
  {
    NoKeyTwice(bs, "", size);
    NoKeyMissed(bs, "", size, key);
    SortedOnce(Walk(bs, "", size), key);
  }

  lemma SortedOnce<V>(entries: Bucket<V>, key: string)
    requires Sorted(entries) && Holds(entries, key)
    ensures Once(entries, key)
  {
    var i :| 0 <= i < |entries| && entries[i].0 == key;
    forall j | 0 <= j < |entries| && entries[j].0 == key ensures j == i { LessTotal(entries[i].0, entries[j].0); }
  }

  lemma OnThisPageOrLater<V>(b: Bucket<V>, token: string, size: int, key: string)
    requires Sorted(b) && Holds(b, key) && (size == -1 || size >= 1) && !Less(key, token)
    ensures var p := PageOf(b, token, size); Holds(p.entries, key) || (p.next != "" && !Less(key, p.next))
  {
    var n := Seek(b, token);
    var rest := b[n..];
    SeekStops(b, token, 0);
    var i :| 0 <= i < |b| && b[i].0 == key;
    assert rest[i - n].0 == key;
    if size != -1 && size <= i - n {
      assert PageOf(b, token, size).next == rest[size].0 == b[n + size].0;
      LessTotal(b[n + size].0, key);
    } else if size != -1 && size < |rest| {
      assert rest[..size][i - n].0 == key;
    }
  }

  /** Every entry handed out was in the bucket when some page was read. */
  lemma {:induction false} NothingInvented<V>(bs: seq<Bucket<V>>, token: string, size: int, e: (string, V))
    requires e in Walk(bs, token, size)
    ensures exists i :: 0 <= i < |bs| && e in bs[i]
    decreases |bs|
  {
    var p := PageOf(bs[0], token, size);
    if e !in bs[0] {
      assert e !in p.entries && e in Walk(bs[1..], p.next, size);
      NothingInvented(bs[1..], p.next, size, e);
      var i :| 0 <= i < |bs[1..]| && e in bs[1..][i];
      assert bs[1..][i] == bs[i + 1];
    }
  }

  function CeilDiv(n: nat, size: nat): nat
    requires size > 0
  {
    if n == 0 then 0 else if n <= size then 1 else 1 + CeilDiv(n - size, size)
  }

  /** n / size, rounded up. */
  lemma {:induction false} CeilDivRoundsUp(n: nat, size: nat)
    requires size > 0
    ensures n <= CeilDiv(n, size) * size < n + size
  {
    if n > size {
      CeilDivRoundsUp(n - size, size);
      assert CeilDiv(n, size) * size == CeilDiv(n - size, size) * size + size;
    }
  }

  function PagesNeeded(n: nat, size: int): nat
    requires size == -1 || size >= 1
  {
    if size == -1 || n == 0 then 1 else CeilDiv(n, size)
  }

  predicate Enough(pages: nat, n: nat, size: int) {
    pages > 0 && (size <= 0 || n <= size || Enough(pages - 1, n - size, size))
  }

  lemma {:induction false} EnoughPages(pages: nat, n: nat, size: int)
    requires size == -1 || size >= 1
    ensures Enough(pages, n, size) <==> pages >= PagesNeeded(n, size)
    decreases pages
  {
    if pages > 0 && 0 < size < n {
      EnoughPages(pages - 1, n - size, size);
    }
  }

  /** The store does not change while the walk lasts. */
  predicate Quiet<V(==)>(bs: seq<Bucket<V>>, b: Bucket<V>) { forall i :: 0 <= i < |bs| ==> bs[i] == b }

  /** One page of a quiet walk: a full one and the rest of the walk, or the last one. */
  lemma QuietStep<V>(bs: seq<Bucket<V>>, b: Bucket<V>, token: string, size: int)
    requires Sorted(b) && bs != [] && bs[0] == b && (size == -1 || size >= 1)
    ensures
      var n := Seek(b, token);
      if 0 < size < |b| - n then
        var token' := b[n + size].0;
        && Seek(b, token') == n + size
        && Completes(bs, token, size) == Completes(bs[1..], token', size)
        && Walk(bs, token, size) == b[n..n + size] + Walk(bs[1..], token', size)
      else Completes(bs, token, size) && Walk(bs, token, size) == b[n..]
  {
    var n := Seek(b, token);
    if 0 < size < |b| - n {
      SeekFinds(b, n + size);
      assert PageOf(b, token, size) == Page(b[n..n + size], b[n + size].0);
    }
  }

  /** Its part that does not speak of what is handed out. */
  lemma QuietStepCompletes<V>(bs: seq<Bucket<V>>, b: Bucket<V>, token: string, size: int)
    requires Sorted(b) && bs != [] && bs[0] == b && (size == -1 || size >= 1)
    ensures
      var n := Seek(b, token);
      if 0 < size < |b| - n then Seek(b, b[n + size].0) == n + size && Completes(bs, token, size) == Completes(bs[1..], b[n + size].0, size)
      else Completes(bs, token, size)
  {
    QuietStep(bs, b, token, size);
  }

  lemma {:induction false} QuietPages<V>(bs: seq<Bucket<V>>, b: Bucket<V>, token: string, size: int)
    requires Sorted(b) && Quiet(bs, b) && (size == -1 || size >= 1)
    ensures Completes(bs, token, size) <==> Enough(|bs|, |b| - Seek(b, token), size)
    decreases |bs|
  {
    if bs != [] {
      var n := Seek(b, token);
      QuietStepCompletes(bs, b, token, size);
      if 0 < size < |b| - n {
        QuietPages(bs[1..], b, b[n + size].0, size);
      }
    }
  }

  lemma {:induction false} QuietConcat<V>(bs: seq<Bucket<V>>, b: Bucket<V>, token: string, size: int)
    requires Sorted(b) && Quiet(bs, b) && (size == -1 || size >= 1)
    ensures Completes(bs, token, size) ==> Walk(bs, token, size) == b[Seek(b, token)..]
    decreases |bs|
  {
    if bs != [] {
      var n := Seek(b, token);
      QuietStep(bs, b, token, size);
      if 0 < size < |b| - n {
        QuietConcat(bs[1..], b, b[n + size].0, size);
        Rejoin(b, n, n + size);
      }
    }
  }

  lemma Rejoin<T>(s: seq<T>, i: nat, j: nat)
    requires i <= j <= |s|
    ensures s[i..j] + s[j..] == s[i..]
  {
  }

  /** max(1, ceil(n / size)) pages, for a positive size. */
  lemma PagesNeededRoundsUp(n: nat, size: int)
    requires size >= 1
    ensures PagesNeeded(n, size) >= 1
    ensures n <= PagesNeeded(n, size) * size
    ensures n > 0 ==> PagesNeeded(n, size) * size < n + size
  {
    CeilDivRoundsUp(n, size);
  }

  /** On a quiet store the pages from a token on concatenate to the rest of the bucket, and it takes
      exactly max(1, ceil(n / size)) of them; from the start they are what ReadAll reads. */
  lemma QuietWalk<V>(bs: seq<Bucket<V>>, b: Bucket<V>, token: string, size: int)
    requires Sorted(b) && Quiet(bs, b) && (size == -1 || size >= 1)
    ensures Completes(bs, token, size) <==> |bs| >= PagesNeeded(|b| - Seek(b, token), size)
    ensures size >= 1 ==>
      var n := |b| - Seek(b, token);
      && PagesNeeded(n, size) >= 1 && n <= PagesNeeded(n, size) * size
      && (n > 0 ==> PagesNeeded(n, size) * size < n + size)
    ensures Completes(bs, token, size) ==> Walk(bs, token, size) == b[Seek(b, token)..]
    ensures Seek(b, "") == 0
  {
    EnoughPages(|bs|, |b| - Seek(b, token), size);
    if size >= 1 { PagesNeededRoundsUp(|b| - Seek(b, token), size); }
    QuietPages(bs, b, token, size);
    QuietConcat(bs, b, token, size);
  }

  /** With a page size of zero, or below -1, nothing is ever handed out, and there is no token to go
      on with. */
  lemma NothingToPage<V>(bs: seq<Bucket<V>>, token: string, size: int)
    requires size == 0 || size < -1
    ensures Walk(bs, token, size) == []
    ensures forall b: Bucket<V> :: PageOf(b, token, size) == Page([], "")
    ensures Completes(bs, token, size) <==> bs != []
  {
  }
}
