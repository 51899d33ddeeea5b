/** Keys as Bolt's cursors and SQL's ORDER BY see them: strings in byte order. */
module KeyOrder {

  predicate Less(a: string, b: string)
    decreases |a|
  {
    b != "" && (a == "" || a[0] < b[0] || (a[0] == b[0] && Less(a[1..], b[1..])))
  }

  predicate HasPrefix(s: string, prefix: string) { |prefix| <= |s| && s[..|prefix|] == prefix }

  lemma {:induction false} LessTrans(a: string, b: string, c: string)
    requires Less(a, b) && Less(b, c)
    ensures Less(a, c)
    decreases |a|
  {
    if a != "" && a[0] == b[0] == c[0] {
      LessTrans(a[1..], b[1..], c[1..]);
    }
  }

  lemma {:induction false} LessTotal(a: string, b: string)
    ensures Less(a, b) || a == b || Less(b, a)
    ensures !(Less(a, b) && Less(b, a)) && !Less(a, a)
    decreases |a|
  {
    if a != "" {
      LessTotal(a[1..], a[1..]);
      if b != "" {
        LessTotal(a[1..], b[1..]);
        assert a[0] == b[0] && a[1..] == b[1..] ==> a == b by {
          assert a == [a[0]] + a[1..] && b == [b[0]] + b[1..];
        }
      }
    }
  }

  /** The order by its first difference: one is the beginning of the other, or they agree up to a place
      where the first has the smaller character. */
  predicate FirstDiffersAt(a: string, b: string, i: nat) {
    && i <= |a| && i < |b| && a[..i] == b[..i]
    && (i == |a| || (i < |a| && a[i] < b[i]))
  }

  lemma SameFirst(a: string, b: string, i: nat)
    requires FirstDiffersAt(a, b, i)
    ensures i == 0 || (a != "" && b != "" && a[0] == b[0])
  {
    assert i > 0 ==> a[..i][0] == b[..i][0];
  }

  lemma {:induction false} LessDecides(a: string, b: string)
    ensures Less(a, b) <==> exists i: nat :: FirstDiffersAt(a, b, i)
    decreases |a|
  {
    if a != "" && b != "" && a[0] == b[0] {
      LessDecides(a[1..], b[1..]);
      if i: nat :| FirstDiffersAt(a[1..], b[1..], i) {
        assert a[..i + 1] == [a[0]] + a[1..][..i] && b[..i + 1] == [b[0]] + b[1..][..i];
        assert FirstDiffersAt(a, b, i + 1);
      }
      if i: nat :| FirstDiffersAt(a, b, i) {
        assert i > 0;
        assert a[1..][..i - 1] == a[..i][1..] && b[1..][..i - 1] == b[..i][1..];
        assert FirstDiffersAt(a[1..], b[1..], i - 1);
      }
    } else {
      forall i: nat | FirstDiffersAt(a, b, i) ensures i == 0 || (a != "" && b != "" && a[0] == b[0]) { SameFirst(a, b, i); }
      if Less(a, b) { assert a[..0] == b[..0] && FirstDiffersAt(a, b, 0); }
    }
  }

  /** The keys with a prefix lie together, from the prefix on. */
  lemma {:induction false} PrefixBlock(prefix: string, k: string, k': string)
    ensures HasPrefix(k, prefix) ==> !Less(k, prefix)
    ensures !Less(k, prefix) && !HasPrefix(k, prefix) && Less(k, k') ==> !HasPrefix(k', prefix)
    decreases |prefix|
  {
    if prefix != "" && k != "" {
      assert HasPrefix(k, prefix) <==> k[0] == prefix[0] && HasPrefix(k[1..], prefix[1..]) by { PrefixStep(k, prefix); }
      if k' != "" {
        assert HasPrefix(k', prefix) <==> k'[0] == prefix[0] && HasPrefix(k'[1..], prefix[1..]) by { PrefixStep(k', prefix); }
      }
      PrefixBlock(prefix[1..], k[1..], if k' != "" then k'[1..] else "");
    }
  }

  lemma PrefixStep(s: string, prefix: string)
    requires s != "" && prefix != ""
    ensures HasPrefix(s, prefix) <==> s[0] == prefix[0] && HasPrefix(s[1..], prefix[1..])
  {
    if HasPrefix(s, prefix) {
      assert s[1..][..|prefix| - 1] == s[..|prefix|][1..];
    }
    if s[0] == prefix[0] && HasPrefix(s[1..], prefix[1..]) {
      assert s[..|prefix|] == [s[0]] + s[1..][..|prefix| - 1] == prefix;
    }
  }

  /** A common prefix does not change the order. */
  lemma {:induction false} LessUnderPrefix(prefix: string, a: string, b: string)
    ensures Less(prefix + a, prefix + b) <==> Less(a, b)
    decreases |prefix|
  {
    if prefix == "" {
      assert prefix + a == a && prefix + b == b;
    } else {
      assert (prefix + a)[1..] == prefix[1..] + a && (prefix + b)[1..] == prefix[1..] + b;
      LessUnderPrefix(prefix[1..], a, b);
    }
  }
}
