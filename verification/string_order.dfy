/** Python's ordering of strings (code point by code point, a proper prefix
    first) and sorted listings of a finite set of strings, which is what
    `sorted(some_set)` returns. */
module StringOrder {

  /** Python's `a < b` on strings. */
  predicate Less(a: string, b: string)
    decreases |a|
  {
    if |a| == 0 then |b| > 0
    else if |b| == 0 then false
    else a[0] < b[0] || (a[0] == b[0] && Less(a[1..], b[1..]))
  }

  /** No string is below itself. */
  lemma {:induction false} LessIrreflexive(a: string)
    ensures !Less(a, a)
    decreases |a|
  {
    if |a| > 0 {
      LessIrreflexive(a[1..]);
    }
  }

  /** Of two strings at most one is below the other. */
  lemma {:induction false} LessAsymmetric(a: string, b: string)
    ensures !(Less(a, b) && Less(b, a))
    decreases |a|
  {
    if |a| > 0 && |b| > 0 {
      LessAsymmetric(a[1..], b[1..]);
    }
  }

  /** Strictly ascending: every earlier element is below every later one. */
  predicate StrictlySorted(l: seq<string>) {
    forall i, j :: 0 <= i < j < |l| ==> Less(l[i], l[j])
  }

  function Elements(l: seq<string>): set<string> {
    set x | x in l
  }

  /** `l` lists the elements of `s` in ascending order, each once. */
  predicate SortedListing(s: set<string>, l: seq<string>) {
    StrictlySorted(l) && Elements(l) == s
  }

  lemma NonEmptyHasElement(l: seq<string>)
    ensures |l| > 0 ==> l[0] in Elements(l)
  {
  }

  /** Removing the head of a strictly sorted listing removes exactly that
      element from its set, and the rest stays strictly sorted. */
  lemma TailElements(l: seq<string>)
    requires StrictlySorted(l) && |l| > 0
    ensures StrictlySorted(l[1..])
    ensures Elements(l[1..]) == Elements(l) - {l[0]}
  {
    LessIrreflexive(l[0]);
    forall x | x in l[1..] ensures x != l[0] {
      var k :| 0 <= k < |l[1..]| && l[1..][k] == x;
      assert Less(l[0], l[k + 1]);
    }
    forall x | x in Elements(l) - {l[0]} ensures x in l[1..] {
      var k :| 0 <= k < |l| && l[k] == x;
      assert l[1..][k - 1] == x;
    }
  }

  /** A finite set has at most one sorted listing, so a listing shown to be
      sorted is what `sorted()` returns for that set. */
  lemma {:induction false} SortedListingUnique(s: set<string>, l1: seq<string>, l2: seq<string>)
    requires SortedListing(s, l1) && SortedListing(s, l2)
    ensures l1 == l2
    decreases |l1|
  {
    if |l1| == 0 {
      NonEmptyHasElement(l2);
    } else {
      assert |l2| > 0 by { assert l1[0] in Elements(l1); }
      var a, b := l1[0], l2[0];
      assert a == b by {
        assert a in Elements(l2);
        assert b in Elements(l1);
        var i :| 0 <= i < |l1| && l1[i] == b;
        var j :| 0 <= j < |l2| && l2[j] == a;
        assert i > 0 ==> Less(a, b);
        assert j > 0 ==> Less(b, a);
        LessAsymmetric(a, b);
      }
      TailElements(l1);
      TailElements(l2);
      SortedListingUnique(s - {a}, l1[1..], l2[1..]);
      assert l1 == [a] + l1[1..];
      assert l2 == [a] + l2[1..];
    }
  }
}
