/** ORDER BY without a tiebreak: at which places two answers of the same query
    can disagree. */
module Ties {
  import opened Ordering
  import opened Queries

  function KeyBelow(keys: map<string, int>, k: int): set<string> {
    set x | x in keys && keys[x] < k
  }

  function KeyUpTo(keys: map<string, int>, k: int): set<string> {
    set x | x in keys && keys[x] <= k
  }

  /** The rows created at one time take places on both sides of boundary b. */
  ghost predicate Straddled(keys: map<string, int>, b: nat) {
    exists x :: x in keys && |KeyBelow(keys, keys[x])| < b < |KeyUpTo(keys, keys[x])|
  }

  lemma SortedSize(keys: map<string, int>, q: seq<string>)
    requires SortedBy(keys, q)
    ensures |q| == |keys|
  {
    DistinctCardinality(q, keys.Keys);
  }

  function Members(q: seq<string>): set<string> {
    set x | x in q
  }

  lemma PrefixSize(keys: map<string, int>, q: seq<string>, n: nat)
    requires SortedBy(keys, q) && n <= |q|
    ensures |Members(q[..n])| == n
  {
    DistinctCardinality(q[..n], Members(q[..n]));
  }

  /** The first n rows count among those up to key k, all of which come first. */
  lemma CountFrom(keys: map<string, int>, q: seq<string>, n: nat, k: int)
    requires SortedBy(keys, q) && n <= |q|
    ensures n > 0 && keys[q[n - 1]] < k ==> n <= |KeyBelow(keys, k)|
    ensures n > 0 && keys[q[n - 1]] <= k ==> n <= |KeyUpTo(keys, k)|
  {
    PrefixSize(keys, q, n);
    var first := Members(q[..n]);
    if n > 0 && keys[q[n - 1]] <= k {
      forall x | x in first ensures x in keys && keys[x] <= keys[q[n - 1]] {
        var i :| 0 <= i < n && q[..n][i] == x;
        assert q[i] == x;
      }
      SubsetSize(first, KeyUpTo(keys, k));
      if keys[q[n - 1]] < k {
        SubsetSize(first, KeyBelow(keys, k));
      }
    }
  }

  lemma CountTo(keys: map<string, int>, q: seq<string>, n: nat, k: int)
    requires SortedBy(keys, q) && n < |q|
    ensures keys[q[n]] > k ==> |KeyUpTo(keys, k)| <= n
    ensures keys[q[n]] >= k ==> |KeyBelow(keys, k)| <= n
  {
    PrefixSize(keys, q, n);
    var first := Members(q[..n]);
    forall x | x in keys && keys[x] < keys[q[n]] ensures x in first {
      var i :| 0 <= i < |q| && q[i] == x;
      assert i < n && q[..n][i] == x;
    }
    if keys[q[n]] > k {
      SubsetSize(KeyUpTo(keys, k), first);
    }
    if keys[q[n]] >= k {
      SubsetSize(KeyBelow(keys, k), first);
    }
  }

  lemma KeyUpToSize(keys: map<string, int>, k: int)
    ensures |KeyUpTo(keys, k)| <= |keys|
  {
    SubsetSize(KeyUpTo(keys, k), keys.Keys);
    assert |keys.Keys| == |keys|;
  }

  lemma SortedPlace(keys: map<string, int>, q: seq<string>, k: string) returns (i: nat)
    requires SortedBy(keys, q) && k in keys
    ensures i < |q| && q[i] == k
  {
    i :| 0 <= i < |q| && q[i] == k;
  }

  lemma SortedPair(keys: map<string, int>, q: seq<string>, i: nat, j: nat)
    requires SortedBy(keys, q) && i <= j < |q|
    ensures q[i] in keys && q[j] in keys && keys[q[i]] <= keys[q[j]] && (i < j ==> q[i] != q[j])
  {
  }

  lemma TieStraddles(keys: map<string, int>, q: seq<string>, b: nat)
    requires SortedBy(keys, q) && 0 < b < |q| && keys[q[b - 1]] == keys[q[b]]
    ensures Straddled(keys, b)
  {
    hide SortedBy, KeyBelow, KeyUpTo;
    SortedPair(keys, q, b, b);
    CountTo(keys, q, b - 1, keys[q[b]]);
    CountFrom(keys, q, b + 1, keys[q[b]]);
  }

  lemma StraddledTies(keys: map<string, int>, q: seq<string>, b: nat, x: string)
    requires SortedBy(keys, q) && x in keys && |KeyBelow(keys, keys[x])| < b < |KeyUpTo(keys, keys[x])|
    ensures 0 < b < |q| && q[b - 1] in keys && q[b] in keys && keys[q[b - 1]] == keys[q[b]]
  {
    hide SortedBy, KeyBelow, KeyUpTo;
    SortedSize(keys, q);
    KeyUpToSize(keys, keys[x]);
    SortedPair(keys, q, b - 1, b);
    CountFrom(keys, q, b, keys[x]);
    CountTo(keys, q, b, keys[x]);
  }

  /** In any order of the query, a boundary is straddled exactly when its two neighbours tie. */
  lemma StraddledIff(keys: map<string, int>, q: seq<string>, b: nat)
    requires SortedBy(keys, q)
    ensures Straddled(keys, b) <==> 0 < b < |q| && keys[q[b - 1]] == keys[q[b]]
  {
    hide KeyBelow, KeyUpTo;
    if Straddled(keys, b) {
      var x :| x in keys && |KeyBelow(keys, keys[x])| < b < |KeyUpTo(keys, keys[x])|;
      StraddledTies(keys, q, b, x);
    } else if 0 < b < |q| && keys[q[b - 1]] == keys[q[b]] {
      TieStraddles(keys, q, b);
    }
  }

  lemma DistinctNeverStraddles(keys: map<string, int>, b: nat)
    requires DistinctKeys(keys)
    ensures !Straddled(keys, b)
  {
    var q := Enumerate(keys);
    EnumerationIsSorted(keys, q);
    StraddledIff(keys, q, b);
  }

  lemma NotPast(keys: map<string, int>, q: seq<string>, r: seq<string>, b: nat, j: nat)
    requires SortedBy(keys, q) && SortedBy(keys, r) && 0 < b < |q| && b <= j < |r|
    requires keys[q[b - 1]] < keys[q[b]]
    ensures keys[q[b - 1]] < keys[r[j]]
  {
    hide SortedBy, KeyBelow, KeyUpTo;
    SortedPair(keys, q, b - 1, b);
    SortedPair(keys, r, b, j);
    var k := keys[q[b - 1]];
    CountTo(keys, q, b, k);
    CountFrom(keys, r, b + 1, k);
  }

  /** Up to a boundary that no tie straddles, all orders of the query hold the same rows. */
  lemma SamePrefix(keys: map<string, int>, q: seq<string>, r: seq<string>, b: nat, i: nat) returns (j: nat)
    requires SortedBy(keys, q) && SortedBy(keys, r) && i < b < |q| && b < |r| && !Straddled(keys, b)
    ensures j < b && r[j] == q[i]
  {
    hide Straddled, SortedBy;
    SortedPair(keys, q, b - 1, b);
    SortedPair(keys, q, i, b - 1);
    StraddledIff(keys, q, b);
    j := SortedPlace(keys, r, q[i]);
    if b <= j {
      NotPast(keys, q, r, b, j);
    }
  }

  lemma SpliceMember(keys: map<string, int>, q: seq<string>, r: seq<string>, b: nat, k: string)
    requires SortedBy(keys, q) && SortedBy(keys, r) && b < |q| && b < |r| && !Straddled(keys, b)
    requires k in keys
    ensures k in q[..b] + r[b..]
  {
    hide SortedBy, Straddled;
    var j := SortedPlace(keys, r, k);
    if j < b {
      var i := SamePrefix(keys, r, q, b, j);
      assert (q[..b] + r[b..])[i] == k;
    } else {
      assert (q[..b] + r[b..])[j] == k;
    }
  }

  lemma SplicePair(keys: map<string, int>, q: seq<string>, r: seq<string>, b: nat, i: nat, j: nat)
    requires SortedBy(keys, q) && SortedBy(keys, r) && b < |q| && b < |r| && !Straddled(keys, b)
    requires i <= j < |q[..b] + r[b..]|
    ensures var s := q[..b] + r[b..];
            s[i] in keys && s[j] in keys && keys[s[i]] <= keys[s[j]] && (i < j ==> s[i] != s[j])
  {
    hide SortedBy, Straddled;
    if j < b {
      SortedPair(keys, q, i, j);
    } else if b <= i {
      SortedPair(keys, r, i, j);
    } else {
      var n := SamePrefix(keys, q, r, b, i);
      SortedPair(keys, r, n, j);
    }
  }

  /** So one order may take over from another there. */
  lemma Splice(keys: map<string, int>, q: seq<string>, r: seq<string>, b: nat)
    requires SortedBy(keys, q) && SortedBy(keys, r) && b < |q| && b < |r| && !Straddled(keys, b)
    ensures SortedBy(keys, q[..b] + r[b..])
  {
    var s := q[..b] + r[b..];
    hide Straddled;
    hide SortedBy;
    forall k | k in keys ensures k in s {
      SpliceMember(keys, q, r, b, k);
    }
    forall i, j | 0 <= i <= j < |s|
      ensures s[i] in keys && s[j] in keys && keys[s[i]] <= keys[s[j]] && (i < j ==> s[i] != s[j])
    {
      SplicePair(keys, q, r, b, i, j);
    }
    SortedFromPairs(keys, s);
  }

  lemma SortedFromPairs(keys: map<string, int>, s: seq<string>)
    requires forall k :: k in keys ==> k in s
    requires forall i, j :: 0 <= i <= j < |s| ==>
               s[i] in keys && s[j] in keys && keys[s[i]] <= keys[s[j]] && (i < j ==> s[i] != s[j])
    ensures SortedBy(keys, s)
  {
  }

  lemma DistinctPlaces(keys: map<string, int>, q: seq<string>, b: nat)
    requires SortedBy(keys, q) && b < |q|
    ensures forall i :: 0 <= i < |q| && i != b ==> q[i] != q[b]
  {
  }

  /** Two neighbours change places. */
  function Swap<T>(q: seq<T>, b: nat): seq<T>
    requires 0 < b < |q|
  {
    q[b - 1 := q[b]][b := q[b - 1]]
  }

  /** Where place i was before the swap. */
  function Partner(i: nat, b: nat): nat
    requires b > 0
  {
    if i == b then b - 1 else if i == b - 1 then b else i
  }

  lemma Swapped(keys: map<string, int>, q: seq<string>, b: nat)
    requires SortedBy(keys, q) && 0 < b < |q| && keys[q[b - 1]] == keys[q[b]]
    ensures SortedBy(keys, Swap(q, b))
  {
    hide SortedBy;
    var s := Swap(q, b);
    forall k | k in keys ensures k in s {
      var j := SortedPlace(keys, q, k);
      assert s[Partner(j, b)] == k;
    }
    forall i, j | 0 <= i <= j < |s|
      ensures s[i] in keys && s[j] in keys && keys[s[i]] <= keys[s[j]] && (i < j ==> s[i] != s[j])
    {
      var m, n := Partner(i, b), Partner(j, b);
      SortedPair(keys, q, b - 1, b);
      SortedPair(keys, q, if m <= n then m else n, if m <= n then n else m);
    }
    SortedFromPairs(keys, s);
  }
}
