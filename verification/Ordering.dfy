/** ORDER BY over a finite set of keyed ids: a total order, its unique
    enumeration, and the rank of an id in it. */
module Ordering {

  /** Byte order on ids. */
  predicate Less(a: string, b: string) {
    b != "" && (a == "" || a[0] < b[0] || (a[0] == b[0] && Less(a[1..], b[1..])))
  }

  lemma {:induction false} LessTotal(a: string, b: string)
    ensures a == b || Less(a, b) || Less(b, a)
  {
    if a != "" && b != "" && a[0] == b[0] {
      LessTotal(a[1..], b[1..]);
      assert a == [a[0]] + a[1..] && b == [b[0]] + b[1..];
    }
  }

  lemma {:induction false} LessTransitive(a: string, b: string, c: string)
    requires Less(a, b) && Less(b, c)
    ensures Less(a, c)
  {
    if a != "" && a[0] == b[0] == c[0] {
      LessTransitive(a[1..], b[1..], c[1..]);
    }
  }

  lemma {:induction false} LessIrreflexive(a: string)
    ensures !Less(a, a)
  {
    if a != "" {
      LessIrreflexive(a[1..]);
    }
  }

  /** The two agree up to n, where a has the lesser character or ends. */
  predicate PartAt(a: string, b: string, n: nat) {
    && n <= |a| && n < |b| && (forall i :: 0 <= i < n ==> a[i] == b[i])
    && (n == |a| || a[n] < b[n])
  }

  /** Byte order is decided at the first place where the two ids differ. */
  lemma LessMeaning(a: string, b: string)
    ensures Less(a, b) <==> exists n :: PartAt(a, b, n)
  {
    if Less(a, b) {
      var n := LessParts(a, b);
      assert PartAt(a, b, n);
    } else if n :| PartAt(a, b, n) {
      PartingIsLess(a, b, n);
    }
  }

  lemma {:induction false} LessParts(a: string, b: string) returns (n: nat)
    requires Less(a, b)
    ensures PartAt(a, b, n)
  {
    n := 0;
    if a != "" && a[0] == b[0] {
      var m := LessParts(a[1..], b[1..]);
      n := m + 1;
      assert forall i :: 1 <= i < n ==> a[i] == a[1..][i - 1] && b[i] == b[1..][i - 1];
    }
  }

  lemma {:induction false} PartingIsLess(a: string, b: string, n: nat)
    requires PartAt(a, b, n)
    ensures Less(a, b)
  {
    if n > 0 {
      PartingIsLess(a[1..], b[1..], n - 1);
    }
  }

  /** Ascending key, ties broken by id. */
  predicate Before(keys: map<string, int>, a: string, b: string)
    requires a in keys && b in keys
  {
    keys[a] < keys[b] || (keys[a] == keys[b] && Less(a, b))
  }

  lemma BeforeTotal(keys: map<string, int>, a: string, b: string)
    requires a in keys && b in keys
    ensures a == b || Before(keys, a, b) || Before(keys, b, a)
  {
    LessTotal(a, b);
  }

  lemma BeforeTransitive(keys: map<string, int>, a: string, b: string, c: string)
    requires a in keys && b in keys && c in keys
    requires Before(keys, a, b) && Before(keys, b, c)
    ensures Before(keys, a, c)
  {
    if Less(a, b) && Less(b, c) {
      LessTransitive(a, b, c);
    }
  }

  lemma BeforeIrreflexive(keys: map<string, int>, a: string)
    requires a in keys
    ensures !Before(keys, a, a)
  {
    LessIrreflexive(a);
  }

  /** q lists every key exactly once, in order. */
  ghost predicate Enumerates(keys: map<string, int>, q: seq<string>) {
    && (forall i :: 0 <= i < |q| ==> q[i] in keys)
    && (forall k :: k in keys ==> k in q)
    && (forall i, j :: 0 <= i < j < |q| ==> Before(keys, q[i], q[j]))
  }

  /** The ids ordered before id. */
  ghost function Ahead(keys: map<string, int>, id: string): set<string>
    requires id in keys
  {
    set x | x in keys && Before(keys, x, id)
  }

  lemma {:induction false} DistinctCardinality(q: seq<string>, s: set<string>)
    requires forall i, j :: 0 <= i < j < |q| ==> q[i] != q[j]
    requires forall x :: x in s <==> x in q
    ensures |s| == |q|
  {
    if q != [] {
      var last := q[|q| - 1];
      DistinctCardinality(q[..|q| - 1], s - {last});
    } else {
      assert s == {};
    }
  }

  lemma EnumerationDistinct(keys: map<string, int>, q: seq<string>)
    requires Enumerates(keys, q)
    ensures forall i, j :: 0 <= i < j < |q| ==> q[i] != q[j]
    ensures |q| == |keys|
  {
    forall i, j | 0 <= i < j < |q| ensures q[i] != q[j] {
      BeforeIrreflexive(keys, q[i]);
    }
    DistinctCardinality(q, keys.Keys);
  }

  /** An id's place in the enumeration is its rank: the number of ids ahead of it. */
  lemma EnumerationRank(keys: map<string, int>, q: seq<string>, i: nat)
    requires Enumerates(keys, q) && i < |q|
    ensures |Ahead(keys, q[i])| == i
  {
    EnumerationDistinct(keys, q);
    forall x | x in keys ensures Before(keys, x, q[i]) <==> x in q[..i] {
      var j :| 0 <= j < |q| && q[j] == x;
      if i <= j && Before(keys, x, q[i]) {
        if i < j {
          BeforeTransitive(keys, q[i], q[j], q[i]);
        }
        BeforeIrreflexive(keys, q[i]);
      }
    }
    DistinctCardinality(q[..i], Ahead(keys, q[i]));
  }

  /** There is only one enumeration. */
  lemma EnumerationUnique(keys: map<string, int>, q: seq<string>, r: seq<string>)
    requires Enumerates(keys, q) && Enumerates(keys, r)
    ensures q == r
  {
    EnumerationDistinct(keys, q);
    EnumerationDistinct(keys, r);
    forall i | 0 <= i < |q| ensures q[i] == r[i] {
      var j :| 0 <= j < |r| && r[j] == q[i];
      EnumerationRank(keys, q, i);
      EnumerationRank(keys, r, j);
    }
  }

  /** The first id in order. */
  method Least(keys: map<string, int>) returns (least: string)
    requires keys != map[]
    ensures least in keys
    ensures forall k :: k in keys && k != least ==> Before(keys, least, k)
  {
    var rest := keys.Keys;
    least :| least in rest;
    rest := rest - {least};
    while rest != {}
      invariant least in keys && rest <= keys.Keys
      invariant forall k :: k in keys && k != least && k !in rest ==> Before(keys, least, k)
      decreases rest
    {
      var k :| k in rest;
      BeforeTotal(keys, least, k);
      if Before(keys, k, least) {
        forall x | x in keys && x != k && x !in rest - {k} ensures Before(keys, k, x) {
          if x != least {
            BeforeTransitive(keys, k, least, x);
          }
        }
        least := k;
      }
      rest := rest - {k};
    }
  }

  /** The rows of an ordered query, drawn one after the other. */
  method OrderBy(keys: map<string, int>) returns (q: seq<string>)
    ensures Enumerates(keys, q)
  {
    q := [];
    var rest := keys;
    while rest != map[]
      invariant rest.Keys <= keys.Keys
      invariant forall k :: k in rest ==> rest[k] == keys[k]
      invariant forall i :: 0 <= i < |q| ==> q[i] in keys && q[i] !in rest
      invariant forall k :: k in keys ==> k in rest || k in q
      invariant forall i, j :: 0 <= i < j < |q| ==> Before(keys, q[i], q[j])
      invariant forall i, k :: 0 <= i < |q| && k in rest ==> Before(keys, q[i], k)
      decreases rest.Keys
    {
      var least := Least(rest);
      assert forall k :: k in rest && k != least ==> Before(keys, least, k);
      q := q + [least];
      rest := rest - {least};
    }
  }

  lemma {:induction false} EnumerationExists(keys: map<string, int>) returns (q: seq<string>)
    ensures Enumerates(keys, q)
    decreases keys.Keys
  {
    if keys == map[] {
      q := [];
    } else {
      var least := LeastExists(keys, keys.Keys);
      var rest := keys - {least};
      var tail := EnumerationExists(rest);
      q := [least] + tail;
      forall i, j | 0 <= i < j < |q| ensures Before(keys, q[i], q[j]) {
        if i > 0 {
          assert Before(rest, tail[i - 1], tail[j - 1]);
        } else {
          assert tail[j - 1] in rest;
        }
      }
      assert forall k :: k in keys ==> k == least || k in tail;
      assert q[0] == least && forall k :: k in tail ==> k in q;
    }
  }

  lemma {:induction false} LeastExists(keys: map<string, int>, s: set<string>) returns (least: string)
    requires s != {} && s <= keys.Keys
    ensures least in s
    ensures forall k :: k in s && k != least ==> Before(keys, least, k)
  {
    var x :| x in s;
    least := x;
    if s != {x} {
      var y := LeastExists(keys, s - {x});
      BeforeTotal(keys, x, y);
      if Before(keys, y, x) {
        least := y;
      } else {
        forall k | k in s && k != x ensures Before(keys, x, k) {
          if k != y {
            BeforeTransitive(keys, x, y, k);
          }
        }
      }
    }
  }

  /** The enumeration, as a function of the keys. */
  ghost function Enumerate(keys: map<string, int>): (q: seq<string>)
    ensures Enumerates(keys, q)
  {
    HasEnumeration(keys);
    var q :| Enumerates(keys, q);
    q
  }

  lemma HasEnumeration(keys: map<string, int>)
    ensures exists q :: Enumerates(keys, q)
  {
    var q := EnumerationExists(keys);
  }
}
