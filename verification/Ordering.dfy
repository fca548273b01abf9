/** Strictly sorted listings of finite sets: what sorting distinct values yields. */
module Ordering {

  /** Lexicographic order on code points, which is the byte order of the UTF-8 text. */
  predicate StringLess(a: string, b: string) {
    b != [] && (a == [] || a[0] < b[0] || (a[0] == b[0] && StringLess(a[1..], b[1..])))
  }

  /** a and b agree up to k, where a ends or has the smaller character. */
  ghost predicate LessAt(a: string, b: string, k: nat) {
    && k <= |a| && k < |b|
    && (forall i :: 0 <= i < k ==> a[i] == b[i])
    && (k < |a| ==> a[k] < b[k])
  }

  lemma {:induction false} StringLessMeans(a: string, b: string)
    ensures StringLess(a, b) <==> exists k: nat :: LessAt(a, b, k)
  {
    if a == [] || b == [] || a[0] != b[0] {
      assert StringLess(a, b) ==> LessAt(a, b, 0);
    } else {
      StringLessMeans(a[1..], b[1..]);
      if k: nat :| LessAt(a, b, k) {
        LessAtTail(a, b, k);
      }
      if k: nat :| LessAt(a[1..], b[1..], k) {
        LessAtTail(a, b, k + 1);
      }
    }
  }

  lemma LessAtTail(a: string, b: string, k: nat)
    requires a != [] && b != [] && a[0] == b[0]
    ensures LessAt(a, b, k) <==> k > 0 && LessAt(a[1..], b[1..], k - 1)
  {
    if k > 0 && LessAt(a[1..], b[1..], k - 1) {
      forall i | 0 <= i < k ensures i < |a| && i < |b| && a[i] == b[i] {
        assert i > 0 ==> a[i] == a[1..][i - 1] && b[i] == b[1..][i - 1];
      }
    }
  }

  lemma {:induction false} StringLessTotal(a: string, b: string)
    ensures !(StringLess(a, b) && StringLess(b, a))
    ensures StringLess(a, b) || StringLess(b, a) || a == b
    ensures !StringLess(a, a)
  {
    if a != [] && b != [] && a[0] == b[0] {
      StringLessTotal(a[1..], b[1..]);
      assert a == [a[0]] + a[1..] && b == [b[0]] + b[1..];
    }
    if a == [] {
    } else {
      StringLessTotal(a[1..], a[1..]);
    }
  }

  lemma {:induction false} StringLessTransitive(a: string, b: string, c: string)
    requires StringLess(a, b) && StringLess(b, c)
    ensures StringLess(a, c)
  {
    if a == [] || !(a[0] == b[0] == c[0]) {
    } else {
      StringLessTransitive(a[1..], b[1..], c[1..]);
    }
  }

  ghost predicate StrictlySorted(s: seq<string>) {
    forall i, j :: 0 <= i < j < |s| ==> StringLess(s[i], s[j])
  }

  ghost predicate Increasing(s: seq<nat>) {
    forall i, j :: 0 <= i < j < |s| ==> s[i] < s[j]
  }

  lemma {:induction false} SubsetSize<T>(a: set<T>, b: set<T>)
    requires a <= b
    ensures |a| <= |b|
    ensures a != b ==> |a| < |b|
  {
    if a == {} {
      assert b != {} ==> |b| > 0;
    } else {
      var x :| x in a;
      SubsetSize(a - {x}, b - {x});
    }
  }

  lemma {:induction false} IncreasingSize(order: seq<nat>, s: set<nat>)
    requires Increasing(order) && forall u :: u in order ==> u in s
    ensures |order| <= |s|
    decreases |order|
  {
    if order == [] {
    } else {
      var n := |order| - 1;
      IncreasingSize(order[..n], s - {order[n]});
    }
  }

  lemma {:induction false} IncreasingCount(order: seq<nat>, s: set<nat>)
    requires Increasing(order) && forall u :: u in order <==> u in s
    ensures |order| == |s|
    decreases |order|
  {
    if order == [] {
      assert s == {};
    } else {
      var n := |order| - 1;
      assert order == order[..n] + [order[n]];
      IncreasingCount(order[..n], s - {order[n]});
    }
  }

  /** Where x belongs in a sorted listing. */
  function InsertString(s: seq<string>, x: string): (r: seq<string>)
    requires StrictlySorted(s)
    ensures StrictlySorted(r)
    ensures forall y :: y in r <==> y in s || y == x
  {
    if s == [] then [x]
    else
      StringLessTotal(x, s[0]);
      if x == s[0] then s
      else if StringLess(x, s[0]) then
        assert forall j :: 0 <= j < |s| ==> StringLess(x, s[j]) by {
          forall j | 0 < j < |s| ensures StringLess(x, s[j]) {
            StringLessTransitive(x, s[0], s[j]);
          }
        }
        [x] + s
      else
        var rest := InsertString(s[1..], x);
        assert forall j :: 0 <= j < |rest| ==> rest[j] in rest && StringLess(s[0], rest[j]);
        [s[0]] + rest
  }

  /** The distinct strings of s in sorted order. */
  function SortStrings(s: seq<string>): (r: seq<string>)
    ensures StrictlySorted(r)
    ensures forall y :: y in r <==> y in s
  {
    if s == [] then [] else InsertString(SortStrings(s[1..]), s[0])
  }

  /** A sorted listing is determined by what it lists. */
  lemma {:induction false} SortedUnique(s: seq<string>, t: seq<string>)
    requires StrictlySorted(s) && StrictlySorted(t)
    requires forall y :: y in s <==> y in t
    ensures s == t
  {
    assert t != [] ==> t[0] in s;
    assert s != [] ==> s[0] in t;
    if s == [] {
    } else {
      FirstIsLeast(t, s[0]);
      FirstIsLeast(s, t[0]);
      StringLessTotal(s[0], t[0]);
      forall y ensures y in s[1..] <==> y in t[1..] {
        SortedTail(s, y);
        SortedTail(t, y);
      }
      SortedUnique(s[1..], t[1..]);
      assert s == [s[0]] + s[1..] && t == [t[0]] + t[1..];
    }
  }

  lemma FirstIsLeast(s: seq<string>, x: string)
    requires StrictlySorted(s) && x in s
    ensures x == s[0] || StringLess(s[0], x)
  {
  }

  lemma SortedTail(s: seq<string>, y: string)
    requires s != [] && StrictlySorted(s)
    ensures y in s[1..] <==> y in s && y != s[0]
  {
    if y in s[1..] {
      var i :| 0 <= i < |s| - 1 && s[1..][i] == y;
      assert s[i + 1] == y && StringLess(s[0], s[i + 1]);
      StringLessTotal(s[0], y);
    }
  }

  function InsertNat(s: seq<nat>, x: nat): (r: seq<nat>)
    requires Increasing(s)
    ensures Increasing(r)
    ensures forall y :: y in r <==> y in s || y == x
  {
    if s == [] then [x]
    else if x == s[0] then s
    else if x < s[0] then [x] + s
    else
      var rest := InsertNat(s[1..], x);
      assert forall y :: y in rest ==> s[0] < y by {
        forall y | y in rest ensures s[0] < y {
          if y != x {
            var j :| 0 <= j < |s| - 1 && s[1..][j] == y;
            assert s[0] < s[j + 1];
          }
        }
      }
      assert forall j :: 0 <= j < |rest| ==> rest[j] in rest;
      [s[0]] + rest
  }

  /** The distinct numbers of s in increasing order: sort_unstable and dedup. */
  function SortNats(s: seq<nat>): (r: seq<nat>)
    ensures Increasing(r)
    ensures forall y :: y in r <==> y in s
  {
    if s == [] then [] else InsertNat(SortNats(s[1..]), s[0])
  }
}
