/** The edit distance behind the `did_you_mean` suggestions for unknown keys. */
module EditDistance {

  function Min(x: nat, y: nat): nat {
    if x <= y then x else y
  }

  function Cost(x: char, y: char): nat {
    if x == y then 0 else 1
  }

  function Init(s: string): string
    requires s != []
  {
    s[..|s| - 1]
  }

  function Last(s: string): char
    requires s != []
  {
    s[|s| - 1]
  }

  /** The recursive edit distance, on the last characters. */
  function Distance(a: string, b: string): nat
    decreases |a| + |b|
  {
    if a == [] then |b|
    else if b == [] then |a|
    else Min(Min(Distance(Init(a), b) + 1, Distance(a, Init(b)) + 1),
             Distance(Init(a), Init(b)) + Cost(Last(a), Last(b)))
  }

  /** The table entry the loop computes: the distance of two prefixes. */
  function Cell(a: string, b: string, i: nat, j: nat): nat
    requires i <= |a| && j <= |b|
  {
    Distance(a[..i], b[..j])
  }

  lemma CellStep(a: string, b: string, i: nat, j: nat)
    requires i < |a| && j < |b|
    ensures Cell(a, b, i + 1, j + 1) ==
      Min(Min(Cell(a, b, i, j + 1) + 1, Cell(a, b, i + 1, j) + 1), Cell(a, b, i, j) + Cost(a[i], b[j]))
  {
    assert Init(a[..i + 1]) == a[..i] && Init(b[..j + 1]) == b[..j];
  }

  /** The two-row loop: prev and cur are overwritten in place and swapped after each row. */
  method Levenshtein(a: string, b: string) returns (d: nat)
    ensures d == Distance(a, b)
  {
    if a == [] {
      return |b|;
    }
    if b == [] {
      return |a|;
    }
    var prev := new nat[|b| + 1](k => k);
    var cur := new nat[|b| + 1](_ => 0);
    for i := 0 to |a|
      invariant prev.Length == cur.Length == |b| + 1 && prev != cur
      invariant fresh(prev) && fresh(cur)
      invariant forall k :: 0 <= k <= |b| ==> prev[k] == Cell(a, b, i, k)
    {
      cur[0] := i + 1;
      for j := 0 to |b|
        invariant forall k :: 0 <= k <= |b| ==> prev[k] == Cell(a, b, i, k)
        invariant forall k :: 0 <= k <= j ==> cur[k] == Cell(a, b, i + 1, k)
      {
        var cost := if a[i] == b[j] then 0 else 1;
        CellStep(a, b, i, j);
        cur[j + 1] := Min(Min(prev[j + 1] + 1, cur[j] + 1), prev[j] + cost);
      }
      prev, cur := cur, prev;
    }
    assert a[..|a|] == a && b[..|b|] == b;
    d := prev[|b|];
  }

  // ---- a metric ------------------------------------------------------------

  lemma {:induction false} Symmetric(a: string, b: string)
    ensures Distance(a, b) == Distance(b, a)
    decreases |a| + |b|
  {
    if a == [] || b == [] {
    } else {
      Symmetric(Init(a), b);
      Symmetric(a, Init(b));
      Symmetric(Init(a), Init(b));
    }
  }

  lemma {:induction false} ZeroIffEqual(a: string, b: string)
    ensures Distance(a, b) == 0 <==> a == b
    decreases |a| + |b|
  {
    if a == [] || b == [] {
    } else {
      ZeroIffEqual(Init(a), Init(b));
      assert a == Init(a) + [Last(a)] && b == Init(b) + [Last(b)];
    }
  }

  lemma {:induction false} Triangle(a: string, b: string, c: string)
    ensures Distance(a, c) <= Distance(a, b) + Distance(b, c)
    decreases |a| + |b| + |c|
  {
    LengthBound(a, b);
    LengthBound(b, c);
    if a != [] && b != [] && c != [] {
      Triangle(Init(a), b, c);
      Triangle(a, b, Init(c));
      Triangle(a, Init(b), c);
      Triangle(a, Init(b), Init(c));
      Triangle(Init(a), Init(b), c);
      Triangle(Init(a), Init(b), Init(c));
    } else if b == [] {
      LengthBound(a, c);
    }
  }

  lemma {:induction false} LengthBound(a: string, b: string)
    ensures |a| <= |b| + Distance(a, b) && |b| <= |a| + Distance(a, b)
    ensures Distance(a, b) <= |a| + |b|
    decreases |a| + |b|
  {
    if a == [] || b == [] {
    } else {
      LengthBound(Init(a), b);
      LengthBound(a, Init(b));
      LengthBound(Init(a), Init(b));
    }
  }

  // ---- the fewest single-character edits -----------------------------------

  /** y is x with one character inserted, removed or replaced. */
  ghost predicate OneEdit(x: string, y: string) {
    exists u: string, v: string, r: string, s: string :: EditAt(x, y, u, v, r, s)
  }

  ghost predicate EditAt(x: string, y: string, u: string, v: string, r: string, s: string) {
    x == u + r + v && y == u + s + v && |r| <= 1 && |s| <= 1
  }

  /** y is reached from x by n edits. */
  ghost predicate Edits(x: string, y: string, n: nat)
    decreases n
  {
    if n == 0 then x == y
    else exists z :: OneEdit(x, z) && Edits(z, y, n - 1)
  }

  lemma {:induction false} CommonSuffix(a: string, b: string, v: string)
    ensures Distance(a + v, b + v) <= Distance(a, b)
    decreases |v|
  {
    if v == [] {
      assert a + v == a && b + v == b;
    } else {
      CommonSuffix(a, b, Init(v));
      assert Init(a + v) == a + Init(v) && Init(b + v) == b + Init(v);
    }
  }

  lemma NearByLast(x: string, y: string)
    requires x != [] && y != [] && Init(x) == Init(y)
    ensures Distance(x, y) <= 1
  {
    ZeroIffEqual(Init(x), Init(y));
  }

  lemma NearByInit(x: string, y: string)
    requires y != [] && Init(y) == x
    ensures Distance(x, y) <= 1 && Distance(y, x) <= 1
  {
    ZeroIffEqual(x, x);
    Symmetric(x, y);
  }

  lemma EndEditIsNear(u: string, r: string, s: string)
    requires |r| <= 1 && |s| <= 1
    ensures Distance(u + r, u + s) <= 1
  {
    var x, y := u + r, u + s;
    if r == [] && s == [] {
      ZeroIffEqual(x, y);
    } else if r == [] {
      assert Init(y) == x;
      NearByInit(x, y);
    } else if s == [] {
      assert Init(x) == y;
      NearByInit(y, x);
    } else {
      assert Init(x) == Init(y);
      NearByLast(x, y);
    }
  }

  lemma OneEditIsNear(x: string, y: string)
    requires OneEdit(x, y)
    ensures Distance(x, y) <= 1
  {
    var u, v, r, s :| EditAt(x, y, u, v, r, s);
    CommonSuffix(u + r, u + s, v);
    EndEditIsNear(u, r, s);
  }

  lemma OneEditBeforeSuffix(x: string, y: string, w: string)
    requires OneEdit(x, y)
    ensures OneEdit(x + w, y + w)
  {
    var u, v, r, s :| EditAt(x, y, u, v, r, s);
    assert x + w == u + r + (v + w) && y + w == u + s + (v + w);
    assert EditAt(x + w, y + w, u, v + w, r, s);
  }

  /** No edit script is shorter than the distance. */
  lemma {:induction false} NoShorterScript(x: string, y: string, n: nat)
    requires Edits(x, y, n)
    ensures Distance(x, y) <= n
    decreases n
  {
    if n == 0 {
      ZeroIffEqual(x, y);
    } else {
      var z :| OneEdit(x, z) && Edits(z, y, n - 1);
      OneEditIsNear(x, z);
      NoShorterScript(z, y, n - 1);
      Triangle(x, z, y);
    }
  }

  lemma {:induction false} EditsBeforeSuffix(x: string, y: string, v: string, n: nat)
    requires Edits(x, y, n)
    ensures Edits(x + v, y + v, n)
    decreases n
  {
    if n == 0 {
    } else {
      var z :| OneEdit(x, z) && Edits(z, y, n - 1);
      OneEditBeforeSuffix(x, z, v);
      EditsBeforeSuffix(z, y, v, n - 1);
    }
  }

  /** A last edit after n others. */
  lemma {:induction false} EditsThenOne(x: string, y: string, z: string, n: nat)
    requires Edits(x, y, n) && OneEdit(y, z)
    ensures Edits(x, z, n + 1)
    decreases n
  {
    if n == 0 {
      assert Edits(z, z, 0);
    } else {
      var w :| OneEdit(x, w) && Edits(w, y, n - 1);
      EditsThenOne(w, y, z, n - 1);
    }
  }

  lemma LastEdit(u: string, c: char, d: char)
    ensures OneEdit(u, u + [d]) && OneEdit(u + [c], u) && OneEdit(u + [c], u + [d])
  {
    assert EditAt(u, u + [d], u, [], [], [d]);
    assert EditAt(u + [c], u, u, [], [c], []);
    assert EditAt(u + [c], u + [d], u, [], [c], [d]);
  }

  lemma InitLast(s: string)
    requires s != []
    ensures s == Init(s) + [Last(s)]
  {
  }

  lemma ScriptByLast(x: string, y: string, c: char, d: char, n: nat)
    requires Edits(x, y, n)
    ensures Edits(x + [c], y + [d], n + Cost(c, d))
  {
    EditsBeforeSuffix(x, y, [c], n);
    if c != d {
      LastEdit(y, c, d);
      EditsThenOne(x + [c], y + [c], y + [d], n);
    }
  }

  /** A script of exactly the distance exists. */
  lemma {:induction false} ScriptExists(a: string, b: string)
    ensures Edits(a, b, Distance(a, b))
    decreases |a| + |b|
  {
    if b != [] && (a == [] || Distance(a, b) == Distance(a, Init(b)) + 1) {
      ScriptExists(a, Init(b));
      InitLast(b);
      LastEdit(Init(b), Last(b), Last(b));
      EditsThenOne(a, Init(b), b, Distance(a, Init(b)));
    } else if a != [] && (b == [] || Distance(a, b) == Distance(Init(a), b) + 1) {
      ScriptExists(Init(a), b);
      InitLast(a);
      LastEdit(Init(a), Last(a), Last(a));
    } else if a != [] {
      ScriptExists(Init(a), Init(b));
      InitLast(a);
      InitLast(b);
      ScriptByLast(Init(a), Init(b), Last(a), Last(b), Distance(Init(a), Init(b)));
    }
  }

  // ---- suggestions ---------------------------------------------------------

  /** The kept elements, and the positions they come from. */
  function Filter(s: seq<string>, keep: string -> bool): seq<string> {
    if s == [] then []
    else
      var n := |s| - 1;
      Filter(s[..n], keep) + if keep(s[n]) then [s[n]] else []
  }

  function Kept(s: seq<string>, keep: string -> bool, n: nat): (at: seq<nat>)
    requires n <= |s|
    ensures forall i :: 0 <= i < |at| ==> at[i] < n && keep(s[at[i]])
    ensures forall i, j :: 0 <= i < j < |at| ==> at[i] < at[j]
  {
    if n == 0 then [] else Kept(s, keep, n - 1) + if keep(s[n - 1]) then [n - 1] else []
  }

  lemma {:induction false} NoneMissed(s: seq<string>, keep: string -> bool, n: nat, p: nat)
    requires p < n <= |s| && keep(s[p])
    ensures p in Kept(s, keep, n)
  {
    if p >= n - 1 {
    } else {
      NoneMissed(s, keep, n - 1, p);
    }
  }

  lemma {:induction false} KeptAreFiltered(s: seq<string>, keep: string -> bool, n: nat)
    requires n <= |s|
    ensures |Kept(s, keep, n)| == |Filter(s[..n], keep)|
    ensures forall i :: 0 <= i < |Kept(s, keep, n)| ==> s[Kept(s, keep, n)[i]] == Filter(s[..n], keep)[i]
  {
    if n == 0 {
    } else {
      KeptAreFiltered(s, keep, n - 1);
      assert s[..n][..n - 1] == s[..n - 1];
    }
  }

  /** The catalog keys within max of key, in catalog order. */
  function NearestKeys(catalog: seq<string>, key: string, max: nat): seq<string> {
    Filter(catalog, k => Distance(key, k) <= max)
  }

  /** The suggestions are the catalog with the far keys left out and nothing moved:
      strictly increasing catalog positions, one per suggestion, and none missed. */
  lemma NearestKeysPositions(catalog: seq<string>, key: string, max: nat) returns (at: seq<nat>)
    ensures |at| == |NearestKeys(catalog, key, max)|
    ensures forall i, j :: 0 <= i < j < |at| ==> at[i] < at[j]
    ensures forall i :: 0 <= i < |at| ==>
      at[i] < |catalog| && catalog[at[i]] == NearestKeys(catalog, key, max)[i] && Distance(key, catalog[at[i]]) <= max
    ensures forall p: nat :: p < |catalog| && Distance(key, catalog[p]) <= max ==> p in at
  {
    var near := k => Distance(key, k) <= max;
    at := Kept(catalog, near, |catalog|);
    KeptAreFiltered(catalog, near, |catalog|);
    assert catalog[..|catalog|] == catalog;
    forall p: nat | p < |catalog| && Distance(key, catalog[p]) <= max ensures p in at {
      NoneMissed(catalog, near, |catalog|, p);
    }
  }
}
