/** The order in which names are sorted, and sorting. */
module StringOrder {
  /** Lexicographic order on code units. */
  predicate AtMost(a: string, b: string) {
    a == [] || (b != [] && (a[0] < b[0] || (a[0] == b[0] && AtMost(a[1..], b[1..]))))
  }

  lemma {:induction false} Total(a: string, b: string)
    ensures AtMost(a, b) || AtMost(b, a)
  {
    if a != [] && b != [] && a[0] == b[0] {
      Total(a[1..], b[1..]);
    }
  }

  lemma {:induction false} Transitive(a: string, b: string, c: string)
    requires AtMost(a, b) && AtMost(b, c)
    ensures AtMost(a, c)
  {
    if a != [] && a[0] == b[0] == c[0] {
      Transitive(a[1..], b[1..], c[1..]);
    }
  }

  lemma {:induction false} Antisymmetric(a: string, b: string)
    requires AtMost(a, b) && AtMost(b, a)
    ensures a == b
  {
    if a != [] {
      Antisymmetric(a[1..], b[1..]);
      assert a == [a[0]] + a[1..] && b == [b[0]] + b[1..];
    }
  }

  ghost predicate Ascending(xs: seq<string>) {
    forall i, j :: 0 <= i < j < |xs| ==> AtMost(xs[i], xs[j])
  }

  /** Two ascending lists with the same elements are the same list. */
  lemma {:induction false} AscendingUnique(xs: seq<string>, ys: seq<string>)
    requires Ascending(xs) && Ascending(ys) && multiset(xs) == multiset(ys)
    ensures xs == ys
    decreases |xs|
  {
    hide AtMost;
    assert |xs| == |multiset(xs)| && |ys| == |multiset(ys)|;
    if xs != [] {
      var n := |xs| - 1;
      SameLast(xs, ys);
      DropLast(xs);
      DropLast(ys);
      PrefixAscending(xs);
      PrefixAscending(ys);
      hide Ascending;
      AscendingUnique(xs[..n], ys[..n]);
    }
  }

  lemma DropLast(xs: seq<string>)
    requires xs != []
    ensures var n := |xs| - 1; multiset(xs[..n]) == multiset(xs) - multiset{xs[n]} && xs == xs[..n] + [xs[n]]
  {
    var n := |xs| - 1;
    assert xs == xs[..n] + [xs[n]];
  }

  lemma PrefixAscending(xs: seq<string>)
    requires Ascending(xs) && xs != []
    ensures Ascending(xs[..|xs| - 1])
  {
    hide AtMost;
  }

  lemma SameLast(xs: seq<string>, ys: seq<string>)
    requires Ascending(xs) && Ascending(ys) && xs != [] && |xs| == |ys| && multiset(xs) == multiset(ys)
    ensures xs[|xs| - 1] == ys[|ys| - 1]
  {
    hide AtMost;
    var n := |xs| - 1;
    var x, y := xs[n], ys[n];
    assert x in multiset(xs) && y in multiset(ys);
    Occurs(ys, x);
    Occurs(xs, y);
    var i :| 0 <= i < |ys| && ys[i] == x;
    var j :| 0 <= j < |xs| && xs[j] == y;
    if x != y {
      Antisymmetric(x, y);
    }
  }

  lemma Occurs(xs: seq<string>, x: string)
    requires x in multiset(xs)
    ensures exists i :: 0 <= i < |xs| && xs[i] == x
  {
  }

  /** Where a new element goes: after everything that is at most it. */
  method Insert(xs: seq<string>, x: string) returns (r: seq<string>)
    requires Ascending(xs)
    ensures Ascending(r) && multiset(r) == multiset(xs) + multiset{x}
  {
    var k := |xs|;
    while k > 0 && !AtMost(xs[k - 1], x)
      invariant 0 <= k <= |xs|
      invariant forall i :: k <= i < |xs| ==> AtMost(x, xs[i])
    {
      Total(xs[k - 1], x);
      k := k - 1;
    }
    forall i | 0 <= i < k ensures AtMost(xs[i], x) {
      if i < k - 1 {
        Transitive(xs[i], xs[k - 1], x);
      }
    }
    r := xs[..k] + [x] + xs[k..];
    InsertAscending(xs, x, k);
    assert xs == xs[..k] + xs[k..];
  }

  lemma InsertAscending(xs: seq<string>, x: string, k: nat)
    requires Ascending(xs) && k <= |xs|
    requires (forall i :: 0 <= i < k ==> AtMost(xs[i], x)) && (forall i :: k <= i < |xs| ==> AtMost(x, xs[i]))
    ensures Ascending(xs[..k] + [x] + xs[k..])
  {
  }

  method Sort(xs: seq<string>) returns (r: seq<string>)
    ensures Ascending(r) && multiset(r) == multiset(xs)
  {
    r := [];
    for i := 0 to |xs|
      invariant Ascending(r) && multiset(r) == multiset(xs[..i])
    {
      r := Insert(r, xs[i]);
      assert xs[..i + 1] == xs[..i] + [xs[i]];
    }
    assert xs[..|xs|] == xs;
  }
}
