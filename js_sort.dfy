/**
 * `[...new Set(xs)].sort()` on strings: removing repeated values, then putting the rest in
 * JavaScript's default string order.
 */
module JsSort {
  import opened JsString

  predicate Distinct(s: seq<string>)
  {
    forall i, j :: 0 <= i < j < |s| ==> s[i] != s[j]
  }

  /** Strictly ascending in the default string order. */
  predicate Ascending(s: seq<string>)
  {
    forall i, j :: 0 <= i < j < |s| ==> Below(s[i], s[j])
  }

  /** `[...new Set(s)]`: each value once, at the place it first appears. */
  function Dedup(s: seq<string>): (r: seq<string>)
    ensures Distinct(r)
    ensures forall x :: x in r <==> x in s
    ensures |r| <= |s|
  {
    if |s| == 0 then []
    else
      var init := s[..|s| - 1];
      var r := Dedup(init);
      assert s == init + [s[|s| - 1]];
      if s[|s| - 1] in r then r else r + [s[|s| - 1]]
  }

  lemma AscendingDistinct(s: seq<string>)
    requires Ascending(s)
    ensures Distinct(s)
  {
    assert forall i, j :: 0 <= i < j < |s| ==> Below(s[i], s[j]);
  }

  lemma PrependAscending(x: string, s: seq<string>)
    requires Ascending(s)
    requires forall y :: y in s ==> Below(x, y)
    ensures Ascending([x] + s)
  {
    forall i, j | 0 <= i < j < |[x] + s| ensures Below(([x] + s)[i], ([x] + s)[j]) {
      if i == 0 {
        assert ([x] + s)[j] == s[j - 1];
      } else {
        assert ([x] + s)[i] == s[i - 1] && ([x] + s)[j] == s[j - 1];
      }
    }
  }

  /** The first element of an ascending sequence is below every other element. */
  lemma AscendingHead(s: seq<string>, y: string)
    requires Ascending(s) && y in s && y != s[0]
    ensures Below(s[0], y)
  {
    var k :| 0 <= k < |s| && s[k] == y;
  }

  /** Insertion of a new value into an ascending sequence. */
  function Insert(x: string, s: seq<string>): (r: seq<string>)
    requires Ascending(s) && x !in s
    ensures Ascending(r)
    ensures |r| == |s| + 1
    ensures forall y :: y in r <==> y == x || y in s
  {
    if |s| == 0 then [x]
    else if Below(x, s[0]) then
      assert forall y :: y in s ==> Below(x, y) by {
        forall y | y in s ensures Below(x, y) {
          if y != s[0] {
            AscendingHead(s, y);
            BelowTransitive(x, s[0], y);
          }
        }
      }
      PrependAscending(x, s);
      [x] + s
    else
      var t := Insert(x, s[1..]);
      assert forall y :: y in t ==> Below(s[0], y) by {
        forall y | y in t ensures Below(s[0], y) {
          if y == x {
            BelowTotal(x, s[0]);
          } else {
            var k :| 1 <= k < |s| && s[k] == y;
          }
        }
      }
      PrependAscending(s[0], t);
      assert s == [s[0]] + s[1..];
      [s[0]] + t
  }

  /**
   * `sort()` with no comparator, on an array without repeated values (the only kind the page
   * sorts): an ascending arrangement of exactly the same values.
   */
  function SortDistinct(s: seq<string>): (r: seq<string>)
    requires Distinct(s)
    ensures Ascending(r)
    ensures |r| == |s|
    ensures forall y :: y in r <==> y in s
  {
    if |s| == 0 then []
    else
      var init := s[..|s| - 1];
      assert s == init + [s[|s| - 1]];
      Insert(s[|s| - 1], SortDistinct(init))
  }

  /** `[...new Set(s)].sort()`: the values of `s`, each once, ascending. */
  function SortedUnique(s: seq<string>): (r: seq<string>)
    ensures Ascending(r) && Distinct(r)
    ensures forall y :: y in r <==> y in s
    ensures |r| <= |s|
  {
    var r := SortDistinct(Dedup(s));
    AscendingDistinct(r);
    r
  }

  /**
   * An ascending sequence is determined by the values it holds: `SortedUnique(s)` is the one
   * ascending enumeration of the values of `s`.
   */
  lemma {:induction false} AscendingUnique(a: seq<string>, b: seq<string>)
    requires Ascending(a) && Ascending(b)
    requires forall x :: x in a <==> x in b
    ensures a == b
    decreases |a|
  {
    AscendingDistinct(a);
    AscendingDistinct(b);
    DistinctCard(a);
    DistinctCard(b);
    assert Elements(a) == Elements(b);
    if |a| > 0 {
      if a[0] != b[0] {
        AscendingHead(a, b[0]);
        AscendingHead(b, a[0]);
        BelowAsymmetric(a[0], b[0]);
        assert false;
      }
      forall x ensures x in a[1..] <==> x in b[1..] {
        TailMembers(a, x);
        TailMembers(b, x);
      }
      AscendingUnique(a[1..], b[1..]);
      assert a == [a[0]] + a[1..] && b == [b[0]] + b[1..];
    }
  }

  function Elements(s: seq<string>): set<string>
  {
    set x | x in s
  }

  /** A sequence without repeats has as many elements as it has values. */
  lemma {:induction false} DistinctCard(s: seq<string>)
    requires Distinct(s)
    ensures |Elements(s)| == |s|
    decreases |s|
  {
    if |s| > 0 {
      var init := s[..|s| - 1];
      assert s == init + [s[|s| - 1]];
      assert Distinct(init);
      DistinctCard(init);
      assert Elements(s) == Elements(init) + {s[|s| - 1]};
      assert s[|s| - 1] !in Elements(init);
    }
  }

  lemma TailMembers(s: seq<string>, x: string)
    requires Ascending(s) && |s| > 0
    ensures x in s[1..] <==> x in s && x != s[0]
  {
    if x in s[1..] {
      var k :| 1 <= k < |s| && s[k] == x;
    }
    if x in s && x != s[0] {
      var k :| 0 <= k < |s| && s[k] == x;
      assert s[1..][k - 1] == x;
    }
  }

  /** The values `SortedUnique` keeps do not depend on the order they arrived in. */
  lemma {:induction false} SortedUniqueOrderFree(s: seq<string>, t: seq<string>)
    requires forall x :: x in s <==> x in t
    ensures SortedUnique(s) == SortedUnique(t)
  {
    AscendingUnique(SortedUnique(s), SortedUnique(t));
  }
}
