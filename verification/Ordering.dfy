/** Byte-wise string order, pair keys and the stable sort by such keys. */
module Ordering {

  /** Lexicographic order; Rust compares strings this way. */
  predicate StrLess(a: string, b: string)
  {
    b != [] && (a == [] || a[0] < b[0] || (a[0] == b[0] && StrLess(a[1..], b[1..])))
  }

  lemma {:induction false} StrTrichotomy(a: string, b: string)
    ensures !(StrLess(a, b) && StrLess(b, a))
    ensures a == b ==> !StrLess(a, b)
    ensures a != b ==> StrLess(a, b) || StrLess(b, a)
  {
    if a != [] && b != [] {
      StrTrichotomy(a[1..], b[1..]);
      assert a == [a[0]] + a[1..] && b == [b[0]] + b[1..];
    }
  }

  lemma {:induction false} StrTransitive(a: string, b: string, c: string)
    requires StrLess(a, b) && StrLess(b, c)
    ensures StrLess(a, c)
  {
    if a != [] && a[0] == b[0] && b[0] == c[0] {
      StrTransitive(a[1..], b[1..], c[1..]);
    }
  }

  /** Primary key of a binding: agent id, then registration name. */
  type Pair = (int, string)

  predicate Less(a: Pair, b: Pair)
  {
    a.0 < b.0 || (a.0 == b.0 && StrLess(a.1, b.1))
  }

  lemma LessTrichotomy(a: Pair, b: Pair)
    ensures !(Less(a, b) && Less(b, a))
    ensures a == b ==> !Less(a, b)
    ensures a != b ==> Less(a, b) || Less(b, a)
  {
    StrTrichotomy(a.1, b.1);
  }

  lemma LessTransitive(a: Pair, b: Pair, c: Pair)
    requires Less(a, b) && Less(b, c)
    ensures Less(a, c)
  {
    if a.0 == b.0 && b.0 == c.0 {
      StrTransitive(a.1, b.1, c.1);
    }
  }

  predicate StrictlySorted<T>(xs: seq<T>, key: T -> Pair)
  {
    forall i, j | 0 <= i < j < |xs| :: Less(key(xs[i]), key(xs[j]))
  }

  predicate DistinctKeys<T>(xs: seq<T>, key: T -> Pair)
  {
    forall i, j | 0 <= i < j < |xs| :: key(xs[i]) != key(xs[j])
  }

  predicate HasKey<T>(xs: seq<T>, key: T -> Pair, k: Pair)
  {
    exists i | 0 <= i < |xs| :: key(xs[i]) == k
  }

  /** Inserts after every element that is not greater. */
  function InsertSorted<T>(xs: seq<T>, x: T, key: T -> Pair): seq<T>
  {
    if xs == [] || !Less(key(x), key(xs[|xs| - 1])) then xs + [x]
    else InsertSorted(xs[..|xs| - 1], x, key) + [xs[|xs| - 1]]
  }

  function SortByKey<T>(xs: seq<T>, key: T -> Pair): seq<T>
  {
    if xs == [] then [] else InsertSorted(SortByKey(xs[..|xs| - 1], key), xs[|xs| - 1], key)
  }

  lemma {:induction false} InsertSortedMembers<T>(xs: seq<T>, x: T, key: T -> Pair)
    ensures |InsertSorted(xs, x, key)| == |xs| + 1
    ensures forall i | 0 <= i < |InsertSorted(xs, x, key)| ::
      InsertSorted(xs, x, key)[i] == x || InsertSorted(xs, x, key)[i] in xs
    ensures x in InsertSorted(xs, x, key) && forall y | y in xs :: y in InsertSorted(xs, x, key)
  {
    if xs != [] && Less(key(x), key(xs[|xs| - 1])) {
      InsertSortedMembers(xs[..|xs| - 1], x, key);
      assert xs == xs[..|xs| - 1] + [xs[|xs| - 1]];
    }
  }

  lemma {:induction false} InsertSortedOrder<T>(xs: seq<T>, x: T, key: T -> Pair)
    requires StrictlySorted(xs, key) && !HasKey(xs, key, key(x))
    ensures StrictlySorted(InsertSorted(xs, x, key), key)
  {
    var n := |xs| - 1;
    if n >= 0 {
      LessTrichotomy(key(x), key(xs[n]));
      if Less(key(x), key(xs[n])) {
        var front := InsertSorted(xs[..n], x, key);
        InsertSortedOrder(xs[..n], x, key);
        InsertSortedMembers(xs[..n], x, key);
        forall i | 0 <= i < |front| ensures Less(key(front[i]), key(xs[n])) {
          if front[i] != x {
            var m :| 0 <= m < n && xs[..n][m] == front[i];
            assert Less(key(xs[m]), key(xs[n]));
          }
        }
      } else {
        forall i | 0 <= i < n ensures Less(key(xs[i]), key(x)) {
          LessTransitive(key(xs[i]), key(xs[n]), key(x));
        }
      }
    }
  }

  lemma {:induction false} SortByKeySpec<T>(xs: seq<T>, key: T -> Pair)
    requires DistinctKeys(xs, key)
    ensures |SortByKey(xs, key)| == |xs|
    ensures forall i | 0 <= i < |xs| :: SortByKey(xs, key)[i] in xs
    ensures forall y | y in xs :: y in SortByKey(xs, key)
    ensures StrictlySorted(SortByKey(xs, key), key)
  {
    if xs != [] {
      var n := |xs| - 1;
      var rest := SortByKey(xs[..n], key);
      SortByKeySpec(xs[..n], key);
      InsertSortedMembers(rest, xs[n], key);
      forall i | 0 <= i < |rest| ensures key(rest[i]) != key(xs[n]) {
        assert rest[i] in xs[..n];
      }
      InsertSortedOrder(rest, xs[n], key);
      assert xs == xs[..n] + [xs[n]];
    }
  }

  lemma StrictlySortedDistinct<T>(xs: seq<T>, key: T -> Pair)
    requires StrictlySorted(xs, key)
    ensures DistinctKeys(xs, key)
  {
    forall i, j | 0 <= i < j < |xs| ensures key(xs[i]) != key(xs[j]) {
      LessTrichotomy(key(xs[i]), key(xs[j]));
    }
  }

  lemma DistinctConcat<T>(a: seq<T>, b: seq<T>, key: T -> Pair)
    requires DistinctKeys(a, key) && DistinctKeys(b, key)
    requires forall x, y | x in a && y in b :: key(x) != key(y)
    ensures DistinctKeys(a + b, key)
  {
    forall i, j | 0 <= i < j < |a + b| ensures key((a + b)[i]) != key((a + b)[j]) {
      if i < |a| <= j {
        assert a[i] in a && b[j - |a|] in b;
      }
    }
  }

  /** Rows one after another. */
  function Flatten<T>(rows: seq<seq<T>>): seq<T>
  {
    if rows == [] then [] else Flatten(rows[..|rows| - 1]) + rows[|rows| - 1]
  }

  ghost predicate InRow<T>(rows: seq<seq<T>>, x: T)
  {
    exists p | 0 <= p < |rows| :: x in rows[p]
  }

  lemma {:induction false} FlattenMembers<T>(rows: seq<seq<T>>)
    ensures forall i | 0 <= i < |Flatten(rows)| :: InRow(rows, Flatten(rows)[i])
    ensures forall p, q | 0 <= p < |rows| && 0 <= q < |rows[p]| :: rows[p][q] in Flatten(rows)
  {
    if rows != [] {
      var n := |rows| - 1;
      var front := Flatten(rows[..n]);
      FlattenMembers(rows[..n]);
      forall i | 0 <= i < |Flatten(rows)| ensures InRow(rows, Flatten(rows)[i]) {
        if i < |front| {
          assert InRow(rows[..n], front[i]);
          var p :| 0 <= p < n && front[i] in rows[..n][p];
          assert front[i] in rows[p];
        } else {
          assert rows[n][i - |front|] in rows[n];
        }
      }
      forall p, q | 0 <= p < |rows| && 0 <= q < |rows[p]| ensures rows[p][q] in Flatten(rows) {
        if p < n {
          assert rows[..n][p][q] in front;
        }
      }
    }
  }

  lemma {:induction false} FlattenDistinct<T>(rows: seq<seq<T>>, key: T -> Pair)
    requires forall p | 0 <= p < |rows| :: DistinctKeys(rows[p], key)
    requires forall p, q, x, y | 0 <= p < q < |rows| && x in rows[p] && y in rows[q] :: key(x) != key(y)
    ensures DistinctKeys(Flatten(rows), key)
  {
    if rows != [] {
      var n := |rows| - 1;
      var front := Flatten(rows[..n]);
      FlattenDistinct(rows[..n], key);
      FlattenMembers(rows[..n]);
      forall x, y | x in front && y in rows[n] ensures key(x) != key(y) {
        var i :| 0 <= i < |front| && front[i] == x;
        assert InRow(rows[..n], front[i]);
        var p :| 0 <= p < n && x in rows[..n][p];
        assert x in rows[p];
      }
      DistinctConcat(front, rows[n], key);
    }
  }
}
