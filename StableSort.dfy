/**
 * A stable sort over a total preorder: the behaviour `Array.prototype.sort` guarantees
 * for a consistent comparator. `le(a, b)` stands for "the comparator does not put b before a"
 * (`compare(a, b) <= 0`). The sort is written as an insertion sort; `SortedUnique` shows that
 * every stable sort returns the same sequence, so the choice of algorithm does not matter.
 */
module StableSort {

  /** `le` is total and transitive (hence also reflexive). */
  ghost predicate TotalPreorder<T(!new)>(le: (T, T) -> bool) {
    && (forall a, b :: le(a, b) || le(b, a))
    && (forall a, b, c :: le(a, b) && le(b, c) ==> le(a, c))
  }

  /** Neighbouring elements are in order. */
  predicate Sorted<T>(le: (T, T) -> bool, s: seq<T>) {
    forall i :: 0 < i < |s| ==> le(s[i - 1], s[i])
  }

  /** `a` and `b` compare equal (a tie). */
  predicate Tied<T>(le: (T, T) -> bool, a: T, b: T) {
    le(a, b) && le(b, a)
  }

  /** The elements of `s` that tie with `x`, in the order they have in `s`. */
  function Ties<T>(le: (T, T) -> bool, x: T, s: seq<T>): seq<T> {
    if s == [] then []
    else (if Tied(le, s[0], x) then [s[0]] else []) + Ties(le, x, s[1..])
  }

  /** Inserts `x` before the first element it is not after. */
  function Insert<T>(le: (T, T) -> bool, x: T, s: seq<T>): seq<T> {
    if s == [] then [x]
    else if le(x, s[0]) then [x] + s
    else [s[0]] + Insert(le, x, s[1..])
  }

  /** Stable insertion sort. */
  function Sort<T>(le: (T, T) -> bool, s: seq<T>): seq<T> {
    if s == [] then [] else Insert(le, s[0], Sort(le, s[1..]))
  }

  lemma {:induction false} InsertPermutes<T>(le: (T, T) -> bool, x: T, s: seq<T>)
    ensures multiset(Insert(le, x, s)) == multiset(s) + multiset{x}
  {
    if s != [] && !le(x, s[0]) {
      InsertPermutes(le, x, s[1..]);
      assert s == [s[0]] + s[1..];
    }
  }

  /** Sorting permutes its input. */
  lemma {:induction false} SortPermutes<T>(le: (T, T) -> bool, s: seq<T>)
    ensures multiset(Sort(le, s)) == multiset(s)
    ensures |Sort(le, s)| == |s|
  {
    if s != [] {
      SortPermutes(le, s[1..]);
      InsertPermutes(le, s[0], Sort(le, s[1..]));
      assert s == [s[0]] + s[1..];
    }
  }

  lemma {:induction false} InsertHead<T>(le: (T, T) -> bool, x: T, s: seq<T>)
    ensures |Insert(le, x, s)| == |s| + 1
    ensures Insert(le, x, s)[0] == x || (s != [] && Insert(le, x, s)[0] == s[0])
  {
    if s != [] && !le(x, s[0]) {
      InsertHead(le, x, s[1..]);
    }
  }

  lemma {:induction false} InsertSorted<T(!new)>(le: (T, T) -> bool, x: T, s: seq<T>)
    requires TotalPreorder(le) && Sorted(le, s)
    ensures Sorted(le, Insert(le, x, s))
  {
    if s != [] && !le(x, s[0]) {
      InsertSorted(le, x, s[1..]);
      InsertHead(le, x, s[1..]);
      assert le(s[0], x);
      var r := Insert(le, x, s[1..]);
      assert r[0] == x || (|s| > 1 && r[0] == s[1]);
      assert Insert(le, x, s) == [s[0]] + r;
    }
  }

  /** Sorting yields a sorted sequence. */
  lemma {:induction false} SortSorted<T(!new)>(le: (T, T) -> bool, s: seq<T>)
    requires TotalPreorder(le)
    ensures Sorted(le, Sort(le, s))
  {
    if s != [] {
      SortSorted(le, s[1..]);
      InsertSorted(le, s[0], Sort(le, s[1..]));
    }
  }

  lemma TiesCons<T>(le: (T, T) -> bool, y: T, a: T, s: seq<T>)
    ensures Ties(le, y, [a] + s) == (if Tied(le, a, y) then [a] else []) + Ties(le, y, s)
  {
    assert ([a] + s)[0] == a && ([a] + s)[1..] == s;
  }

  /** A total preorder is reflexive. */
  lemma Reflexive<T(!new)>(le: (T, T) -> bool, a: T)
    requires TotalPreorder(le)
    ensures le(a, a)
  {
  }

  /** An element strictly before `x` cannot tie with anything `x` ties with. */
  lemma StrictlyBeforeNotTied<T(!new)>(le: (T, T) -> bool, x: T, y: T, z: T)
    requires TotalPreorder(le)
    requires !le(x, z) && Tied(le, x, y)
    ensures !Tied(le, z, y)
  {
  }

  lemma {:induction false} InsertTies<T(!new)>(le: (T, T) -> bool, x: T, y: T, s: seq<T>)
    requires TotalPreorder(le)
    ensures Ties(le, y, Insert(le, x, s)) == (if Tied(le, x, y) then [x] else []) + Ties(le, y, s)
  {
    if s == [] {
      TiesCons(le, y, x, []);
    } else if le(x, s[0]) {
      TiesCons(le, y, x, s);
    } else {
      var hx := if Tied(le, x, y) then [x] else [];
      var h0 := if Tied(le, s[0], y) then [s[0]] else [];
      var rest := Insert(le, x, s[1..]);
      InsertTies(le, x, y, s[1..]);
      TiesCons(le, y, s[0], rest);
      TiesCons(le, y, s[0], s[1..]);
      assert s == [s[0]] + s[1..];
      if Tied(le, x, y) {
        StrictlyBeforeNotTied(le, x, y, s[0]);
        assert h0 + (hx + Ties(le, y, s[1..])) == hx + (h0 + Ties(le, y, s[1..]));
      } else {
        assert h0 + (hx + Ties(le, y, s[1..])) == hx + (h0 + Ties(le, y, s[1..]));
      }
    }
  }

  /** Sorting is stable: the elements of each tie class keep their relative input order. */
  lemma {:induction false} SortStable<T(!new)>(le: (T, T) -> bool, s: seq<T>, y: T)
    requires TotalPreorder(le)
    ensures Ties(le, y, Sort(le, s)) == Ties(le, y, s)
  {
    if s != [] {
      SortStable(le, s[1..], y);
      InsertTies(le, s[0], y, Sort(le, s[1..]));
    }
  }

  /** Under a transitive order, neighbourwise order is order of every pair. */
  lemma {:induction false} SortedPairs<T(!new)>(le: (T, T) -> bool, s: seq<T>, i: int, j: int)
    requires TotalPreorder(le) && Sorted(le, s)
    requires 0 <= i <= j < |s|
    ensures le(s[i], s[j])
    decreases j - i
  {
    if i == j {
      Reflexive(le, s[i]);
    } else {
      SortedPairs(le, s, i, j - 1);
    }
  }

  lemma {:induction false} TiesMember<T>(le: (T, T) -> bool, y: T, s: seq<T>, x: T)
    requires x in Ties(le, y, s)
    ensures x in s && Tied(le, x, y)
  {
    if s != [] && !(x == s[0] && Tied(le, s[0], y)) {
      TiesMember(le, y, s[1..], x);
    }
  }

  /** The first element of a sequence ties with itself. */
  lemma TiesOfHead<T(!new)>(le: (T, T) -> bool, s: seq<T>)
    requires TotalPreorder(le) && s != []
    ensures Ties(le, s[0], s) == [s[0]] + Ties(le, s[0], s[1..])
  {
    Reflexive(le, s[0]);
  }

  /**
   * A sorted sequence is determined by its tie classes: two sorted sequences whose
   * tie classes agree element for element are equal. So every stable sort of `s`
   * equals `Sort(le, s)`.
   */
  lemma {:induction false} SortedUnique<T(!new)>(le: (T, T) -> bool, r: seq<T>, t: seq<T>)
    requires TotalPreorder(le) && Sorted(le, r) && Sorted(le, t)
    requires forall y :: Ties(le, y, r) == Ties(le, y, t)
    ensures r == t
  {
    if r == [] && t != [] {
      TiesOfHead(le, t);
    } else if r != [] && t == [] {
      TiesOfHead(le, r);
    } else if r != [] {
      Reflexive(le, t[0]);
      Reflexive(le, r[0]);
      TiesCons(le, t[0], t[0], t[1..]);
      assert t == [t[0]] + t[1..];
      assert t[0] in Ties(le, t[0], r);
      TiesMember(le, t[0], r, t[0]);
      var i :| 0 <= i < |r| && r[i] == t[0];
      SortedPairs(le, r, 0, i);
      TiesCons(le, r[0], r[0], r[1..]);
      assert r == [r[0]] + r[1..];
      assert r[0] in Ties(le, r[0], t);
      TiesMember(le, r[0], t, r[0]);
      var j :| 0 <= j < |t| && t[j] == r[0];
      SortedPairs(le, t, 0, j);
      TiesCons(le, r[0], t[0], t[1..]);
      assert Tied(le, t[0], r[0]);
      assert Ties(le, r[0], r) == [r[0]] + Ties(le, r[0], r[1..]);
      assert Ties(le, r[0], t) == [t[0]] + Ties(le, r[0], t[1..]);
      assert Ties(le, r[0], r)[0] == r[0] && Ties(le, r[0], t)[0] == t[0];
      assert r[0] == t[0];
      forall y ensures Ties(le, y, r[1..]) == Ties(le, y, t[1..]) {
        TiesCons(le, y, r[0], r[1..]);
        TiesCons(le, y, t[0], t[1..]);
        var h := if Tied(le, r[0], y) then [r[0]] else [];
        assert h + Ties(le, y, r[1..]) == h + Ties(le, y, t[1..]);
        assert (h + Ties(le, y, r[1..]))[|h|..] == Ties(le, y, r[1..]);
        assert (h + Ties(le, y, t[1..]))[|h|..] == Ties(le, y, t[1..]);
      }
      SortedUnique(le, r[1..], t[1..]);
    }
  }

  /** Sorting a sorted sequence changes nothing. */
  lemma SortOfSorted<T(!new)>(le: (T, T) -> bool, s: seq<T>)
    requires TotalPreorder(le) && Sorted(le, s)
    ensures Sort(le, s) == s
  {
    SortSorted(le, s);
    forall y ensures Ties(le, y, Sort(le, s)) == Ties(le, y, s) {
      SortStable(le, s, y);
    }
    SortedUnique(le, Sort(le, s), s);
  }

  /** Sorting is idempotent. */
  lemma SortIdempotent<T(!new)>(le: (T, T) -> bool, s: seq<T>)
    requires TotalPreorder(le)
    ensures Sort(le, Sort(le, s)) == Sort(le, s)
  {
    SortSorted(le, s);
    SortOfSorted(le, Sort(le, s));
  }
}
