/**
 * The two column statistics the imputation uses: the median of numbers
 * (average of the two middle values for an even count) and a mode (a value of
 * maximal frequency). Both stand for library calls; the median is computed
 * from an insertion sort and proved to split the values in halves.
 */
module Stats {

  ghost predicate Sorted(s: seq<real>) {
    forall i, j :: 0 <= i < j < |s| ==> s[i] <= s[j]
  }

  /** The number of values at most `m`. */
  function CountAtMost(s: seq<real>, m: real): (n: nat)
    ensures n <= |s|
  {
    if s == [] then 0 else (if s[0] <= m then 1 else 0) + CountAtMost(s[1..], m)
  }

  /** The number of values at least `m`. */
  function CountAtLeast(s: seq<real>, m: real): (n: nat)
    ensures n <= |s|
  {
    if s == [] then 0 else (if s[0] >= m then 1 else 0) + CountAtLeast(s[1..], m)
  }

  /** Inserts `x` into a sorted sequence, keeping it sorted. */
  function Insert(x: real, s: seq<real>): (r: seq<real>)
    requires Sorted(s)
    ensures |r| == |s| + 1
    ensures r[0] == if s == [] || x <= s[0] then x else s[0]
    ensures Sorted(r)
  {
    if s == [] || x <= s[0] then
      [x] + s
    else
      var t := Insert(x, s[1..]);
      assert forall j :: 0 <= j < |t| ==> s[0] <= t[0] <= t[j];
      [s[0]] + t
  }

  /** Inserting adds `x` and loses nothing. */
  lemma {:induction false} InsertPermutes(x: real, s: seq<real>)
    requires Sorted(s)
    ensures multiset(Insert(x, s)) == multiset(s) + multiset{x}
  {
    if s != [] && x > s[0] {
      InsertPermutes(x, s[1..]);
      assert s == [s[0]] + s[1..];
    }
  }

  /** Inserting `x` adds one to the count of values on the side of any bound where `x` lies. */
  lemma {:induction false} InsertCounts(x: real, s: seq<real>, m: real)
    requires Sorted(s)
    ensures CountAtMost(Insert(x, s), m) == CountAtMost(s, m) + (if x <= m then 1 else 0)
    ensures CountAtLeast(Insert(x, s), m) == CountAtLeast(s, m) + (if x >= m then 1 else 0)
  {
    var r := Insert(x, s);
    if s == [] || x <= s[0] {
      assert r[1..] == s;
    } else {
      InsertCounts(x, s[1..], m);
      assert r[1..] == Insert(x, s[1..]);
    }
  }

  /** Insertion sort: a sorted permutation. */
  function SortAscending(s: seq<real>): (r: seq<real>)
    ensures Sorted(r)
    ensures multiset(r) == multiset(s)
    ensures |r| == |s|
  {
    if s == [] then []
    else
      assert s == [s[0]] + s[1..];
      InsertPermutes(s[0], SortAscending(s[1..]));
      Insert(s[0], SortAscending(s[1..]))
  }

  /** Sorting keeps the number of values on each side of any bound. */
  lemma {:induction false} SortCounts(s: seq<real>, m: real)
    ensures CountAtMost(SortAscending(s), m) == CountAtMost(s, m)
    ensures CountAtLeast(SortAscending(s), m) == CountAtLeast(s, m)
  {
    if s != [] {
      SortCounts(s[1..], m);
      InsertCounts(s[0], SortAscending(s[1..]), m);
    }
  }

  /** The middle of a sorted sequence: the middle value, or the average of the two middle values. */
  function Middle(s: seq<real>): real
    requires |s| > 0
  {
    var n := |s|;
    if n % 2 == 1 then s[n / 2] else (s[n / 2 - 1] + s[n / 2]) / 2.0
  }

  /**
   * The median of a non-empty collection of numbers: at least half of the
   * values are at most it and at least half are at least it.
   */
  function Median(vals: seq<real>): (m: real)
    requires |vals| > 0
    ensures 2 * CountAtMost(vals, m) >= |vals|
    ensures 2 * CountAtLeast(vals, m) >= |vals|
  {
    var s := SortAscending(vals);
    MiddleHasHalfBelow(s);
    MiddleHasHalfAbove(s);
    SortCounts(vals, Middle(s));
    Middle(s)
  }

  /** If the first k + 1 values are at most m, at least k + 1 values are. */
  lemma {:induction false} PrefixAtMost(s: seq<real>, k: nat, m: real)
    requires k < |s|
    requires forall j :: 0 <= j <= k ==> s[j] <= m
    ensures CountAtMost(s, m) >= k + 1
  {
    if k > 0 {
      PrefixAtMost(s[1..], k - 1, m);
    }
  }

  /** If the values from index k on are at least m, at least |s| - k values are. */
  lemma {:induction false} SuffixAtLeast(s: seq<real>, k: nat, m: real)
    requires k <= |s|
    requires forall j :: k <= j < |s| ==> s[j] >= m
    ensures CountAtLeast(s, m) >= |s| - k
  {
    if s != [] {
      SuffixAtLeast(s[1..], if k > 0 then k - 1 else 0, m);
    }
  }

  /** In a sorted sequence, at least half of the values are at most the middle. */
  lemma MiddleHasHalfBelow(s: seq<real>)
    requires |s| > 0 && Sorted(s)
    ensures 2 * CountAtMost(s, Middle(s)) >= |s|
  {
    var n := |s|;
    if n % 2 == 1 {
      assert forall j :: 0 <= j <= n / 2 ==> s[j] <= s[n / 2];
      PrefixAtMost(s, n / 2, Middle(s));
    } else {
      assert forall j :: 0 <= j <= n / 2 - 1 ==> s[j] <= s[n / 2 - 1] <= Middle(s);
      PrefixAtMost(s, n / 2 - 1, Middle(s));
    }
  }

  /** In a sorted sequence, at least half of the values are at least the middle. */
  lemma MiddleHasHalfAbove(s: seq<real>)
    requires |s| > 0 && Sorted(s)
    ensures 2 * CountAtLeast(s, Middle(s)) >= |s|
  {
    var n := |s|;
    if n % 2 == 1 {
      assert forall j :: n / 2 <= j < n ==> s[n / 2] <= s[j];
      SuffixAtLeast(s, n / 2, Middle(s));
    } else {
      assert forall j :: n / 2 <= j < n ==> Middle(s) <= s[n / 2] <= s[j];
      SuffixAtLeast(s, n / 2, Middle(s));
    }
  }

  /** A positive count of values at most `m` has a witness. */
  lemma {:induction false} SomeAtMost(s: seq<real>, m: real)
    requires CountAtMost(s, m) > 0
    ensures exists i :: 0 <= i < |s| && s[i] <= m
  {
    if s[0] > m {
      SomeAtMost(s[1..], m);
      var i :| 0 <= i < |s| - 1 && s[1..][i] <= m;
      assert s[i + 1] <= m;
    }
  }

  /** A positive count of values at least `m` has a witness. */
  lemma {:induction false} SomeAtLeast(s: seq<real>, m: real)
    requires CountAtLeast(s, m) > 0
    ensures exists i :: 0 <= i < |s| && s[i] >= m
  {
    if s[0] < m {
      SomeAtLeast(s[1..], m);
      var i :| 0 <= i < |s| - 1 && s[1..][i] >= m;
      assert s[i + 1] >= m;
    }
  }

  /** The median lies between the smallest and the largest value. */
  lemma MedianIsWithinRange(vals: seq<real>)
    requires |vals| > 0
    ensures exists i :: 0 <= i < |vals| && vals[i] <= Median(vals)
    ensures exists j :: 0 <= j < |vals| && vals[j] >= Median(vals)
  {
    SomeAtMost(vals, Median(vals));
    SomeAtLeast(vals, Median(vals));
  }

  /** The first candidate of maximal frequency in `vals`. */
  function ModeAmong<T(==)>(vals: seq<T>, candidates: seq<T>): (m: T)
    requires |candidates| > 0
    ensures m in candidates
    ensures forall v :: v in candidates ==> multiset(vals)[v] <= multiset(vals)[m]
  {
    if |candidates| == 1 then candidates[0]
    else
      var rest := ModeAmong(vals, candidates[1..]);
      assert forall v :: v in candidates ==> v == candidates[0] || v in candidates[1..];
      if multiset(vals)[candidates[0]] >= multiset(vals)[rest] then candidates[0] else rest
  }

  /** A most frequent value of a non-empty sequence. */
  function Mode<T(==)>(vals: seq<T>): (m: T)
    requires |vals| > 0
    ensures m in vals
    ensures forall v :: v in vals ==> multiset(vals)[v] <= multiset(vals)[m]
  {
    ModeAmong(vals, vals)
  }
}
