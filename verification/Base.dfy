/** Result types and a few sequence facts shared by every component. */
module Base {

  datatype Option<+T> = None | Some(value: T)

  /** The outcome of a transaction: `Store.Write` commits everything or nothing. */
  datatype Result<+T> = Ok(value: T) | Rejected

  /** How a transaction ended: refused by its own checks, or rolled back by the database. */
  datatype Commitment = Committed | Refused | RolledBack

  function Min(a: int, b: int): int {
    if a < b then a else b
  }

  function Pow2(n: nat): (p: nat)
    ensures p >= 1
  {
    if n == 0 then 1 else 2 * Pow2(n - 1)
  }

  function FoldCase(c: char): char {
    if 'A' <= c <= 'Z' then c - 'A' + 'a' else c
  }

  /** Device and account names are compared without case. */
  predicate SameName(a: string, b: string) {
    |a| == |b| && forall i :: 0 <= i < |a| ==> FoldCase(a[i]) == FoldCase(b[i])
  }

  /** Names are the same when they differ at most in the case of the letters A to Z. */
  lemma SameNameExactly(a: string, b: string)
    ensures SameName(a, b) <==>
      |a| == |b| && forall i :: 0 <= i < |a| ==>
        || a[i] == b[i]
        || ('A' <= a[i] <= 'Z' && b[i] as int == a[i] as int + 32)
        || ('A' <= b[i] <= 'Z' && a[i] as int == b[i] as int + 32)
  {
  }

  function SetOf<T>(s: seq<T>): set<T> {
    set x | x in s
  }

  ghost predicate Distinct<T>(s: seq<T>) {
    forall i, j :: 0 <= i < j < |s| ==> s[i] != s[j]
  }

  lemma {:induction false} DistinctCardinality<T>(s: seq<T>)
    requires Distinct(s)
    ensures |SetOf(s)| == |s|
  {
    if s == [] {
      assert SetOf(s) == {};
    } else {
      var last := |s| - 1;
      var front := s[..last];
      assert s == front + [s[last]];
      DistinctCardinality(front);
      assert s[last] !in SetOf(front);
      assert SetOf(s) == SetOf(front) + {s[last]};
    }
  }

  lemma {:induction false} SubsetCardinality<T>(small: set<T>, big: set<T>)
    requires small <= big
    ensures |small| <= |big|
  {
    if small != {} {
      var x :| x in small;
      SubsetCardinality(small - {x}, big - {x});
    }
  }

  /** The numbers `lo..hi`, upper bound excluded. */
  function Numbers(lo: int, hi: int): (range: set<int>)
    requires lo <= hi
    ensures forall i :: i in range <==> lo <= i < hi
    ensures |range| == hi - lo
    decreases hi - lo
  {
    if lo == hi then {} else Numbers(lo, hi - 1) + {hi - 1}
  }

  /** Pigeonhole: distinct numbers drawn from `lo..hi` are at most `hi - lo` many. */
  lemma DistinctInRange(s: seq<int>, lo: int, hi: int)
    requires lo <= hi && Distinct(s)
    requires forall i :: 0 <= i < |s| ==> lo <= s[i] < hi
    ensures |s| <= hi - lo
  {
    DistinctCardinality(s);
    SubsetCardinality(SetOf(s), Numbers(lo, hi));
  }
}
