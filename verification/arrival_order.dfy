/** The order in which a day's jobs are considered for admission: Python's stable sort by
    arrival, i.e. by arrival time and, for equal arrivals, by position in the day's list. */
module ArrivalOrder {
  import opened Jobs

  /** Job a is considered before job b: it arrives earlier, or at the same minute and was
      entered earlier. */
  predicate Before(jobs: seq<Job>, a: nat, b: nat) {
    && a < |jobs| && b < |jobs|
    && (jobs[a].arrival < jobs[b].arrival || (jobs[a].arrival == jobs[b].arrival && a < b))
  }

  predicate Sorted(jobs: seq<Job>, s: seq<nat>) {
    forall p, q {:trigger Before(jobs, s[p], s[q])} :: 0 <= p < q < |s| ==> Before(jobs, s[p], s[q])
  }

  /** `Before` is a strict total order on the positions of a day. */
  lemma BeforeOrders(jobs: seq<Job>, a: nat, b: nat, c: nat)
    ensures !Before(jobs, a, a)
    ensures Before(jobs, a, b) ==> !Before(jobs, b, a)
    ensures a < |jobs| && b < |jobs| && a != b ==> Before(jobs, a, b) || Before(jobs, b, a)
    ensures Before(jobs, a, b) && Before(jobs, b, c) ==> Before(jobs, a, c)
  {
  }

  /** Places x among the already ordered positions s, in front of the first one it comes before. */
  function Insert(jobs: seq<Job>, x: nat, s: seq<nat>): (r: seq<nat>)
    ensures multiset(r) == multiset(s) + multiset{x}
  {
    if s == [] then [x]
    else if Before(jobs, x, s[0]) then [x] + s
    else
      assert s == [s[0]] + s[1..];
      [s[0]] + Insert(jobs, x, s[1..])
  }

  /** Inserting a new position into a sorted sequence keeps it sorted. */
  lemma {:induction false} InsertSorted(jobs: seq<Job>, x: nat, s: seq<nat>)
    requires x < |jobs| && x !in s
    requires forall i :: 0 <= i < |s| ==> s[i] < |jobs|
    requires Sorted(jobs, s)
    ensures Sorted(jobs, Insert(jobs, x, s))
  {
    if s == [] {
    } else if Before(jobs, x, s[0]) {
      forall q | 0 < q < |s|
        ensures Before(jobs, x, s[q])
      {
        BeforeOrders(jobs, x, s[0], s[q]);
      }
    } else {
      var rest := Insert(jobs, x, s[1..]);
      SortedTail(jobs, s);
      InsertSorted(jobs, x, s[1..]);
      assert s[0] in s;
      BeforeOrders(jobs, x, s[0], x);
      forall q | 0 <= q < |rest|
        ensures Before(jobs, s[0], rest[q])
      {
        assert rest[q] in multiset(rest);
        if rest[q] != x {
          assert rest[q] in s[1..];
          var p :| 0 <= p < |s[1..]| && s[1..][p] == rest[q];
          assert s[p + 1] == rest[q];
        }
      }
      var r := [s[0]] + rest;
      forall p, q | 0 <= p < q < |r|
        ensures Before(jobs, r[p], r[q])
      {
        if p > 0 {
          assert r[p] == rest[p - 1] && r[q] == rest[q - 1];
        }
      }
    }
  }

  /** Insertion sort of the first k positions of the day. */
  function SortPrefix(jobs: seq<Job>, k: nat): (r: seq<nat>)
    requires k <= |jobs|
    ensures multiset(r) == multiset(Indices(k))
    ensures Sorted(jobs, r)
  {
    if k == 0 then []
    else
      var prefix := SortPrefix(jobs, k - 1);
      InsertNext(jobs, k, prefix);
      Insert(jobs, k - 1, prefix)
  }

  /** Inserting position k - 1 into the sorted first k - 1 positions sorts the first k. */
  lemma InsertNext(jobs: seq<Job>, k: nat, prefix: seq<nat>)
    requires 0 < k <= |jobs|
    requires multiset(prefix) == multiset(Indices(k - 1)) && Sorted(jobs, prefix)
    ensures multiset(Insert(jobs, k - 1, prefix)) == multiset(Indices(k))
    ensures Sorted(jobs, Insert(jobs, k - 1, prefix))
  {
    NewIndexAbsent(prefix, k);
    InsertSorted(jobs, k - 1, prefix);
    assert Indices(k) == Indices(k - 1) + [k - 1];
  }

  lemma NewIndexAbsent(prefix: seq<nat>, k: nat)
    requires 0 < k
    requires multiset(prefix) == multiset(Indices(k - 1))
    ensures (k - 1) !in prefix
    ensures forall i :: 0 <= i < |prefix| ==> prefix[i] < k
  {
    PermutationBounds(prefix, k - 1);
  }

  /** The order in which the day's jobs are admitted: every job once, by arrival, ties by entry. */
  function Order(jobs: seq<Job>): (r: seq<nat>)
    ensures IsPermutation(r, |jobs|)
    ensures Sorted(jobs, r)
  {
    SortPrefix(jobs, |jobs|)
  }

  /** There is only one ordering of a set of positions that is sorted by `Before`, so any stable
      sort by arrival, Python's included, produces exactly `Order`. */
  lemma {:induction false} SortedUnique(jobs: seq<Job>, a: seq<nat>, b: seq<nat>)
    requires Sorted(jobs, a) && Sorted(jobs, b)
    requires multiset(a) == multiset(b)
    ensures a == b
  {
    assert |a| == |multiset(a)| == |multiset(b)| == |b|;
    if |a| > 0 {
      assert a[0] in multiset(b) && b[0] in multiset(a);
      if a[0] != b[0] {
        FirstIsLeast(jobs, a, b[0]);
        FirstIsLeast(jobs, b, a[0]);
        BeforeOrders(jobs, a[0], b[0], a[0]);
      }
      SortedTail(jobs, a);
      SortedTail(jobs, b);
      TailMultiset(a);
      TailMultiset(b);
      SortedUnique(jobs, a[1..], b[1..]);
    }
  }

  /** The first entry of a sorted sequence comes before every other entry. */
  lemma FirstIsLeast(jobs: seq<Job>, a: seq<nat>, x: nat)
    requires Sorted(jobs, a) && |a| > 0 && x in a && x != a[0]
    ensures Before(jobs, a[0], x)
  {
    var i :| 0 <= i < |a| && a[i] == x;
  }

  lemma TailMultiset(a: seq<nat>)
    requires |a| > 0
    ensures a == [a[0]] + a[1..]
    ensures multiset(a[1..]) == multiset(a) - multiset{a[0]}
  {
    assert a == [a[0]] + a[1..];
  }

  lemma SortedTail(jobs: seq<Job>, a: seq<nat>)
    requires Sorted(jobs, a) && |a| > 0
    ensures Sorted(jobs, a[1..])
  {
    forall p, q | 0 <= p < q < |a| - 1
      ensures Before(jobs, a[1..][p], a[1..][q])
    {
      assert a[1..][p] == a[p + 1] && a[1..][q] == a[q + 1];
    }
  }

  /** Any permutation of the positions that is sorted by `Before` is `Order`. */
  lemma StableSortIsOrder(jobs: seq<Job>, r: seq<nat>)
    requires IsPermutation(r, |jobs|) && Sorted(jobs, r)
    ensures r == Order(jobs)
  {
    SortedUnique(jobs, r, Order(jobs));
  }
}
