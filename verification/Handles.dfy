/** `genHandle` under 32-bit wrap-around. */
module Handles {
  import opened Bytes
  import opened Worlds

  lemma {:induction false} ProbeStops(n: Handle, taken: set<Handle>, j: nat)
    requires j <= TWO32
    ensures var k := Probe(n, taken, j);
            && j <= k <= TWO32
            && (forall i :: j <= i < k ==> Candidate(n, i) in taken)
            && (k < TWO32 ==> Candidate(n, k) !in taken)
    decreases TWO32 - j
  {
    if j < TWO32 && Candidate(n, j) in taken {
      ProbeStops(n, taken, j + 1);
    }
  }

  lemma CandidateNext(n: Handle, i: nat)
    ensures Candidate(n, i + 1) == (Candidate(n, i) + 1) % TWO32
  {
  }

  lemma CandidatesApart(n: Handle, i: nat, j: nat)
    requires i < j < i + TWO32
    ensures Candidate(n, i) != Candidate(n, j)
  {
  }

  /** One rejected or accepted candidate of the search that ends at distance `k`. */
  lemma ProbeStep(n: Handle, taken: set<Handle>, j: nat, k: nat)
    requires 1 <= j && Probe(n, taken, j) == k && Candidate(n, k) !in taken && k <= TWO32
    ensures j <= k
    ensures if Candidate(n, j) in taken then j < TWO32 && Probe(n, taken, j + 1) == k else j == k
  {
    if j <= TWO32 {
      ProbeStops(n, taken, j);
    }
  }

  /** The first `k - 1` candidates after `n`. */
  ghost function Candidates(n: Handle, k: nat): set<Handle> {
    set i | 1 <= i < k :: Candidate(n, i)
  }

  lemma {:induction false} CandidatesDiffer(n: Handle, k: nat)
    requires 1 <= k <= TWO32 + 1
    ensures |Candidates(n, k)| == k - 1
  {
    if k == 1 {
      assert Candidates(n, k) == {};
    } else {
      CandidatesDiffer(n, k - 1);
      var last := Candidate(n, k - 1);
      assert Candidates(n, k) == Candidates(n, k - 1) + {last};
      forall i | 1 <= i < k - 1
        ensures Candidate(n, i) != last
      {
        CandidatesApart(n, i, k - 1);
      }
    }
  }

  lemma SubsetSize<T>(a: set<T>, b: set<T>)
    requires a <= b
    ensures |a| <= |b|
  {
    assert b == a + (b - a);
  }

  lemma RunOfTaken(n: Handle, taken: set<Handle>, k: nat)
    requires 1 <= k <= TWO32 + 1 && forall i :: 1 <= i < k ==> Candidate(n, i) in taken
    ensures k - 1 <= |taken|
  {
    CandidatesDiffer(n, k);
    SubsetSize(Candidates(n, k), taken);
  }

  /** When all other handles are taken, the one the counter stands at is not. */
  lemma AllTaken(n: Handle, taken: set<Handle>)
    requires |taken| < TWO32 && forall i :: 1 <= i < TWO32 ==> Candidate(n, i) in taken
    ensures Candidate(n, TWO32) !in taken
  {
    if Candidate(n, TWO32) in taken {
      RunOfTaken(n, taken, TWO32 + 1);
    }
  }

  /** The search ends on a free handle, having rejected only taken ones. */
  lemma ProbeFindsFree(n: Handle, taken: set<Handle>, k: nat)
    requires |taken| < TWO32 && k == Probe(n, taken, 1)
    ensures 1 <= k <= |taken| + 1 && Candidate(n, k) !in taken
  {
    ProbeStops(n, taken, 1);
    RunOfTaken(n, taken, k);
    if k == TWO32 {
      AllTaken(n, taken);
    }
  }

  lemma TakenSize(w: World)
    ensures |Taken(w)| <= |w.contexts| + |w.windows| + 1
    ensures 0 !in w.contexts && 0 !in w.windows && w.contexts.Keys !! w.windows.Keys ==>
              |Taken(w)| == |w.contexts| + |w.windows| + 1
  {
    assert |{0} + w.contexts.Keys| <= 1 + |w.contexts.Keys|;
  }

  /**
   * While a handle is free, `genHandle` ends after at most |contexts| + |windows| + 2 candidates, with
   * a handle that is not 0 and neither a context nor a window.
   */
  lemma GenHandleIsFree(w: World)
    requires Room(w)
    ensures GenHandle(w) !in Taken(w)
    ensures 1 <= Probe(w.nextHandle, Taken(w), 1) <= |w.contexts| + |w.windows| + 2
  {
    TakenSize(w);
    ProbeFindsFree(w.nextHandle, Taken(w), Probe(w.nextHandle, Taken(w), 1));
  }

  lemma FreeMeansSmall(taken: set<Handle>, free: Handle)
    requires free !in taken
    ensures |taken| < TWO32
  {
    var all := Candidates(0, TWO32 + 1);
    CandidatesDiffer(0, TWO32 + 1);
    forall x: Handle
      ensures x in all
    {
      assert x == Candidate(0, if x == 0 then TWO32 else x);
    }
    SubsetSize(taken + {free}, all);
  }

  /** For disjoint tables without 0, `Room` says exactly that some handle is free. */
  lemma RoomExactly(w: World)
    requires 0 !in w.contexts && 0 !in w.windows && w.contexts.Keys !! w.windows.Keys
    ensures Room(w) <==> exists h: Handle :: h !in Taken(w)
  {
    TakenSize(w);
    if h: Handle :| h !in Taken(w) {
      FreeMeansSmall(Taken(w), h);
    }
    if Room(w) {
      GenHandleIsFree(w);
    }
  }
}
