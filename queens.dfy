/** Board encoding and the conflict count shared by every variant of the solver.
    A chromosome is a sequence of column numbers: entry i is the column of the
    queen in row i. */
module Queens {
  import opened Rand

  function Abs(x: int): nat
  {
    if x < 0 then -x else x
  }

  /** The queens in rows i and j share a diagonal. */
  predicate OnSameDiagonal(s: seq<int>, i: int, j: int)
    requires 0 <= i < |s| && 0 <= j < |s|
  {
    Abs(s[i] - s[j]) == Abs(i - j)
  }

  /** The queens in rows i and j attack each other: same column or same diagonal. */
  predicate Attacks(s: seq<int>, i: int, j: int)
    requires 0 <= i < |s| && 0 <= j < |s|
  {
    s[i] == s[j] || OnSameDiagonal(s, i, j)
  }

  /** No two queens attack each other. */
  predicate IsSolution(s: seq<int>)
  {
    forall i, j :: 0 <= i < j < |s| ==> !Attacks(s, i, j)
  }

  // ---------------------------------------------------------------------------
  // The conflict count, in the order of the source's nested loops
  // ---------------------------------------------------------------------------

  /** Rows k with i < k < j whose queen attacks the queen in row i. */
  function RowConflicts(s: seq<int>, i: nat, j: int): nat
    requires i < |s| && j <= |s|
    decreases j
  {
    if j <= i + 1 then 0
    else RowConflicts(s, i, j - 1) + (if Attacks(s, i, j - 1) then 1 else 0)
  }

  /** Attacking pairs (p, q) with p < q whose first row p is below i. */
  function ConflictsBefore(s: seq<int>, i: nat): nat
    requires i <= |s|
  {
    if i == 0 then 0 else ConflictsBefore(s, i - 1) + RowConflicts(s, i - 1, |s|)
  }

  /** The fitness of a chromosome: its number of attacking pairs; 0 is a solution. */
  function Fitness(s: seq<int>): nat
  {
    ConflictsBefore(s, |s|)
  }

  // ---------------------------------------------------------------------------
  // An independent reference: the set of attacking pairs
  // ---------------------------------------------------------------------------

  function AttackingPairs(s: seq<int>): set<(int, int)>
  {
    set i, j | 0 <= i < j < |s| && Attacks(s, i, j) :: (i, j)
  }

  function DiagonalPairs(s: seq<int>): set<(int, int)>
  {
    set i, j | 0 <= i < j < |s| && OnSameDiagonal(s, i, j) :: (i, j)
  }

  /** The attacking pairs (i, k) with i < k < j. */
  function RowPairs(s: seq<int>, i: nat, j: int): set<(int, int)>
    requires i < |s| && j <= |s|
  {
    set k | i < k < j && Attacks(s, i, k) :: (i, k)
  }

  /** The attacking pairs (p, q), p < q, whose first row p is below i. */
  function PairsBefore(s: seq<int>, i: nat): set<(int, int)>
    requires i <= |s|
  {
    set p, q | 0 <= p < i && p < q < |s| && Attacks(s, p, q) :: (p, q)
  }

  lemma {:induction false} RowPairsCount(s: seq<int>, i: nat, j: int)
    requires i < |s| && j <= |s|
    ensures |RowPairs(s, i, j)| == RowConflicts(s, i, j)
    decreases j
  {
    if j <= i + 1 {
      assert RowPairs(s, i, j) == {};
    } else {
      RowPairsCount(s, i, j - 1);
      if Attacks(s, i, j - 1) {
        assert RowPairs(s, i, j) == RowPairs(s, i, j - 1) + {(i, j - 1)};
      } else {
        assert RowPairs(s, i, j) == RowPairs(s, i, j - 1);
      }
    }
  }

  lemma {:induction false} PairsBeforeCount(s: seq<int>, i: nat)
    requires i <= |s|
    ensures |PairsBefore(s, i)| == ConflictsBefore(s, i)
  {
    if i == 0 {
      assert PairsBefore(s, 0) == {};
    } else {
      var row := RowPairs(s, i - 1, |s|);
      PairsBeforeCount(s, i - 1);
      RowPairsCount(s, i - 1, |s|);
      assert PairsBefore(s, i) == PairsBefore(s, i - 1) + row;
      assert PairsBefore(s, i - 1) !! row;
    }
  }

  /** The fitness counts exactly the attacking pairs i < j. */
  lemma FitnessCountsAttackingPairs(s: seq<int>)
    ensures Fitness(s) == |AttackingPairs(s)|
  {
    PairsBeforeCount(s, |s|);
    assert AttackingPairs(s) == PairsBefore(s, |s|);
  }

  /** Fitness 0 holds exactly for boards on which no two queens attack each other. */
  lemma FitnessZeroIffSolution(s: seq<int>)
    ensures Fitness(s) == 0 <==> IsSolution(s)
  {
    FitnessCountsAttackingPairs(s);
    if !IsSolution(s) {
      var i, j :| 0 <= i < j < |s| && Attacks(s, i, j);
      assert (i, j) in AttackingPairs(s);
    }
  }

  lemma {:induction false} RowConflictsBound(s: seq<int>, i: nat, j: int)
    requires i < |s| && j <= |s|
    ensures RowConflicts(s, i, j) <= if j <= i + 1 then 0 else j - i - 1
    decreases j
  {
    if j > i + 1 {
      RowConflictsBound(s, i, j - 1);
    }
  }

  /** Pairs with first row below i: i(2n-i-1)/2 of them, one row of n-i at a time. */
  lemma TriangleStep(n: int, i: int)
    ensures i * (2 * n - i - 1) == (i - 1) * (2 * n - (i - 1) - 1) + 2 * (n - i)
  {
  }

  lemma {:induction false} ConflictsBeforeBound(s: seq<int>, i: nat)
    requires i <= |s|
    ensures 2 * ConflictsBefore(s, i) <= i * (2 * |s| - i - 1)
  {
    if i > 0 {
      var n := |s|;
      ConflictsBeforeBound(s, i - 1);
      RowConflictsBound(s, i - 1, n);
      TriangleStep(n, i);
    }
  }

  /** A board of n queens has at most n(n-1)/2 attacking pairs. */
  lemma FitnessBound(s: seq<int>)
    ensures Fitness(s) <= |s| * (|s| - 1) / 2
  {
    ConflictsBeforeBound(s, |s|);
    assert |s| * (2 * |s| - |s| - 1) == |s| * (|s| - 1);
  }

  // ---------------------------------------------------------------------------
  // Permutations
  // ---------------------------------------------------------------------------

  /** The sequence 0, 1, ..., n-1. */
  function Identity(n: nat): (r: seq<int>)
    ensures |r| == n && forall k :: 0 <= k < n ==> r[k] == k
  {
    seq(n, k => k)
  }

  /** s is a rearrangement of 0, 1, ..., n-1: one queen per row and per column. */
  predicate IsPermutation(s: seq<int>, n: nat)
  {
    multiset(s) == multiset(Identity(n))
  }

  lemma {:induction false} IdentityOccurrences(n: nat, v: int)
    ensures multiset(Identity(n))[v] == if 0 <= v < n then 1 else 0
  {
    if n > 0 {
      IdentityOccurrences(n - 1, v);
      assert Identity(n) == Identity(n - 1) + [n - 1];
    }
  }

  /** A permutation of [0, n) has length n, entries in [0, n) and no repeated entry. */
  lemma PermutationShape(s: seq<int>, n: nat)
    requires IsPermutation(s, n)
    ensures |s| == n
    ensures forall k :: 0 <= k < |s| ==> 0 <= s[k] < n
    ensures forall p, q :: 0 <= p < q < |s| ==> s[p] != s[q]
  {
    assert |s| == |multiset(s)| == |multiset(Identity(n))| == n;
    forall k | 0 <= k < |s| ensures 0 <= s[k] < n {
      assert s[k] in multiset(s);
      IdentityOccurrences(n, s[k]);
    }
    forall p, q | 0 <= p < q < |s| ensures s[p] != s[q] {
      if s[p] == s[q] {
        var v := s[p];
        assert s == s[..p] + [s[p]] + s[p + 1..q] + [s[q]] + s[q + 1..];
        assert multiset(s)[v] >= 2;
        IdentityOccurrences(n, v);
      }
    }
  }

  /** On a permutation no two queens share a column, so the fitness counts diagonal pairs only. */
  lemma PermutationFitnessIsDiagonal(s: seq<int>, n: nat)
    requires IsPermutation(s, n)
    ensures AttackingPairs(s) == DiagonalPairs(s)
    ensures Fitness(s) == |DiagonalPairs(s)|
  {
    PermutationShape(s, n);
    FitnessCountsAttackingPairs(s);
  }

  lemma {:induction false} IdentityRowConflicts(n: nat, i: nat, j: int)
    requires i < n && j <= n
    ensures RowConflicts(Identity(n), i, j) == if j <= i + 1 then 0 else j - i - 1
    decreases j
  {
    if j > i + 1 {
      IdentityRowConflicts(n, i, j - 1);
      assert Attacks(Identity(n), i, j - 1);
    }
  }

  lemma {:induction false} IdentityConflictsBefore(n: nat, i: nat)
    requires i <= n
    ensures 2 * ConflictsBefore(Identity(n), i) == i * (2 * n - i - 1)
  {
    if i > 0 {
      IdentityConflictsBefore(n, i - 1);
      IdentityRowConflicts(n, i - 1, n);
      TriangleStep(n, i);
    }
  }

  /** The ascending board puts every pair of queens on one diagonal: the worst score, n(n-1)/2. */
  lemma IdentityFitness(n: nat)
    ensures Fitness(Identity(n)) == n * (n - 1) / 2
  {
    IdentityConflictsBefore(n, n);
    assert n * (2 * n - n - 1) == n * (n - 1);
  }

  // ---------------------------------------------------------------------------
  // The swap move shared by initialisation and mutation
  // ---------------------------------------------------------------------------

  /** Exchange the entries at positions i and j. */
  function Swap<T>(s: seq<T>, i: int, j: int): (r: seq<T>)
    requires 0 <= i < |s| && 0 <= j < |s|
    ensures |r| == |s| && r[i] == s[j] && r[j] == s[i]
    ensures forall k :: 0 <= k < |s| && k != i && k != j ==> r[k] == s[k]
    ensures multiset(r) == multiset(s)
    ensures i == j ==> r == s
  {
    s[i := s[j]][j := s[i]]
  }

  /** The first k steps of the swap shuffle: step i exchanges position i with
      position `rand() % |s|`, the i-th draw after `calls`. */
  function ShufflePrefix(s: seq<int>, rand: Stream, calls: nat, k: nat): (r: seq<int>)
    requires k <= |s|
    ensures |r| == |s| && multiset(r) == multiset(s)
  {
    if k == 0 then s
    else Swap(ShufflePrefix(s, rand, calls, k - 1), k - 1, Draw(rand, calls + k - 1, |s|))
  }

  /** One more step of the shuffle swaps position i with the i-th draw. */
  lemma ShufflePrefixStep(s: seq<int>, rand: Stream, calls: nat, i: nat)
    requires i < |s|
    ensures ShufflePrefix(s, rand, calls, i + 1) == Swap(ShufflePrefix(s, rand, calls, i), i, Draw(rand, calls + i, |s|))
  {
  }
}
