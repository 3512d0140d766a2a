/** The generational solver of olderVersions/nQueenGA.cpp. A `Board` is a
    chromosome held by value (the source copies its vector on every
    construction, return and push_back), and `GeneticAlgorithm` owns the
    population, which each generation replaces wholesale by children bred
    with tournament selection, window crossover and adaptive mutation. */
module CrossoverGA {
  import opened Rand
  import opened Queens
  import SteadyStateV2

  // ---------------------------------------------------------------------------
  // Ordering boards by fitness
  // ---------------------------------------------------------------------------

  /** The sort key: the number of attacking pairs on the board. */
  function Score(b: Board): nat
  {
    Fitness(b.board)
  }

  predicate SortedByFitness(s: seq<Board>)
  {
    forall p, q :: 0 <= p < q < |s| ==> Score(s[p]) <= Score(s[q])
  }

  /** Insert b after every entry that is not strictly worse than it. */
  function Insert(s: seq<Board>, b: Board): (r: seq<Board>)
    ensures |r| == |s| + 1
  {
    if |s| == 0 then [b]
    else if Score(b) < Score(s[0]) then [b] + s
    else [s[0]] + Insert(s[1..], b)
  }

  /** The reference ordering: insertion sort by fitness. */
  function InsertionSort(s: seq<Board>): (r: seq<Board>)
    ensures |r| == |s|
  {
    if |s| == 0 then [] else Insert(InsertionSort(s[..|s| - 1]), s[|s| - 1])
  }

  lemma {:induction false} InsertBounded(s: seq<Board>, b: Board, lo: int)
    requires forall k :: 0 <= k < |s| ==> lo <= Score(s[k])
    requires lo <= Score(b)
    ensures forall k :: 0 <= k < |s| + 1 ==> lo <= Score(Insert(s, b)[k])
  {
    if |s| > 0 && Score(b) >= Score(s[0]) {
      InsertBounded(s[1..], b, lo);
    }
  }

  /** Inserting into an ordered sequence keeps it ordered. */
  lemma {:induction false} InsertKeepsOrder(s: seq<Board>, b: Board)
    requires SortedByFitness(s)
    ensures SortedByFitness(Insert(s, b))
  {
    if |s| > 0 && Score(b) >= Score(s[0]) {
      var rest := s[1..];
      InsertKeepsOrder(rest, b);
      InsertBounded(rest, b, Score(s[0]));
      var r := Insert(rest, b);
      assert Insert(s, b) == [s[0]] + r;
      forall p, q | 0 <= p < q < |r| + 1
        ensures Score(([s[0]] + r)[p]) <= Score(([s[0]] + r)[q])
      {
        assert ([s[0]] + r)[q] == r[q - 1];
        if p > 0 {
          assert ([s[0]] + r)[p] == r[p - 1];
        }
      }
    }
  }

  /** Inserting adds exactly the one board. */
  lemma {:induction false} InsertAddsOne(s: seq<Board>, b: Board)
    ensures multiset(Insert(s, b)) == multiset(s) + multiset{b}
  {
    if |s| > 0 && Score(b) >= Score(s[0]) {
      InsertAddsOne(s[1..], b);
      assert s == [s[0]] + s[1..];
    }
  }

  lemma {:induction false} InsertionSortOrders(s: seq<Board>)
    ensures SortedByFitness(InsertionSort(s))
  {
    if |s| > 0 {
      InsertionSortOrders(s[..|s| - 1]);
      InsertKeepsOrder(InsertionSort(s[..|s| - 1]), s[|s| - 1]);
    }
  }

  lemma {:induction false} InsertionSortPermutes(s: seq<Board>)
    ensures multiset(InsertionSort(s)) == multiset(s)
  {
    if |s| > 0 {
      var init, last := s[..|s| - 1], s[|s| - 1];
      InsertionSortPermutes(init);
      InsertAddsOne(InsertionSort(init), last);
      assert InsertionSort(s) == Insert(InsertionSort(init), last);
      assert s == init + [last];
      assert multiset(s) == multiset(init) + multiset{last};
    }
  }

  /** Sorting yields a fitness-ordered rearrangement of the same boards. */
  lemma InsertionSortSorts(s: seq<Board>)
    ensures SortedByFitness(InsertionSort(s))
    ensures multiset(InsertionSort(s)) == multiset(s)
  {
    InsertionSortOrders(s);
    InsertionSortPermutes(s);
  }

  /** The front of a fitness-ordered rearrangement is one of the boards, and none is fitter. */
  lemma FrontIsFittest(s: seq<Board>)
    requires |s| > 0
    ensures InsertionSort(s)[0] in s
    ensures forall b :: b in s ==> Score(InsertionSort(s)[0]) <= Score(b)
  {
    var r := InsertionSort(s);
    InsertionSortSorts(s);
    assert r[0] in multiset(r);
    forall b | b in s ensures Score(r[0]) <= Score(b) {
      assert b in multiset(s);
      var q :| 0 <= q < |r| && r[q] == b;
    }
  }

  lemma {:induction false} InsertAt(s: seq<Board>, b: Board, k: nat)
    requires k <= |s|
    requires forall q :: 0 <= q < k ==> Score(s[q]) <= Score(b)
    requires k == |s| || Score(b) < Score(s[k])
    ensures Insert(s, b) == s[..k] + [b] + s[k..]
  {
    if k > 0 {
      InsertAt(s[1..], b, k - 1);
      assert s[1..][..k - 1] == s[1..k];
      assert s[..k] == [s[0]] + s[1..k];
      assert s[1..][k - 1..] == s[k..];
      assert Insert(s, b) == [s[0]] + Insert(s[1..], b);
    } else {
      assert s[..0] == [] && s[0..] == s;
    }
  }

  /** Insert b into the ordered prefix, after the boards that are not worse. */
  method InsertByFitness(sorted: seq<Board>, b: Board) returns (r: seq<Board>)
    ensures r == Insert(sorted, b)
  {
    var k := 0;
    while k < |sorted| && Score(sorted[k]) <= Score(b)
      invariant 0 <= k <= |sorted|
      invariant forall q :: 0 <= q < k ==> Score(sorted[q]) <= Score(b)
    {
      k := k + 1;
    }
    InsertAt(sorted, b, k);
    r := sorted[..k] + [b] + sorted[k..];
  }

  /** Order the boards by fitness (the comparator `a.Fitness() < b.Fitness()`). */
  method SortByFitness(boards: seq<Board>) returns (sorted: seq<Board>)
    ensures sorted == InsertionSort(boards)
    ensures SortedByFitness(sorted) && multiset(sorted) == multiset(boards)
  {
    sorted := [];
    for i := 0 to |boards|
      invariant sorted == InsertionSort(boards[..i])
    {
      assert boards[..i + 1][..i] == boards[..i];
      sorted := InsertByFitness(sorted, boards[i]);
    }
    assert boards[..|boards|] == boards;
    InsertionSortSorts(boards);
  }

  // ---------------------------------------------------------------------------
  // Specifications of the random operators
  // ---------------------------------------------------------------------------

  /** The t boards drawn for a tournament, each `population[rand() % |population|]`. */
  function Drawn(population: seq<Board>, rand: Stream, calls: nat, t: nat): (d: seq<Board>)
    requires |population| > 0
    ensures |d| == t
  {
    seq(t, k requires 0 <= k < t => population[Draw(rand, calls + k, |population|)])
  }

  lemma DrawnShaped(population: seq<Board>, rand: Stream, calls: nat, t: nat, n: nat)
    requires |population| > 0 && BoardsSized(population, n)
    ensures BoardsSized(Drawn(population, rand, calls, t), n)
  {
    var d := Drawn(population, rand, calls, t);
    forall k | 0 <= k < t ensures |d[k].board| == n {
      assert d[k] == population[Draw(rand, calls + k, |population|)];
    }
  }

  /** The window child: entries start..end (inclusive) from `inside`, the rest from `outside`. */
  function Crossover(inside: seq<int>, outside: seq<int>, start: int, end: int, n: nat): (c: seq<int>)
    requires n <= |inside| && n <= |outside|
    ensures |c| == n
    ensures forall k :: 0 <= k < n ==> c[k] == (if start <= k <= end then inside[k] else outside[k])
  {
    seq(n, k requires 0 <= k < n => if start <= k <= end then inside[k] else outside[k])
  }

  /** The stream position after adaptive mutation has visited positions
      0 .. k-1: one draw per position, and a second one at each position where
      the mutation fires. */
  function MutationCalls(mutationRate: int, rand: Stream, calls: nat, k: nat): (c: nat)
    ensures calls + k <= c <= calls + k + k
    decreases k, 0
  {
    if k == 0 then calls
    else if Fires(mutationRate, rand, calls, k - 1) then MutationCalls(mutationRate, rand, calls, k - 1) + 2
    else MutationCalls(mutationRate, rand, calls, k - 1) + 1
  }

  /** Position i mutates: its first draw `rand() % 100` falls below the rate. */
  predicate Fires(mutationRate: int, rand: Stream, calls: nat, i: nat)
    decreases i, 1
  {
    Draw(rand, MutationCalls(mutationRate, rand, calls, i), 100) < mutationRate
  }

  /** The position that position i is swapped with when it mutates. */
  function Target(mutationRate: int, rand: Stream, calls: nat, i: nat, n: nat): (j: int)
    requires n > 0
    ensures 0 <= j < n
  {
    Draw(rand, MutationCalls(mutationRate, rand, calls, i) + 1, n)
  }

  /** The board after adaptive mutation has visited positions 0 .. k-1. */
  function Mutate(board: seq<int>, mutationRate: int, rand: Stream, calls: nat, k: nat): (m: seq<int>)
    requires k <= |board|
    ensures |m| == |board|
  {
    if k == 0 then board
    else if Fires(mutationRate, rand, calls, k - 1)
    then Swap(Mutate(board, mutationRate, rand, calls, k - 1), k - 1, Target(mutationRate, rand, calls, k - 1, |board|))
    else Mutate(board, mutationRate, rand, calls, k - 1)
  }

  /** Position i fires when the draw at the stream position `c` it starts from
      is below the rate: it is swapped with the draw at `c + 1`, two draws spent. */
  lemma MutateFires(board: seq<int>, mutationRate: int, rand: Stream, calls: nat, i: nat, c: nat)
    requires i < |board| && c == MutationCalls(mutationRate, rand, calls, i)
    requires Draw(rand, c, 100) < mutationRate
    ensures Mutate(board, mutationRate, rand, calls, i + 1) ==
                Swap(Mutate(board, mutationRate, rand, calls, i), i, Draw(rand, c + 1, |board|))
    ensures MutationCalls(mutationRate, rand, calls, i + 1) == c + 2
  {
    assert Fires(mutationRate, rand, calls, i);
    assert Target(mutationRate, rand, calls, i, |board|) == Draw(rand, c + 1, |board|);
  }
  /** Otherwise position i keeps its queen and one draw is spent. */
  lemma MutateRests(board: seq<int>, mutationRate: int, rand: Stream, calls: nat, i: nat, c: nat)
    requires i < |board| && c == MutationCalls(mutationRate, rand, calls, i)
    requires Draw(rand, c, 100) >= mutationRate
    ensures Mutate(board, mutationRate, rand, calls, i + 1) == Mutate(board, mutationRate, rand, calls, i)
    ensures MutationCalls(mutationRate, rand, calls, i + 1) == c + 1
  {
    assert !Fires(mutationRate, rand, calls, i);
  }

  /** Mutation only exchanges entries: the board keeps its multiset of columns. */
  lemma {:induction false} MutateKeepsEntries(board: seq<int>, mutationRate: int, rand: Stream, calls: nat, k: nat)
    requires k <= |board|
    ensures multiset(Mutate(board, mutationRate, rand, calls, k)) == multiset(board)
  {
    if k > 0 {
      MutateKeepsEntries(board, mutationRate, rand, calls, k - 1);
    }
  }

  /** A rate of zero or less never fires, since `rand() % 100` is never negative:
      the board is unchanged and one draw is spent per position. */
  lemma {:induction false} NonPositiveRateKeepsBoard(board: seq<int>, mutationRate: int, rand: Stream, calls: nat, k: nat)
    requires k <= |board| && mutationRate <= 0
    ensures Mutate(board, mutationRate, rand, calls, k) == board
    ensures MutationCalls(mutationRate, rand, calls, k) == calls + k
  {
    if k > 0 {
      NonPositiveRateKeepsBoard(board, mutationRate, rand, calls, k - 1);
    }
  }

  /** A rate of 100 or more fires at every position: two draws per position. */
  lemma {:induction false} FullRateDrawsTwice(mutationRate: int, rand: Stream, calls: nat, k: nat)
    requires mutationRate >= 100
    ensures MutationCalls(mutationRate, rand, calls, k) == calls + k + k
  {
    if k > 0 {
      FullRateDrawsTwice(mutationRate, rand, calls, k - 1);
    }
  }

  /** Mutation never turns a permutation into a non-permutation. */
  lemma MutationKeepsPermutation(board: seq<int>, n: nat, mutationRate: int, rand: Stream, calls: nat)
    requires IsPermutation(board, n)
    ensures IsPermutation(Mutate(board, mutationRate, rand, calls, |board|), n)
  {
    MutateKeepsEntries(board, mutationRate, rand, calls, |board|);
  }

  /** The window child of two permutations need not be one: [0,1] crossed with
      [1,0] on the window 0..0 gives [0,0], two queens in column 0. */
  lemma CrossoverMayBreakPermutation()
    ensures IsPermutation([0, 1], 2) && IsPermutation([1, 0], 2)
    ensures Crossover([0, 1], [1, 0], 0, 0, 2) == [0, 0]
    ensures !IsPermutation(Crossover([0, 1], [1, 0], 0, 0, 2), 2)
  {
    assert Identity(2) == [0, 1];
    assert [1, 0] == [1] + [0];
    assert multiset([1, 0]) == multiset([0, 1]);
    var c := Crossover([0, 1], [1, 0], 0, 0, 2);
    assert c == [0, 0];
    assert multiset(c)[1] == 0;
    assert multiset(Identity(2))[1] == 1;
  }

  /** Crossing a board with itself returns it, whatever the window. */
  lemma CrossoverWithSelf(board: seq<int>, start: int, end: int)
    ensures Crossover(board, board, start, end, |board|) == board
  {
  }

  /** Swap each position i of the vector with position `rand() % |board|`. */
  method SwapPass(board: seq<int>, rand: Stream, calls: nat) returns (shuffled: seq<int>, calls': nat)
    ensures shuffled == ShufflePrefix(board, rand, calls, |board|)
    ensures calls' == calls + |board|
  {
    var size := |board|;
    shuffled := board;
    calls' := calls;
    for i := 0 to size
      invariant |shuffled| == size
      invariant calls' == calls + i
      invariant shuffled == ShufflePrefix(board, rand, calls, i)
    {
      var j := Draw(rand, calls', size);
      calls' := calls' + 1;
      var temp := shuffled[i];
      shuffled := shuffled[i := shuffled[j]];
      shuffled := shuffled[j := temp];
      ShufflePrefixStep(board, rand, calls, i);
    }
  }

  /** One iteration of adaptive mutation: position i draws against the rate
      and, when it fires, is swapped with a drawn position. */
  method VisitPosition(board: seq<int>, current: seq<int>, i: nat, mutationRate: int, rand: Stream,
                       ghost calls: nat, callsNow: nat) returns (next: seq<int>, calls': nat)
    requires i < |board|
    requires current == Mutate(board, mutationRate, rand, calls, i)
    requires callsNow == MutationCalls(mutationRate, rand, calls, i)
    ensures next == Mutate(board, mutationRate, rand, calls, i + 1)
    ensures calls' == MutationCalls(mutationRate, rand, calls, i + 1)
  {
    if Draw(rand, callsNow, 100) < mutationRate {
      MutateFires(board, mutationRate, rand, calls, i, callsNow);
      var j := Draw(rand, callsNow + 1, |current|);
      calls' := callsNow + 2;
      var temp := current[i];
      next := current[i := current[j]];
      next := next[j := temp];
    } else {
      MutateRests(board, mutationRate, rand, calls, i, callsNow);
      next := current;
      calls' := callsNow + 1;
    }
  }

  // ---------------------------------------------------------------------------
  // Board
  // ---------------------------------------------------------------------------

  /** A chromosome: entry i is the column of the queen in row i. Its fitness
      is the conflict count of SteadyStateV2.CalculateFitness, the same loop. */
  datatype Board = Board(board: seq<int>)
  {
    /** A permutation of 0..size-1 by one swap pass over the identity. */
    static method RandomChromosome(size: nat, rand: Stream, calls: nat) returns (b: Board, calls': nat)
      ensures b.board == ShufflePrefix(Identity(size), rand, calls, size)
      ensures IsPermutation(b.board, size)
      ensures calls' == calls + size
    {
      var board: seq<int> := [];
      for i := 0 to size
        invariant board == Identity(i)
      {
        assert Identity(i + 1) == Identity(i) + [i];
        board := board + [i];
      }
      board, calls' := SwapPass(board, rand, calls);
      b := Board(board);
    }

    /** Draw `tournamentSize` members, order them by fitness and return the front. */
    static method TournamentSelection(population: seq<Board>, tournamentSize: nat, rand: Stream, calls: nat)
      returns (winner: Board, calls': nat)
      requires |population| > 0 && tournamentSize > 0
      ensures winner == Winner(population, rand, calls, tournamentSize)
      ensures winner in Drawn(population, rand, calls, tournamentSize)
      ensures forall b :: b in Drawn(population, rand, calls, tournamentSize) ==> Score(winner) <= Score(b)
      ensures calls' == calls + tournamentSize
    {
      var tournament: seq<Board> := [];
      for i := 0 to tournamentSize
        invariant tournament == Drawn(population, rand, calls, i)
      {
        tournament := tournament + [population[Draw(rand, calls + i, |population|)]];
      }
      var sorted := SortByFitness(tournament);
      winner := sorted[0];
      calls' := calls + tournamentSize;
      FrontIsFittest(tournament);
    }

    /** The child taking the window between the two draws from this board and
        the rest from `other`. */
    method MultiPointCrossover(other: Board, n: int, i: int, j: int) returns (child: Board)
      requires 0 <= i < n && 0 <= j < n && n <= |board| && n <= |other.board|
      ensures child.board == Crossover(board, other.board, Min(i, j), Max(i, j), n)
      ensures forall k :: 0 <= k < n ==> child.board[k] == board[k] || child.board[k] == other.board[k]
    {
      var start := Min(i, j);
      var end := Max(i, j);
      var newBoard: seq<int> := [];
      for k := 0 to n
        invariant newBoard == Crossover(board, other.board, start, end, k)
      {
        if k >= start && k <= end {
          newBoard := newBoard + [board[k]];
        } else {
          newBoard := newBoard + [other.board[k]];
        }
      }
      child := Board(newBoard);
    }

    /** Visit every position; with a draw below the rate, swap it with a drawn position. */
    method AdaptiveMutation(mutationRate: int, rand: Stream, calls: nat) returns (mutated: Board, calls': nat)
      ensures mutated.board == Mutate(board, mutationRate, rand, calls, |board|)
      ensures calls' == MutationCalls(mutationRate, rand, calls, |board|)
      ensures |mutated.board| == |board| && multiset(mutated.board) == multiset(board)
    {
      var current := board;
      calls' := calls;
      for i := 0 to |board|
        invariant current == Mutate(board, mutationRate, rand, calls, i)
        invariant calls' == MutationCalls(mutationRate, rand, calls, i)
      {
        current, calls' := VisitPosition(board, current, i, mutationRate, rand, calls, calls');
      }
      mutated := Board(current);
      MutateKeepsEntries(board, mutationRate, rand, calls, |board|);
    }
  }

  // ---------------------------------------------------------------------------
  // Breeding a generation
  // ---------------------------------------------------------------------------

  /** Boards bred so far and the stream position after them. */
  datatype Bred = Bred(boards: seq<Board>, calls: nat)

  /** Every board has n entries. */
  predicate BoardsSized(boards: seq<Board>, n: nat)
  {
    forall k :: 0 <= k < |boards| ==> |boards[k].board| == n
  }

  lemma RearrangedStaysShaped(a: seq<Board>, b: seq<Board>, n: nat)
    requires BoardsSized(a, n) && multiset(a) == multiset(b)
    ensures BoardsSized(b, n) && |b| == |a|
  {
    assert |b| == |multiset(b)| == |multiset(a)| == |a|;
    forall k | 0 <= k < |b| ensures |b[k].board| == n {
      assert b[k] in multiset(a);
      var q :| 0 <= q < |a| && a[q] == b[k];
    }
  }

  /** The tournament winner: the front of the drawn boards ordered by fitness. */
  function Winner(population: seq<Board>, rand: Stream, calls: nat, t: nat): Board
    requires |population| > 0 && t > 0
  {
    InsertionSort(Drawn(population, rand, calls, t))[0]
  }

  /** The winner is one of the drawn boards, none of them is fitter, and it has
      the shape every population member has. */
  lemma WinnerIsFittestDrawn(population: seq<Board>, rand: Stream, calls: nat, t: nat, n: nat)
    requires |population| > 0 && t > 0 && BoardsSized(population, n)
    ensures Winner(population, rand, calls, t) in Drawn(population, rand, calls, t)
    ensures forall b :: b in Drawn(population, rand, calls, t) ==> Score(Winner(population, rand, calls, t)) <= Score(b)
    ensures |Winner(population, rand, calls, t).board| == n
  {
    var d := Drawn(population, rand, calls, t);
    FrontIsFittest(d);
    DrawnShaped(population, rand, calls, t, n);
  }

  /** The window crossover of two winners on the draws at `calls` and `calls + 1`. */
  function Crossed(parent1: Board, parent2: Board, n: nat, rand: Stream, calls: nat): (c: seq<int>)
    requires n > 0 && |parent1.board| == n && |parent2.board| == n
    ensures |c| == n
  {
    Crossover(parent1.board, parent2.board,
              Min(Draw(rand, calls, n), Draw(rand, calls + 1, n)),
              Max(Draw(rand, calls, n), Draw(rand, calls + 1, n)), n)
  }

  /** The child of two winners: their window crossover, then adaptive mutation
      from `calls + 2` on. */
  function Child(parent1: Board, parent2: Board, n: nat, mutationRate: int, rand: Stream, calls: nat): (c: Bred)
    requires n > 0 && |parent1.board| == n && |parent2.board| == n
    ensures |c.boards| == 1 && |c.boards[0].board| == n
  {
    Bred([Board(Mutate(Crossed(parent1, parent2, n, rand, calls), mutationRate, rand, calls + 2, n))],
         MutationCalls(mutationRate, rand, calls + 2, n))
  }

  /** Mutation only rearranges the crossover: the child holds the same columns
      as the window crossover of its parents. */
  lemma ChildRearrangesCrossover(parent1: Board, parent2: Board, n: nat, mutationRate: int, rand: Stream, calls: nat)
    requires n > 0 && |parent1.board| == n && |parent2.board| == n
    ensures multiset(Child(parent1, parent2, n, mutationRate, rand, calls).boards[0].board) ==
            multiset(Crossed(parent1, parent2, n, rand, calls))
  {
    MutateKeepsEntries(Crossed(parent1, parent2, n, rand, calls), mutationRate, rand, calls + 2, n);
  }

  function Min(i: int, j: int): int { if i < j then i else j }
  function Max(i: int, j: int): int { if i < j then j else i }

  /** One child of the generation: two tournaments of t draws each, then `Child`. */
  function BreedOne(parents: seq<Board>, t: nat, n: nat, mutationRate: int, rand: Stream, calls: nat): (c: Bred)
    requires |parents| > 0 && t > 0 && n > 0 && BoardsSized(parents, n)
    ensures |c.boards| == 1 && |c.boards[0].board| == n
  {
    WinnerIsFittestDrawn(parents, rand, calls, t, n);
    WinnerIsFittestDrawn(parents, rand, calls + t, t, n);
    Child(Winner(parents, rand, calls, t), Winner(parents, rand, calls + t, t), n, mutationRate, rand, calls + 2 * t)
  }

  /** A child of the generation is the `Child` of the two tournament winners,
      each of which has n entries. */
  lemma BreedOneIsChild(parents: seq<Board>, t: nat, n: nat, mutationRate: int, rand: Stream, calls: nat)
    requires |parents| > 0 && t > 0 && n > 0 && BoardsSized(parents, n)
    ensures |Winner(parents, rand, calls, t).board| == n && |Winner(parents, rand, calls + t, t).board| == n
    ensures BreedOne(parents, t, n, mutationRate, rand, calls) ==
            Child(Winner(parents, rand, calls, t), Winner(parents, rand, calls + t, t), n, mutationRate, rand, calls + 2 * t)
  {
    WinnerIsFittestDrawn(parents, rand, calls, t, n);
    WinnerIsFittestDrawn(parents, rand, calls + t, t, n);
  }

  /** The first `count` children of a generation. */
  function Offspring(parents: seq<Board>, count: nat, t: nat, n: nat, mutationRate: int, rand: Stream, calls: nat)
    : (r: Bred)
    requires |parents| > 0 && t > 0 && n > 0 && BoardsSized(parents, n)
    ensures |r.boards| == count && BoardsSized(r.boards, n)
  {
    if count == 0 then Bred([], calls)
    else
      Bred(Offspring(parents, count - 1, t, n, mutationRate, rand, calls).boards +
           BreedOne(parents, t, n, mutationRate, rand, Offspring(parents, count - 1, t, n, mutationRate, rand, calls).calls).boards,
           BreedOne(parents, t, n, mutationRate, rand, Offspring(parents, count - 1, t, n, mutationRate, rand, calls).calls).calls)
  }

  /** One more child extends the generation with `BreedOne` from where the
      previous children left the stream. */
  lemma OffspringStep(parents: seq<Board>, count: nat, t: nat, n: nat, mutationRate: int, rand: Stream, calls: nat,
                      before: Bred, child: Board, calls': nat)
    requires |parents| > 0 && t > 0 && n > 0 && BoardsSized(parents, n)
    requires before == Offspring(parents, count, t, n, mutationRate, rand, calls)
    requires Bred([child], calls') == BreedOne(parents, t, n, mutationRate, rand, before.calls)
    ensures Bred(before.boards + [child], calls') == Offspring(parents, count + 1, t, n, mutationRate, rand, calls)
  {
  }

  /** With a rate of zero or less, a child is exactly the window crossover of its
      two parents and costs only one draw per position after the window draws. */
  lemma NonPositiveRateChildIsCrossover(parent1: Board, parent2: Board, n: nat, mutationRate: int,
                                        rand: Stream, calls: nat)
    requires n > 0 && |parent1.board| == n && |parent2.board| == n && mutationRate <= 0
    ensures Child(parent1, parent2, n, mutationRate, rand, calls) ==
            Bred([Board(Crossed(parent1, parent2, n, rand, calls))], calls + 2 + n)
  {
    NonPositiveRateKeepsBoard(Crossed(parent1, parent2, n, rand, calls), mutationRate, rand, calls + 2, n);
  }

  /** Cross two winners on two fresh draws and mutate the result. */
  method CrossAndMutate(parent1: Board, parent2: Board, n: nat, mutationRate: int, rand: Stream, calls: nat)
    returns (child: Board, calls': nat)
    requires n > 0 && |parent1.board| == n && |parent2.board| == n
    ensures Bred([child], calls') == Child(parent1, parent2, n, mutationRate, rand, calls)
  {
    var i, j := Draw(rand, calls, n), Draw(rand, calls + 1, n);
    child := parent1.MultiPointCrossover(parent2, n, i, j);
    assert child.board == Crossed(parent1, parent2, n, rand, calls);
    child, calls' := child.AdaptiveMutation(mutationRate, rand, calls + 2);
  }

  /** Breed one child: two tournaments, crossover of the winners, mutation. */
  method MakeChild(parents: seq<Board>, t: nat, n: nat, mutationRate: int, rand: Stream, calls: nat)
    returns (child: Board, calls': nat)
    requires |parents| > 0 && t > 0 && n > 0 && BoardsSized(parents, n)
    ensures Bred([child], calls') == BreedOne(parents, t, n, mutationRate, rand, calls)
  {
    var parent1, parent2;
    parent1, calls' := Board.TournamentSelection(parents, t, rand, calls);
    parent2, calls' := Board.TournamentSelection(parents, t, rand, calls');
    BreedOneIsChild(parents, t, n, mutationRate, rand, calls);
    child, calls' := CrossAndMutate(parent1, parent2, n, mutationRate, rand, calls');
  }

  // ---------------------------------------------------------------------------
  // Runs of generations
  // ---------------------------------------------------------------------------

  /** The stream position after `count` chromosomes of `size` draws each. */
  function SeedCalls(calls: nat, count: nat, size: nat): nat
  {
    if count == 0 then calls else SeedCalls(calls, count - 1, size) + size
  }

  /** Seeding takes exactly `size` draws per chromosome. */
  lemma {:induction false} SeedCallsIsProduct(calls: nat, count: nat, size: nat)
    ensures SeedCalls(calls, count, size) == calls + count * size
  {
    if count > 0 {
      SeedCallsIsProduct(calls, count - 1, size);
      assert count * size == (count - 1) * size + size;
    }
  }

  /** The `count` chromosomes that successive calls of RandomChromosome make,
      the first drawing from `calls` on. */
  function RandomBoards(size: nat, count: nat, rand: Stream, calls: nat): (r: seq<Board>)
    ensures |r| == count && BoardsSized(r, size)
  {
    if count == 0 then []
    else RandomBoards(size, count - 1, rand, calls) +
         [Board(ShufflePrefix(Identity(size), rand, SeedCalls(calls, count - 1, size), size))]
  }

  /** One more chromosome, drawn from where the previous ones left the stream,
      extends the seeded boards. */
  lemma SeedStep(boards: seq<Board>, size: nat, count: nat, rand: Stream, calls: nat, b: Board)
    requires b.board == ShufflePrefix(Identity(size), rand, SeedCalls(calls, count, size), size)
    ensures boards + RandomBoards(size, count + 1, rand, calls) == boards + RandomBoards(size, count, rand, calls) + [b]
  {
    assert RandomBoards(size, count + 1, rand, calls) == RandomBoards(size, count, rand, calls) + [b];
  }

  /** The population `boards` with `count` random chromosomes appended, and
      the stream position after their draws. */
  function Seeded(boards: seq<Board>, size: nat, count: nat, rand: Stream, calls: nat): (g: Bred)
    ensures |g.boards| == |boards| + count
    ensures BoardsSized(boards, size) ==> BoardsSized(g.boards, size)
  {
    Bred(boards + RandomBoards(size, count, rand, calls), SeedCalls(calls, count, size))
  }

  /** The board a sort by fitness puts in front. */
  function Front(boards: seq<Board>): (b: Board)
    requires |boards| > 0
    ensures b in boards && forall c :: c in boards ==> Score(b) <= Score(c)
  {
    FrontIsFittest(boards);
    InsertionSort(boards)[0]
  }

  /** One generation: order the boards by fitness, then breed `populationSize`
      children from the ordered boards. */
  function NextPopulation(g: Bred, populationSize: nat, t: nat, n: nat, mutationRate: int, rand: Stream): (r: Bred)
    requires |g.boards| > 0 && t > 0 && n > 0 && BoardsSized(g.boards, n)
    ensures |r.boards| == populationSize && BoardsSized(r.boards, n)
  {
    InsertionSortSorts(g.boards);
    RearrangedStaysShaped(g.boards, InsertionSort(g.boards), n);
    Offspring(InsertionSort(g.boards), populationSize, t, n, mutationRate, rand, g.calls)
  }

  /** The population and stream position after k generations from g. */
  function Evolved(g: Bred, k: nat, populationSize: nat, t: nat, n: nat, mutationRate: int, rand: Stream): (r: Bred)
    requires |g.boards| > 0 && populationSize > 0 && t > 0 && n > 0 && BoardsSized(g.boards, n)
    ensures |r.boards| > 0 && BoardsSized(r.boards, n)
  {
    if k == 0 then g
    else NextPopulation(Evolved(g, k - 1, populationSize, t, n, mutationRate, rand), populationSize, t, n, mutationRate, rand)
  }

  /** None of the first k generations from g has a solution in front. */
  predicate UnsolvedBefore(g: Bred, k: nat, populationSize: nat, t: nat, n: nat, mutationRate: int, rand: Stream)
    requires |g.boards| > 0 && populationSize > 0 && t > 0 && n > 0 && BoardsSized(g.boards, n)
  {
    forall j :: 0 <= j < k ==> Score(Front(Evolved(g, j, populationSize, t, n, mutationRate, rand).boards)) != 0
  }

  /** What `k` rounds from g leave behind when at most `generations` may run:
      no front before had fitness 0, the stream has advanced past k
      generations, and either the rounds stopped early on a sorted population
      with a solution in front, or the last generation bred is the population. */
  predicate RunOutcome(g: Bred, k: nat, generations: int, population: seq<Board>, calls: nat,
                       populationSize: nat, t: nat, n: nat, mutationRate: int, rand: Stream)
    requires |g.boards| > 0 && populationSize > 0 && t > 0 && n > 0 && BoardsSized(g.boards, n)
  {
    && UnsolvedBefore(g, k, populationSize, t, n, mutationRate, rand)
    && calls == Evolved(g, k, populationSize, t, n, mutationRate, rand).calls
    && (k < generations ==>
          population == InsertionSort(Evolved(g, k, populationSize, t, n, mutationRate, rand).boards) &&
          IsSolution(population[0].board))
    && (k >= generations ==> population == Evolved(g, k, populationSize, t, n, mutationRate, rand).boards)
  }

  lemma UnsolvedBeforeStep(g: Bred, k: nat, populationSize: nat, t: nat, n: nat, mutationRate: int, rand: Stream)
    requires |g.boards| > 0 && populationSize > 0 && t > 0 && n > 0 && BoardsSized(g.boards, n)
    requires UnsolvedBefore(g, k, populationSize, t, n, mutationRate, rand)
    requires Score(Front(Evolved(g, k, populationSize, t, n, mutationRate, rand).boards)) != 0
    ensures UnsolvedBefore(g, k + 1, populationSize, t, n, mutationRate, rand)
  {
  }

  // ---------------------------------------------------------------------------
  // GeneticAlgorithm
  // ---------------------------------------------------------------------------

  class GeneticAlgorithm {
    const size: nat
    const populationSize: nat
    const tournamentSize: nat
    const mutationRate: int
    const generations: int
    var genCount: int
    var population: seq<Board>

    constructor(size: nat, populationSize: nat, tournamentSize: nat, mutationRate: int, generations: int)
      ensures this.size == size && this.populationSize == populationSize
      ensures this.tournamentSize == tournamentSize && this.mutationRate == mutationRate
      ensures this.generations == generations
      ensures genCount == 0 && population == []
    {
      this.size := size;
      this.populationSize := populationSize;
      this.tournamentSize := tournamentSize;
      this.mutationRate := mutationRate;
      this.generations := generations;
      genCount := 0;
      population := [];
    }

    /** Breed `populationSize` children from `parents` and make them the population. */
    method GenerateOffspring(parents: seq<Board>, rand: Stream, calls: nat) returns (calls': nat)
      requires |parents| > 0 && tournamentSize > 0 && size > 0 && BoardsSized(parents, size)
      modifies this
      ensures Bred(population, calls') ==
              Offspring(parents, populationSize, tournamentSize, size, mutationRate, rand, calls)
      ensures |population| == populationSize && BoardsSized(population, size)
      ensures genCount == old(genCount)
    {
      var offspring: seq<Board> := [];
      calls' := calls;
      while |offspring| < populationSize
        invariant |offspring| <= populationSize
        invariant genCount == old(genCount)
        invariant Bred(offspring, calls') ==
                  Offspring(parents, |offspring|, tournamentSize, size, mutationRate, rand, calls)
        decreases populationSize - |offspring|
      {
        var child;
        ghost var before := Bred(offspring, calls');
        child, calls' := MakeChild(parents, tournamentSize, size, mutationRate, rand, calls');
        OffspringStep(parents, |offspring|, tournamentSize, size, mutationRate, rand, calls, before, child, calls');
        offspring := offspring + [child];
      }
      population := offspring;
    }

    /** Reorder the population by fitness, best first. */
    method EvaluateFitness()
      modifies this
      ensures population == InsertionSort(old(population))
      ensures SortedByFitness(population) && multiset(population) == multiset(old(population))
      ensures genCount == old(genCount)
    {
      population := SortByFitness(population);
    }

    /** Append `populationSize` random permutations to the population. */
    method Seed(rand: Stream, calls: nat) returns (calls': nat)
      modifies this
      ensures Bred(population, calls') == Seeded(old(population), size, populationSize, rand, calls)
      ensures genCount == old(genCount)
    {
      calls' := calls;
      var boards := population;
      for i := 0 to populationSize
        invariant boards == old(population) + RandomBoards(size, i, rand, calls)
        invariant calls' == SeedCalls(calls, i, size)
        invariant genCount == old(genCount)
      {
        var b;
        b, calls' := Board.RandomChromosome(size, rand, calls');
        SeedStep(old(population), size, i, rand, calls, b);
        boards := boards + [b];
      }
      population := boards;
    }

    /** One round after k generations from `start`: sort, then report a front
        of fitness 0, or else breed the next generation. */
    method Turn(rand: Stream, calls: nat, ghost start: Bred, ghost k: nat) returns (found: bool, calls': nat)
      requires populationSize > 0 && tournamentSize > 0 && size > 0
      requires |start.boards| > 0 && BoardsSized(start.boards, size)
      requires Bred(population, calls) == Evolved(start, k, populationSize, tournamentSize, size, mutationRate, rand)
      requires UnsolvedBefore(start, k, populationSize, tournamentSize, size, mutationRate, rand)
      modifies this
      ensures genCount == old(genCount)
      ensures found ==> calls' == calls && |population| > 0 && SortedByFitness(population) && IsSolution(population[0].board)
      ensures found ==> population == InsertionSort(Evolved(start, k, populationSize, tournamentSize, size, mutationRate, rand).boards)
      ensures !found ==> Bred(population, calls') == Evolved(start, k + 1, populationSize, tournamentSize, size, mutationRate, rand)
      ensures !found ==> UnsolvedBefore(start, k + 1, populationSize, tournamentSize, size, mutationRate, rand)
    {
      ghost var before := population;
      EvaluateFitness();
      RearrangedStaysShaped(before, population, size);
      var fitness := SteadyStateV2.CalculateFitness(population[0].board);
      calls' := calls;
      found := fitness == 0;
      if found {
        FitnessZeroIffSolution(population[0].board);
      } else {
        UnsolvedBeforeStep(start, k, populationSize, tournamentSize, size, mutationRate, rand);
        calls' := GenerateOffspring(population, rand, calls);
      }
    }

    /** Sort and breed from `start` until the front board has fitness 0 or
        `generations` rounds have run; `rounds` counts the rounds bred. */
    method Run(rand: Stream, calls: nat, ghost start: Bred) returns (rounds: nat, calls': nat)
      requires populationSize > 0 && tournamentSize > 0 && size > 0
      requires |start.boards| > 0 && BoardsSized(start.boards, size)
      requires start == Bred(population, calls)
      modifies this
      ensures genCount == old(genCount) + rounds
      ensures rounds <= if generations < 0 then 0 else generations
      ensures RunOutcome(start, rounds, generations, population, calls', populationSize, tournamentSize, size, mutationRate, rand)
      ensures rounds < generations ==> |population| > 0 && SortedByFitness(population)
    {
      calls' := calls;
      rounds := 0;
      while rounds < generations
        invariant rounds <= if generations < 0 then 0 else generations
        invariant genCount == old(genCount) + rounds
        invariant Bred(population, calls') == Evolved(start, rounds, populationSize, tournamentSize, size, mutationRate, rand)
        invariant UnsolvedBefore(start, rounds, populationSize, tournamentSize, size, mutationRate, rand)
        decreases generations - rounds
      {
        var found;
        found, calls' := Turn(rand, calls', start, rounds);
        if found {
          return;
        }
        genCount := genCount + 1;
        rounds := rounds + 1;
      }
    }

    /** Append `populationSize` random permutations, then sort and breed until
        the front board has fitness 0 or `generations` rounds have run;
        `rounds` is the number of generations bred, by which genCount grows. */
    method Solve(rand: Stream, calls: nat) returns (calls': nat, ghost rounds: nat)
      requires populationSize > 0 && tournamentSize > 0 && size > 0 && BoardsSized(population, size)
      modifies this
      ensures genCount == old(genCount) + rounds
      ensures rounds <= if generations < 0 then 0 else generations
      ensures RunOutcome(Seeded(old(population), size, populationSize, rand, calls), rounds, generations,
                         population, calls', populationSize, tournamentSize, size, mutationRate, rand)
      ensures rounds < generations ==> |population| > 0 && SortedByFitness(population)
    {
      calls' := Seed(rand, calls);
      ghost var start := Bred(population, calls');
      rounds, calls' := Run(rand, calls', start);
    }
  }
}
