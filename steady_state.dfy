/** The steady-state engine of nQueenGA.cpp.
    The population is `parents`, a P x N array whose row i is a chromosome,
    beside `fitnessArray`, whose entry i caches the fitness of row i. Each
    generation breeds one child per slot (tournament, copy, one swap) and then
    lets each child replace its own slot under the elitist rule. */
module SteadyState {
  import opened Rand
  import opened Queens
  import opened Grid

  /** A fitness below this is elite: replacement then ignores the coin. */
  const EliteThreshold := 3

  /** Draws one child costs: two tournaments of two draws, then two mutation draws. */
  const DrawsPerChild := 6

  // ---------------------------------------------------------------------------
  // Population states
  // ---------------------------------------------------------------------------

  predicate AllPermutations(rows: seq<seq<int>>, n: nat)
  {
    forall r :: 0 <= r < |rows| ==> IsPermutation(rows[r], n)
  }

  predicate FitnessCached(rows: seq<seq<int>>, fit: seq<int>)
  {
    |rows| == |fit| && forall r :: 0 <= r < |rows| ==> fit[r] == Fitness(rows[r])
  }

  predicate HasSolution(fit: seq<int>)
  {
    exists r :: 0 <= r < |fit| && fit[r] == 0
  }

  /** When every cached fitness is exact, a zero in the cache marks a board
      on which no two queens attack each other. */
  lemma SolutionInCache(rows: seq<seq<int>>, fit: seq<int>)
    requires FitnessCached(rows, fit)
    ensures HasSolution(fit) <==> exists r :: 0 <= r < |rows| && IsSolution(rows[r])
  {
    if HasSolution(fit) {
      var r :| 0 <= r < |fit| && fit[r] == 0;
      FitnessZeroIffSolution(rows[r]);
    }
    if exists r :: 0 <= r < |rows| && IsSolution(rows[r]) {
      var r :| 0 <= r < |rows| && IsSolution(rows[r]);
      FitnessZeroIffSolution(rows[r]);
      assert fit[r] == 0;
    }
  }

  // ---------------------------------------------------------------------------
  // Initialisation
  // ---------------------------------------------------------------------------

  /** The position on the stream where shuffle pass `round` starts: n draws per pass. */
  function RoundStart(calls: nat, round: nat, n: nat): nat
  {
    if round == 0 then calls else RoundStart(calls, round - 1, n) + n
  }

  lemma {:induction false} RoundStartIsProduct(calls: nat, round: nat, n: nat)
    ensures RoundStart(calls, round, n) == calls + round * n
  {
    if round > 0 {
      RoundStartIsProduct(calls, round - 1, n);
      assert round * n == (round - 1) * n + n;
    }
  }

  /** The shared buffer `numberSet` after `rounds` shuffle passes of n draws
      each. It starts as 0..n-1 and is never reset between rows. */
  function Shuffled(n: nat, rand: Stream, calls: nat, rounds: nat): (r: seq<int>)
    ensures |r| == n
  {
    if rounds == 0 then Identity(n)
    else ShufflePrefix(Shuffled(n, rand, calls, rounds - 1), rand, RoundStart(calls, rounds - 1, n), n)
  }

  /** A shuffle pass maps a permutation of 0..n-1 to another one. */
  lemma ShufflePassKeepsPermutation(s: seq<int>, n: nat, rand: Stream, calls: nat)
    requires IsPermutation(s, n) && |s| == n
    ensures IsPermutation(ShufflePrefix(s, rand, calls, n), n)
  {
  }

  /** However many passes run, the buffer stays a permutation of 0..n-1. */
  lemma {:induction false} ShuffledIsPermutation(n: nat, rand: Stream, calls: nat, rounds: nat)
    ensures IsPermutation(Shuffled(n, rand, calls, rounds), n)
  {
    if rounds > 0 {
      ShuffledIsPermutation(n, rand, calls, rounds - 1);
      ShufflePassKeepsPermutation(Shuffled(n, rand, calls, rounds - 1), n, rand, RoundStart(calls, rounds - 1, n));
    }
  }

  /** Exchange two entries of the buffer through a temporary. */
  method SwapEntries(numberSet: array<int>, i: int, j: int)
    requires 0 <= i < numberSet.Length && 0 <= j < numberSet.Length
    modifies numberSet
    ensures numberSet[..] == Swap(old(numberSet[..]), i, j)
  {
    var temp := numberSet[i];
    numberSet[i] := numberSet[j];
    numberSet[j] := temp;
  }

  /** One pass of the shuffle over the whole buffer: position i is swapped
      with a drawn position, for i = 0 .. N-1. */
  method ShufflePass(numberSet: array<int>, rand: Stream, calls: nat) returns (calls': nat)
    modifies numberSet
    ensures calls' == calls + numberSet.Length
    ensures numberSet[..] == ShufflePrefix(old(numberSet[..]), rand, calls, numberSet.Length)
  {
    var n := numberSet.Length;
    ghost var original := numberSet[..];
    calls' := calls;
    for i := 0 to n
      invariant calls' == calls + i
      invariant numberSet[..] == ShufflePrefix(original, rand, calls, i)
    {
      var j := Draw(rand, calls', n);
      calls' := calls' + 1;
      SwapEntries(numberSet, i, j);
      ShufflePrefixStep(original, rand, calls, i);
    }
  }

  /** Copy the buffer into row l. */
  method StoreRow(parents: array2<int>, l: int, numberSet: array<int>)
    requires 0 <= l < parents.Length0 && numberSet.Length == parents.Length1
    modifies parents
    ensures Rows(parents) == old(Rows(parents))[l := numberSet[..]]
  {
    for i := 0 to parents.Length1
      invariant forall k :: 0 <= k < i ==> parents[l, k] == numberSet[k]
      invariant forall r, c :: 0 <= r < parents.Length0 && 0 <= c < parents.Length1 && (r != l || i <= c) ==>
                  parents[r, c] == old(parents[r, c])
    {
      parents[l, i] := numberSet[i];
    }
    assert Row(parents, l) == numberSet[..];
    forall r | 0 <= r < parents.Length0 && r != l
      ensures Row(parents, r) == old(Row(parents, r))
    {
    }
  }

  /** A fresh buffer holding 0, 1, ..., n-1. */
  method IdentityBuffer(n: nat) returns (numberSet: array<int>)
    ensures fresh(numberSet) && numberSet[..] == Identity(n)
  {
    numberSet := new int[n];
    for i := 0 to n
      invariant forall k :: 0 <= k < i ==> numberSet[k] == k
    {
      numberSet[i] := i;
    }
  }

  /** Rows 0 .. l-1 hold the successive states of the shuffled buffer. */
  predicate ShuffledRows(rows: seq<seq<int>>, n: nat, rand: Stream, calls: nat, l: nat)
  {
    l <= |rows| && forall r {:trigger rows[r]} :: 0 <= r < l ==> rows[r] == Shuffled(n, rand, calls, r + 1)
  }

  lemma ShuffledRowsStep(rows: seq<seq<int>>, n: nat, rand: Stream, calls: nat, l: nat, row: seq<int>)
    requires ShuffledRows(rows, n, rand, calls, l) && l < |rows|
    requires row == Shuffled(n, rand, calls, l + 1)
    ensures ShuffledRows(rows[l := row], n, rand, calls, l + 1)
  {
  }

  /** Every row filled from the shuffled buffer is a permutation. */
  lemma ShuffledRowsArePermutations(rows: seq<seq<int>>, n: nat, rand: Stream, calls: nat)
    requires ShuffledRows(rows, n, rand, calls, |rows|)
    ensures AllPermutations(rows, n)
  {
    forall r | 0 <= r < |rows| ensures IsPermutation(rows[r], n) {
      assert rows[r] == Shuffled(n, rand, calls, r + 1);
      ShuffledIsPermutation(n, rand, calls, r + 1);
    }
  }

  /** One round of initialisation: shuffle the buffer once more and store it in row l. */
  method FillRow(parents: array2<int>, numberSet: array<int>, l: nat, rand: Stream,
                 ghost calls: nat, callsNow: nat) returns (calls': nat)
    requires l < parents.Length0 && numberSet.Length == parents.Length1
    requires numberSet[..] == Shuffled(parents.Length1, rand, calls, l)
    requires callsNow == RoundStart(calls, l, parents.Length1)
    requires ShuffledRows(Rows(parents), parents.Length1, rand, calls, l)
    modifies parents, numberSet
    ensures numberSet[..] == Shuffled(parents.Length1, rand, calls, l + 1)
    ensures calls' == RoundStart(calls, l + 1, parents.Length1)
    ensures ShuffledRows(Rows(parents), parents.Length1, rand, calls, l + 1)
  {
    calls' := ShufflePass(numberSet, rand, callsNow);
    ghost var rowsBefore := Rows(parents);
    StoreRow(parents, l, numberSet);
    ShuffledRowsStep(rowsBefore, parents.Length1, rand, calls, l, numberSet[..]);
  }

  /** Fill every row with the next state of the cumulatively shuffled buffer. */
  method InitialiseParents(parents: array2<int>, rand: Stream, calls: nat) returns (calls': nat)
    modifies parents
    ensures calls' == calls + parents.Length0 * parents.Length1
    ensures ShuffledRows(Rows(parents), parents.Length1, rand, calls, parents.Length0)
    ensures AllPermutations(Rows(parents), parents.Length1)
  {
    var n := parents.Length1;
    var numberSet := IdentityBuffer(n);
    calls' := calls;
    for l := 0 to parents.Length0
      invariant numberSet.Length == n
      invariant numberSet[..] == Shuffled(n, rand, calls, l)
      invariant calls' == RoundStart(calls, l, n)
      invariant ShuffledRows(Rows(parents), n, rand, calls, l)
    {
      calls' := FillRow(parents, numberSet, l, rand, calls, calls');
    }
    RoundStartIsProduct(calls, parents.Length0, n);
    ShuffledRowsArePermutations(Rows(parents), n, rand, calls);
  }

  // ---------------------------------------------------------------------------
  // Operators
  // ---------------------------------------------------------------------------

  /** Count attacking pairs with the source's nested loop. */
  method CalculateFitness(row: seq<int>) returns (fitness: int)
    ensures fitness == Fitness(row)
  {
    fitness := 0;
    for i := 0 to |row|
      invariant fitness == ConflictsBefore(row, i)
    {
      for j := i + 1 to |row|
        invariant fitness == ConflictsBefore(row, i) + RowConflicts(row, i, j)
      {
        if row[i] == row[j] || Abs(row[i] - row[j]) == Abs(i - j) {
          fitness := fitness + 1;
        }
      }
    }
  }

  /** Swap the two drawn positions of row `row` of `child`. */
  method PerformMutation(child: array2<int>, row: int, randomIndex1: int, randomIndex2: int)
    requires 0 <= row < child.Length0
    requires 0 <= randomIndex1 < child.Length1 && 0 <= randomIndex2 < child.Length1
    modifies child
    ensures Rows(child) == old(Rows(child))[row := Swap(old(Row(child, row)), randomIndex1, randomIndex2)]
  {
    var temp := child[row, randomIndex1];
    child[row, randomIndex1] := child[row, randomIndex2];
    child[row, randomIndex2] := temp;
    assert Row(child, row) == Swap(old(Row(child, row)), randomIndex1, randomIndex2);
    forall r | 0 <= r < child.Length0 && r != row
      ensures Row(child, r) == old(Row(child, r))
    {
    }
  }

  /** Binary tournament on the drawn slots: the fitter one, the second on a tie. */
  function TournamentSelection(fitnessArray: seq<int>, firstIndex: int, secondIndex: int): (selected: int)
    requires 0 <= firstIndex < |fitnessArray| && 0 <= secondIndex < |fitnessArray|
    ensures selected == firstIndex || selected == secondIndex
    ensures fitnessArray[selected] <= fitnessArray[firstIndex]
    ensures fitnessArray[selected] <= fitnessArray[secondIndex]
    ensures fitnessArray[firstIndex] == fitnessArray[secondIndex] ==> selected == secondIndex
  {
    if fitnessArray[firstIndex] < fitnessArray[secondIndex] then firstIndex else secondIndex
  }

  // ---------------------------------------------------------------------------
  // Replacement
  // ---------------------------------------------------------------------------

  predicate Elite(parentFitness: int, childFitness: int)
  {
    parentFitness < EliteThreshold || childFitness < EliteThreshold
  }

  /** Coins (`rand() % 2`) drawn before slot i: one per non-elite slot. */
  function CoinsBefore(fit: seq<int>, childFit: seq<int>, i: nat): nat
    requires i <= |fit| && i <= |childFit|
  {
    if i == 0 then 0
    else CoinsBefore(fit, childFit, i - 1) + (if Elite(fit[i - 1], childFit[i - 1]) then 0 else 1)
  }

  /** The replacement rule: the child takes slot i. */
  predicate Replaces(fit: seq<int>, childFit: seq<int>, rand: Stream, calls: nat, i: nat)
    requires i < |fit| && i < |childFit|
  {
    if Elite(fit[i], childFit[i]) then childFit[i] < fit[i]
    else Draw(rand, calls + CoinsBefore(fit, childFit, i), 2) == 1 && childFit[i] < fit[i]
  }

  /** The rows after the replacement pass. */
  function Selected(rows: seq<seq<int>>, fit: seq<int>, childRows: seq<seq<int>>, childFit: seq<int>,
                    rand: Stream, calls: nat): (r: seq<seq<int>>)
    requires |rows| == |fit| == |childRows| == |childFit|
    ensures |r| == |rows|
  {
    seq(|rows|, i requires 0 <= i < |rows| =>
      if Replaces(fit, childFit, rand, calls, i) then childRows[i] else rows[i])
  }

  /** The cached fitness after the replacement pass. */
  function SelectedFitness(fit: seq<int>, childFit: seq<int>, rand: Stream, calls: nat): (r: seq<int>)
    requires |fit| == |childFit|
    ensures |r| == |fit|
  {
    seq(|fit|, i requires 0 <= i < |fit| =>
      if Replaces(fit, childFit, rand, calls, i) then childFit[i] else fit[i])
  }

  /** Each slot either keeps its row and fitness, or takes both from its child,
      and only when the child is strictly fitter; so no fitness ever rises. */
  lemma SelectionSlots(rows: seq<seq<int>>, fit: seq<int>, childRows: seq<seq<int>>, childFit: seq<int>,
                       rand: Stream, calls: nat)
    requires |rows| == |fit| == |childRows| == |childFit|
    ensures forall i :: 0 <= i < |rows| ==>
              SelectedFitness(fit, childFit, rand, calls)[i] <= fit[i]
    ensures forall i :: 0 <= i < |rows| ==>
              (Selected(rows, fit, childRows, childFit, rand, calls)[i] == rows[i] &&
               SelectedFitness(fit, childFit, rand, calls)[i] == fit[i]) ||
              (childFit[i] < fit[i] &&
               Selected(rows, fit, childRows, childFit, rand, calls)[i] == childRows[i] &&
               SelectedFitness(fit, childFit, rand, calls)[i] == childFit[i])
  {
  }

  /** In an elite slot the coin plays no part: any random source decides alike. */
  lemma EliteIgnoresCoin(fit: seq<int>, childFit: seq<int>, rand1: Stream, calls1: nat,
                         rand2: Stream, calls2: nat, i: nat)
    requires i < |fit| && i < |childFit|
    requires Elite(fit[i], childFit[i])
    ensures Replaces(fit, childFit, rand1, calls1, i) == Replaces(fit, childFit, rand2, calls2, i)
    ensures Replaces(fit, childFit, rand1, calls1, i) <==> childFit[i] < fit[i]
  {
  }

  /** Replacement keeps every row a permutation and every cached fitness exact. */
  lemma SelectionKeepsInvariants(rows: seq<seq<int>>, fit: seq<int>, childRows: seq<seq<int>>,
                                 childFit: seq<int>, rand: Stream, calls: nat, n: nat)
    requires |rows| == |fit| == |childRows| == |childFit|
    ensures AllPermutations(rows, n) && AllPermutations(childRows, n) ==>
              AllPermutations(Selected(rows, fit, childRows, childFit, rand, calls), n)
    ensures FitnessCached(rows, fit) && FitnessCached(childRows, childFit) ==>
              FitnessCached(Selected(rows, fit, childRows, childFit, rand, calls),
                            SelectedFitness(fit, childFit, rand, calls))
  {
  }

  /** Overwriting slot i of a splice of `a` before i and `b` from i on with
      `a[i]` moves the seam one slot on; where the two agree at i, the splice
      already has moved it. */
  lemma SpliceStep<T>(a: seq<T>, b: seq<T>, i: nat)
    requires i < |a| == |b|
    ensures (a[..i] + b[i..])[i := a[i]] == a[..i + 1] + b[i + 1..]
    ensures a[i] == b[i] ==> a[..i] + b[i..] == a[..i + 1] + b[i + 1..]
  {
    assert a[..i + 1] == a[..i] + [a[i]];
    assert b[i..] == [b[i]] + b[i + 1..];
  }

  /** One slot of the replacement pass: an elite slot takes a fitter child, any
      other slot draws a coin and takes a fitter child on heads. */
  method ReplaceSlot(parents: array2<int>, child: array2<int>, fitnessArray: array<int>,
                     childrenFitness: seq<int>, i: nat, rand: Stream, ghost fit: seq<int>, ghost calls: nat,
                     callsNow: nat) returns (calls': nat)
    requires parents != child
    requires child.Length0 == parents.Length0 == fitnessArray.Length == |childrenFitness| == |fit|
    requires child.Length1 == parents.Length1
    requires i < |fit| && fitnessArray[i] == fit[i]
    requires callsNow == calls + CoinsBefore(fit, childrenFitness, i)
    modifies parents, fitnessArray
    ensures calls' == calls + CoinsBefore(fit, childrenFitness, i + 1)
    ensures Replaces(fit, childrenFitness, rand, calls, i) ==>
              Rows(parents) == old(Rows(parents))[i := Row(child, i)] &&
              fitnessArray[..] == old(fitnessArray[..])[i := childrenFitness[i]]
    ensures !Replaces(fit, childrenFitness, rand, calls, i) ==>
              Rows(parents) == old(Rows(parents)) && fitnessArray[..] == old(fitnessArray[..])
  {
    calls' := callsNow;
    if fitnessArray[i] < EliteThreshold || childrenFitness[i] < EliteThreshold {
      if childrenFitness[i] < fitnessArray[i] {
        fitnessArray[i] := childrenFitness[i];
        CopyRow(parents, i, child, i);
      }
    } else {
      var parentIndex := Draw(rand, calls', 2);
      calls' := calls' + 1;
      if parentIndex == 1 && childrenFitness[i] < fitnessArray[i] {
        fitnessArray[i] := childrenFitness[i];
        CopyRow(parents, i, child, i);
      }
    }
  }

  /** Let each child replace its own slot under the elitist rule. */
  method ParentSelection(parents: array2<int>, child: array2<int>, fitnessArray: array<int>,
                         childrenFitness: seq<int>, rand: Stream, calls: nat) returns (calls': nat)
    requires parents != child
    requires child.Length0 == parents.Length0 == fitnessArray.Length == |childrenFitness|
    requires child.Length1 == parents.Length1
    modifies parents, fitnessArray
    ensures Rows(parents) ==
            Selected(old(Rows(parents)), old(fitnessArray[..]), Rows(child), childrenFitness, rand, calls)
    ensures fitnessArray[..] == SelectedFitness(old(fitnessArray[..]), childrenFitness, rand, calls)
    ensures calls' == calls + CoinsBefore(old(fitnessArray[..]), childrenFitness, |childrenFitness|)
  {
    ghost var rows, fit := Rows(parents), fitnessArray[..];
    ghost var chosen := Selected(rows, fit, Rows(child), childrenFitness, rand, calls);
    ghost var chosenFit := SelectedFitness(fit, childrenFitness, rand, calls);
    calls' := calls;
    assert Rows(parents) == chosen[..0] + rows[0..];
    assert fitnessArray[..] == chosenFit[..0] + fit[0..];
    for i := 0 to parents.Length0
      invariant calls' == calls + CoinsBefore(fit, childrenFitness, i)
      invariant Rows(parents) == chosen[..i] + rows[i..]
      invariant fitnessArray[..] == chosenFit[..i] + fit[i..]
    {
      calls' := ReplaceSlot(parents, child, fitnessArray, childrenFitness, i, rand, fit, calls, calls');
      SpliceStep(chosen, rows, i);
      SpliceStep(chosenFit, fit, i);
    }
    assert Rows(parents) == chosen;
    assert fitnessArray[..] == chosenFit;
  }

  // ---------------------------------------------------------------------------
  // One generation
  // ---------------------------------------------------------------------------

  /** Every row has n entries. */
  predicate Shaped(rows: seq<seq<int>>, n: nat)
  {
    forall r :: 0 <= r < |rows| ==> |rows[r]| == n
  }

  /** The first tournament of the child bred at draw position `base`; the second
      tournament is drawn too (positions base + 2 and base + 3) but its winner is unused. */
  function FirstWinner(fit: seq<int>, rand: Stream, base: nat): (w: int)
    requires |fit| > 0
    ensures 0 <= w < |fit|
  {
    TournamentSelection(fit, Draw(rand, base, |fit|), Draw(rand, base + 1, |fit|))
  }

  /** The child bred at draw position `base`: a copy of the first tournament
      winner with the two drawn positions swapped. */
  function Offspring(rows: seq<seq<int>>, fit: seq<int>, n: nat, rand: Stream, base: nat): (c: seq<int>)
    requires |rows| == |fit| > 0 && n > 0 && Shaped(rows, n)
    ensures |c| == n
  {
    Swap(rows[FirstWinner(fit, rand, base)], Draw(rand, base + 4, n), Draw(rand, base + 5, n))
  }

  /** All children of one generation; child i uses the six draws after `calls + 6i`. */
  function Offsprings(rows: seq<seq<int>>, fit: seq<int>, n: nat, rand: Stream, calls: nat): (cs: seq<seq<int>>)
    requires |rows| == |fit| && n > 0 && Shaped(rows, n)
    ensures |cs| == |rows| && Shaped(cs, n)
  {
    seq(|rows|, i requires 0 <= i < |rows| => Offspring(rows, fit, n, rand, calls + DrawsPerChild * i))
  }

  /** Child i of a generation is bred from the draws after `calls + 6i`. */
  lemma OffspringsAt(rows: seq<seq<int>>, fit: seq<int>, n: nat, rand: Stream, calls: nat, i: nat)
    requires |rows| == |fit| && n > 0 && Shaped(rows, n) && i < |rows|
    ensures Offsprings(rows, fit, n, rand, calls)[i] == Offspring(rows, fit, n, rand, calls + DrawsPerChild * i)
  {
  }

  function FitnessOf(rows: seq<seq<int>>): (fit: seq<int>)
    ensures FitnessCached(rows, fit)
  {
    seq(|rows|, i requires 0 <= i < |rows| => Fitness(rows[i]))
  }

  /** The rows after one generation. */
  function NextRows(rows: seq<seq<int>>, fit: seq<int>, n: nat, rand: Stream, calls: nat): (r: seq<seq<int>>)
    requires |rows| == |fit| && n > 0 && Shaped(rows, n)
    ensures |r| == |rows| && Shaped(r, n)
  {
    Selected(rows, fit, Offsprings(rows, fit, n, rand, calls), FitnessOf(Offsprings(rows, fit, n, rand, calls)),
             rand, calls + DrawsPerChild * |rows|)
  }

  /** The cached fitness after one generation. */
  function NextFitness(rows: seq<seq<int>>, fit: seq<int>, n: nat, rand: Stream, calls: nat): (r: seq<int>)
    requires |rows| == |fit| && n > 0 && Shaped(rows, n)
    ensures |r| == |fit|
  {
    SelectedFitness(fit, FitnessOf(Offsprings(rows, fit, n, rand, calls)), rand, calls + DrawsPerChild * |rows|)
  }

  /** The stream position after one generation: six draws per child, then the coins. */
  function NextCalls(rows: seq<seq<int>>, fit: seq<int>, n: nat, rand: Stream, calls: nat): nat
    requires |rows| == |fit| && n > 0 && Shaped(rows, n)
  {
    calls + DrawsPerChild * |rows| + CoinsBefore(fit, FitnessOf(Offsprings(rows, fit, n, rand, calls)), |rows|)
  }

  /** A child is a permutation whenever its parent is: mutation only swaps. */
  lemma OffspringsArePermutations(rows: seq<seq<int>>, fit: seq<int>, n: nat, rand: Stream, calls: nat)
    requires |rows| == |fit| && n > 0 && Shaped(rows, n) && AllPermutations(rows, n)
    ensures AllPermutations(Offsprings(rows, fit, n, rand, calls), n)
  {
    var children := Offsprings(rows, fit, n, rand, calls);
    forall i | 0 <= i < |children| ensures IsPermutation(children[i], n) {
      var w := FirstWinner(fit, rand, calls + DrawsPerChild * i);
      assert multiset(children[i]) == multiset(rows[w]);
    }
  }

  /** A generation keeps every row a permutation and every cached fitness exact. */
  lemma NextGenerationKeepsInvariants(rows: seq<seq<int>>, fit: seq<int>, n: nat, rand: Stream, calls: nat)
    requires |rows| == |fit| && n > 0 && Shaped(rows, n)
    requires AllPermutations(rows, n) && FitnessCached(rows, fit)
    ensures AllPermutations(NextRows(rows, fit, n, rand, calls), n)
    ensures FitnessCached(NextRows(rows, fit, n, rand, calls), NextFitness(rows, fit, n, rand, calls))
  {
    var children := Offsprings(rows, fit, n, rand, calls);
    OffspringsArePermutations(rows, fit, n, rand, calls);
    SelectionKeepsInvariants(rows, fit, children, FitnessOf(children), rand, calls + DrawsPerChild * |rows|, n);
  }

  /** No slot's fitness rises in a generation, so a solution once found is kept. */
  lemma NextGenerationNeverWorsens(rows: seq<seq<int>>, fit: seq<int>, n: nat, rand: Stream, calls: nat)
    requires |rows| == |fit| && n > 0 && Shaped(rows, n)
    ensures forall i :: 0 <= i < |fit| ==> NextFitness(rows, fit, n, rand, calls)[i] <= fit[i]
    ensures HasSolution(fit) ==> HasSolution(NextFitness(rows, fit, n, rand, calls))
  {
    var children := Offsprings(rows, fit, n, rand, calls);
    var base := calls + DrawsPerChild * |rows|;
    SelectionSlots(rows, fit, children, FitnessOf(children), rand, base);
    if HasSolution(fit) {
      var r :| 0 <= r < |fit| && fit[r] == 0;
      assert NextFitness(rows, fit, n, rand, calls)[r] == 0;
    }
  }

  /** Breed child i: copy the first tournament winner into row i of `child`,
      swap two drawn positions and record its fitness. */
  method BreedChild(parents: array2<int>, fitnessArray: array<int>, child: array2<int>,
                    childrenFitness: array<int>, i: int, rand: Stream, calls: nat,
                    ghost rows: seq<seq<int>>, ghost fit: seq<int>)
    returns (calls': nat)
    requires parents != child && child.Length0 == parents.Length0 == fitnessArray.Length == childrenFitness.Length
    requires child.Length1 == parents.Length1 > 0 && 0 <= i < child.Length0
    requires rows == Rows(parents) && fit == fitnessArray[..]
    modifies child, childrenFitness
    ensures Rows(child) == old(Rows(child))[i := Offspring(rows, fit, parents.Length1, rand, calls)]
    ensures childrenFitness[..] == old(childrenFitness[..])[i := Fitness(Offspring(rows, fit, parents.Length1, rand, calls))]
    ensures calls' == calls + DrawsPerChild
  {
    var p, n := parents.Length0, parents.Length1;
    var firstParentIndex := TournamentSelection(fitnessArray[..], Draw(rand, calls, p), Draw(rand, calls + 1, p));
    var secondParentIndex := TournamentSelection(fitnessArray[..], Draw(rand, calls + 2, p), Draw(rand, calls + 3, p));
    CopyRow(child, i, parents, firstParentIndex);
    PerformMutation(child, i, Draw(rand, calls + 4, n), Draw(rand, calls + 5, n));
    calls' := calls + DrawsPerChild;
    childrenFitness[i] := CalculateFitness(Row(child, i));
  }

  lemma ExtendPrefix<T>(a: seq<T>, b: seq<T>, i: nat)
    requires i < |a| == |b| && a[..i] == b[..i]
    ensures a[i := b[i]][..i + 1] == b[..i + 1]
  {
    assert a[i := b[i]][..i + 1] == a[..i] + [b[i]];
    assert b[..i + 1] == b[..i] + [b[i]];
  }

  /** Breed one child per slot into a fresh `child` array, scoring each. */
  method BreedChildren(parents: array2<int>, fitnessArray: array<int>, rand: Stream, calls: nat)
    returns (child: array2<int>, childrenFitness: array<int>, calls': nat)
    requires fitnessArray.Length == parents.Length0 && parents.Length1 > 0
    ensures fresh(child) && fresh(childrenFitness)
    ensures child.Length0 == parents.Length0 && child.Length1 == parents.Length1
    ensures Rows(child) == Offsprings(Rows(parents), fitnessArray[..], parents.Length1, rand, calls)
    ensures childrenFitness[..] == FitnessOf(Rows(child))
    ensures calls' == calls + DrawsPerChild * parents.Length0
  {
    var p, n := parents.Length0, parents.Length1;
    child := new int[p, n];
    childrenFitness := new int[p];
    ghost var rows, fit := Rows(parents), fitnessArray[..];
    ghost var children := Offsprings(rows, fit, n, rand, calls);
    ghost var scores := FitnessOf(children);
    calls' := calls;
    for i := 0 to p
      modifies child, childrenFitness
      invariant calls' == calls + DrawsPerChild * i
      invariant Rows(child)[..i] == children[..i]
      invariant childrenFitness[..i] == scores[..i]
    {
      ghost var before, beforeScores := Rows(child), childrenFitness[..];
      OffspringsAt(rows, fit, n, rand, calls, i);
      calls' := BreedChild(parents, fitnessArray, child, childrenFitness, i, rand, calls', rows, fit);
      assert Rows(child) == before[i := children[i]];
      assert childrenFitness[..] == beforeScores[i := scores[i]];
      ExtendPrefix(before, children, i);
      ExtendPrefix(beforeScores, scores, i);
    }
    assert Rows(child) == Rows(child)[..p];
    assert childrenFitness[..] == childrenFitness[..p];
  }

  /** Breed one child per slot, then run the replacement pass. */
  method NextGeneration(parents: array2<int>, fitnessArray: array<int>, rand: Stream, calls: nat) returns (calls': nat)
    requires fitnessArray.Length == parents.Length0 && parents.Length1 > 0
    modifies parents, fitnessArray
    ensures Rows(parents) == NextRows(old(Rows(parents)), old(fitnessArray[..]), parents.Length1, rand, calls)
    ensures fitnessArray[..] == NextFitness(old(Rows(parents)), old(fitnessArray[..]), parents.Length1, rand, calls)
    ensures calls' == NextCalls(old(Rows(parents)), old(fitnessArray[..]), parents.Length1, rand, calls)
  {
    ghost var rows, fit, n := Rows(parents), fitnessArray[..], parents.Length1;
    var child, childrenFitness;
    child, childrenFitness, calls' := BreedChildren(parents, fitnessArray, rand, calls);
    ghost var children := Rows(child);
    assert children == Offsprings(rows, fit, n, rand, calls);
    calls' := ParentSelection(parents, child, fitnessArray, childrenFitness[..], rand, calls');
  }

  // ---------------------------------------------------------------------------
  // Runs of generations
  // ---------------------------------------------------------------------------

  /** The state between generations: the rows, their cached fitness and the
      number of draws taken so far. */
  datatype Population = Population(rows: seq<seq<int>>, fit: seq<int>, calls: nat)

  /** One cached fitness per row, and every row has n > 0 entries. */
  predicate Breedable(p: Population, n: nat)
  {
    |p.rows| == |p.fit| && n > 0 && Shaped(p.rows, n)
  }

  /** The state after one generation. */
  function Generation(p: Population, n: nat, rand: Stream): (q: Population)
    requires Breedable(p, n)
    ensures Breedable(q, n) && |q.rows| == |p.rows|
  {
    Population(NextRows(p.rows, p.fit, n, rand, p.calls), NextFitness(p.rows, p.fit, n, rand, p.calls),
               NextCalls(p.rows, p.fit, n, rand, p.calls))
  }

  /** The state after `g` generations. */
  function Generations(p: Population, n: nat, rand: Stream, g: nat): (q: Population)
    requires Breedable(p, n)
    ensures Breedable(q, n) && |q.rows| == |p.rows|
  {
    if g == 0 then p else Generation(Generations(p, n, rand, g - 1), n, rand)
  }

  /** Any number of generations keeps every row a permutation and every cached
      fitness exact. */
  lemma {:induction false} GenerationsKeepInvariants(p: Population, n: nat, rand: Stream, g: nat)
    requires Breedable(p, n) && AllPermutations(p.rows, n) && FitnessCached(p.rows, p.fit)
    ensures AllPermutations(Generations(p, n, rand, g).rows, n)
    ensures FitnessCached(Generations(p, n, rand, g).rows, Generations(p, n, rand, g).fit)
  {
    if g > 0 {
      GenerationsKeepInvariants(p, n, rand, g - 1);
      var q := Generations(p, n, rand, g - 1);
      NextGenerationKeepsInvariants(q.rows, q.fit, n, rand, q.calls);
    }
  }

  /** No slot's cached fitness is ever higher than it was before the run. */
  lemma {:induction false} GenerationsNeverWorsen(p: Population, n: nat, rand: Stream, g: nat)
    requires Breedable(p, n)
    ensures forall i :: 0 <= i < |p.fit| ==> Generations(p, n, rand, g).fit[i] <= p.fit[i]
  {
    if g > 0 {
      GenerationsNeverWorsen(p, n, rand, g - 1);
      var q := Generations(p, n, rand, g - 1);
      var next := NextFitness(q.rows, q.fit, n, rand, q.calls);
      assert Generations(p, n, rand, g).fit == next;
      NextGenerationNeverWorsens(q.rows, q.fit, n, rand, q.calls);
      forall i | 0 <= i < |p.fit|
        ensures next[i] <= p.fit[i]
      {
        assert next[i] <= q.fit[i];
      }
    }
  }

  /** A zero in the cache, once there, stays there in every later generation. */
  lemma {:induction false} SolutionPersists(p: Population, n: nat, rand: Stream, g: nat, h: nat)
    requires Breedable(p, n) && g <= h
    requires HasSolution(Generations(p, n, rand, g).fit)
    ensures HasSolution(Generations(p, n, rand, h).fit)
  {
    if g < h {
      SolutionPersists(p, n, rand, g, h - 1);
      var q := Generations(p, n, rand, h - 1);
      var next := NextFitness(q.rows, q.fit, n, rand, q.calls);
      assert Generations(p, n, rand, h).fit == next;
      NextGenerationNeverWorsens(q.rows, q.fit, n, rand, q.calls);
      assert HasSolution(next);
    }
  }

  /** None of the first k generations' caches holds a zero. */
  predicate Unsolved(p: Population, n: nat, rand: Stream, k: nat)
    requires Breedable(p, n)
  {
    forall g :: 0 <= g < k ==> !HasSolution(Generations(p, n, rand, g).fit)
  }

  lemma UnsolvedStep(p: Population, n: nat, rand: Stream, k: nat)
    requires Breedable(p, n) && Unsolved(p, n, rand, k)
    requires !HasSolution(Generations(p, n, rand, k).fit)
    ensures Unsolved(p, n, rand, k + 1)
  {
  }

  /** The rows the initialisation fills: row l is the buffer after l + 1 passes. */
  function InitialRows(n: nat, populationSize: nat, rand: Stream): (rows: seq<seq<int>>)
    ensures |rows| == populationSize && Shaped(rows, n)
  {
    seq(populationSize, l requires 0 <= l < populationSize => Shuffled(n, rand, 0, l + 1))
  }

  /** The scored initial population, with the P·N draws of the initialisation taken. */
  function Initial(n: nat, populationSize: nat, rand: Stream): (p: Population)
    ensures |p.rows| == populationSize && (n > 0 ==> Breedable(p, n))
  {
    Population(InitialRows(n, populationSize, rand), FitnessOf(InitialRows(n, populationSize, rand)),
               populationSize * n)
  }

  // ---------------------------------------------------------------------------
  // The driver
  // ---------------------------------------------------------------------------

  /** Is some cached fitness zero? */
  method CheckForSolution(fitnessArray: array<int>) returns (found: bool)
    ensures found <==> HasSolution(fitnessArray[..])
  {
    for i := 0 to fitnessArray.Length
      invariant forall k :: 0 <= k < i ==> fitnessArray[k] != 0
    {
      if fitnessArray[i] == 0 {
        return true;
      }
    }
    return false;
  }

  /** Score every row of the initial population. */
  method EvaluatePopulation(parents: array2<int>, fitnessArray: array<int>)
    requires fitnessArray.Length == parents.Length0
    modifies fitnessArray
    ensures FitnessCached(Rows(parents), fitnessArray[..])
  {
    for i := 0 to parents.Length0
      invariant forall k :: 0 <= k < i ==> fitnessArray[k] == Fitness(Row(parents, k))
    {
      fitnessArray[i] := CalculateFitness(Row(parents, i));
    }
  }

  /** The slot the final board is printed from: the first one of least fitness. */
  method BestIndex(fitnessArray: array<int>) returns (index: int)
    requires fitnessArray.Length > 0
    ensures 0 <= index < fitnessArray.Length
    ensures forall k :: 0 <= k < fitnessArray.Length ==> fitnessArray[index] <= fitnessArray[k]
    ensures forall k :: 0 <= k < index ==> fitnessArray[index] < fitnessArray[k]
  {
    index := 0;
    var min := fitnessArray[0];
    for i := 1 to fitnessArray.Length
      invariant 0 <= index < i && min == fitnessArray[index]
      invariant forall k :: 0 <= k < i ==> min <= fitnessArray[k]
      invariant forall k :: 0 <= k < index ==> min < fitnessArray[k]
    {
      if fitnessArray[i] < min {
        min := fitnessArray[i];
        index := i;
      }
    }
  }

  /** When the cache is exact and holds a zero, the least-fitness slot holds a
      board on which no two queens attack each other. */
  lemma BestIsSolution(rows: seq<seq<int>>, fit: seq<int>, best: int)
    requires FitnessCached(rows, fit) && 0 <= best < |fit|
    requires forall k :: 0 <= k < |fit| ==> fit[best] <= fit[k]
    ensures HasSolution(fit) <==> IsSolution(rows[best])
  {
    FitnessZeroIffSolution(rows[best]);
    if HasSolution(fit) {
      var r :| 0 <= r < |fit| && fit[r] == 0;
      assert fit[best] <= 0;
    }
  }

  /** Rows filled by the initialisation are the rows of `Initial`. */
  lemma InitialRowsFilled(rows: seq<seq<int>>, n: nat, populationSize: nat, rand: Stream)
    requires |rows| == populationSize && ShuffledRows(rows, n, rand, 0, populationSize)
    ensures rows == InitialRows(n, populationSize, rand)
  {
  }

  /** An exact cache is the list of the rows' fitness values. */
  lemma CacheIsFitnessOf(rows: seq<seq<int>>, fit: seq<int>)
    requires FitnessCached(rows, fit)
    ensures fit == FitnessOf(rows)
  {
  }

  /** Build and score the initial population of `populationSize` boards of n queens. */
  method InitialPopulation(n: nat, populationSize: nat, rand: Stream)
    returns (parents: array2<int>, fitnessArray: array<int>, calls: nat)
    ensures fresh(parents) && fresh(fitnessArray)
    ensures parents.Length0 == populationSize && parents.Length1 == n && fitnessArray.Length == populationSize
    ensures AllPermutations(Rows(parents), n) && FitnessCached(Rows(parents), fitnessArray[..])
    ensures Population(Rows(parents), fitnessArray[..], calls) == Initial(n, populationSize, rand)
  {
    parents := new int[populationSize, n];
    fitnessArray := new int[populationSize];
    calls := InitialiseParents(parents, rand, 0);
    ghost var rows := Rows(parents);
    InitialRowsFilled(rows, n, populationSize, rand);
    EvaluatePopulation(parents, fitnessArray);
    assert Rows(parents) == rows;
    CacheIsFitnessOf(rows, fitnessArray[..]);
  }

  /** One turn of the driver loop: the arrays move on by one generation. */
  method Advance(parents: array2<int>, fitnessArray: array<int>, rand: Stream, calls: nat,
                 ghost start: Population, ghost g: nat) returns (calls': nat)
    requires fitnessArray.Length == parents.Length0 && parents.Length1 > 0 && Breedable(start, parents.Length1)
    requires AllPermutations(Rows(parents), parents.Length1) && FitnessCached(Rows(parents), fitnessArray[..])
    requires Population(Rows(parents), fitnessArray[..], calls) == Generations(start, parents.Length1, rand, g)
    modifies parents, fitnessArray
    ensures AllPermutations(Rows(parents), parents.Length1) && FitnessCached(Rows(parents), fitnessArray[..])
    ensures Population(Rows(parents), fitnessArray[..], calls') == Generations(start, parents.Length1, rand, g + 1)
  {
    ghost var rows, fit := Rows(parents), fitnessArray[..];
    calls' := NextGeneration(parents, fitnessArray, rand, calls);
    NextGenerationKeepsInvariants(rows, fit, parents.Length1, rand, calls);
  }

  /** The driver loop from the state `start`: breed until a cached fitness is
      zero or `maxIteration` generations have run. */
  method RunGenerations(parents: array2<int>, fitnessArray: array<int>, maxIteration: nat, rand: Stream,
                        calls: nat, ghost start: Population)
    returns (iteration: nat, calls': nat)
    requires fitnessArray.Length == parents.Length0 && parents.Length1 > 0 && Breedable(start, parents.Length1)
    requires AllPermutations(Rows(parents), parents.Length1) && FitnessCached(Rows(parents), fitnessArray[..])
    requires start == Population(Rows(parents), fitnessArray[..], calls)
    modifies parents, fitnessArray
    ensures AllPermutations(Rows(parents), parents.Length1) && FitnessCached(Rows(parents), fitnessArray[..])
    ensures iteration <= maxIteration
    ensures Population(Rows(parents), fitnessArray[..], calls') == Generations(start, parents.Length1, rand, iteration)
    ensures Unsolved(start, parents.Length1, rand, iteration)
    ensures iteration < maxIteration ==> HasSolution(fitnessArray[..])
  {
    var n := parents.Length1;
    calls' := calls;
    iteration := 0;
    var found := CheckForSolution(fitnessArray);
    while iteration < maxIteration && !found
      invariant iteration <= maxIteration
      invariant found <==> HasSolution(fitnessArray[..])
      invariant AllPermutations(Rows(parents), n) && FitnessCached(Rows(parents), fitnessArray[..])
      invariant Population(Rows(parents), fitnessArray[..], calls') == Generations(start, n, rand, iteration)
      invariant Unsolved(start, n, rand, iteration)
      decreases maxIteration - iteration
    {
      UnsolvedStep(start, n, rand, iteration);
      calls' := Advance(parents, fitnessArray, rand, calls', start, iteration);
      iteration := iteration + 1;
      found := CheckForSolution(fitnessArray);
    }
  }

  /** Breed generations until a cached fitness is zero or `maxIteration`
      generations have run: the arrays end as the state after `iteration`
      generations, no earlier state held a zero, only the cap stops a run
      without one, and no slot's fitness has risen. */
  method Evolve(parents: array2<int>, fitnessArray: array<int>, maxIteration: nat, rand: Stream, calls: nat)
    returns (iteration: nat, calls': nat)
    requires fitnessArray.Length == parents.Length0 && parents.Length1 > 0
    requires AllPermutations(Rows(parents), parents.Length1) && FitnessCached(Rows(parents), fitnessArray[..])
    modifies parents, fitnessArray
    ensures AllPermutations(Rows(parents), parents.Length1) && FitnessCached(Rows(parents), fitnessArray[..])
    ensures iteration <= maxIteration
    ensures Population(Rows(parents), fitnessArray[..], calls') ==
            Generations(Population(old(Rows(parents)), old(fitnessArray[..]), calls), parents.Length1, rand, iteration)
    ensures Unsolved(Population(old(Rows(parents)), old(fitnessArray[..]), calls), parents.Length1, rand, iteration)
    ensures iteration < maxIteration ==> HasSolution(fitnessArray[..])
    ensures forall i :: 0 <= i < fitnessArray.Length ==> fitnessArray[i] <= old(fitnessArray[i])
  {
    ghost var start := Population(Rows(parents), fitnessArray[..], calls);
    iteration, calls' := RunGenerations(parents, fitnessArray, maxIteration, rand, calls, start);
    GenerationsNeverWorsen(start, parents.Length1, rand, iteration);
  }

  /** The whole run: build and score the population, evolve it, and report the
      slot whose board is printed. */
  method Solve(n: nat, populationSize: nat, maxIteration: nat, rand: Stream)
    returns (parents: array2<int>, fitnessArray: array<int>, iteration: nat, best: int)
    requires n > 0 && populationSize > 0
    ensures parents.Length0 == populationSize && parents.Length1 == n && fitnessArray.Length == populationSize
    ensures AllPermutations(Rows(parents), n) && FitnessCached(Rows(parents), fitnessArray[..])
    ensures iteration <= maxIteration
    ensures Rows(parents) == Generations(Initial(n, populationSize, rand), n, rand, iteration).rows
    ensures fitnessArray[..] == Generations(Initial(n, populationSize, rand), n, rand, iteration).fit
    ensures forall g :: 0 <= g < iteration ==> !HasSolution(Generations(Initial(n, populationSize, rand), n, rand, g).fit)
    ensures iteration < maxIteration ==> HasSolution(fitnessArray[..])
    ensures 0 <= best < populationSize
    ensures HasSolution(fitnessArray[..]) <==> IsSolution(Row(parents, best))
  {
    var calls, calls';
    parents, fitnessArray, calls := InitialPopulation(n, populationSize, rand);
    iteration, calls' := Evolve(parents, fitnessArray, maxIteration, rand, calls);
    best := BestIndex(fitnessArray);
    ghost var rows := Rows(parents);
    BestIsSolution(rows, fitnessArray[..], best);
  }
}
