/** The older steady-state engine of olderVersions/nQueenGA_2.cpp. Its
    initialisation, mutation and solution check are the ones of nQueenGA.cpp
    (module SteadyState); what differs is modelled here: the conflict test
    written as an else-if chain, the tournament reporting its winner through an
    out-parameter, the replacement rule written as nested ifs, a generation step
    built from these three, the argmin scan of the printer starting at slot 0,
    and a main loop that rescores the whole population at the top of every
    iteration. The generation step is proved to reach the same next state as
    the newer one, so runs are stated with `SteadyState.Generations`. */
module SteadyStateV2 {
  import opened Rand
  import opened Queens
  import opened Grid
  import opened SteadyState

  /** Count attacking pairs; a shared column is tested first, a diagonal only otherwise. */
  method CalculateFitness(parents: seq<int>) returns (fitness: int)
    ensures fitness == Fitness(parents)
    ensures fitness == |AttackingPairs(parents)|
  {
    fitness := 0;
    for i := 0 to |parents|
      invariant fitness == ConflictsBefore(parents, i)
    {
      for j := i + 1 to |parents|
        invariant fitness == ConflictsBefore(parents, i) + RowConflicts(parents, i, j)
      {
        if parents[i] == parents[j] {
          fitness := fitness + 1;
        } else if Abs(parents[i] - parents[j]) == Abs(i - j) {
          fitness := fitness + 1;
        }
      }
    }
    FitnessCountsAttackingPairs(parents);
  }

  /** Binary tournament on the drawn slots; the winner goes to the out-parameter. */
  method TournamentSelection(fitnessArray: array<int>, firstIndex: int, secondIndex: int)
    returns (selectedIndex: int)
    requires 0 <= firstIndex < fitnessArray.Length && 0 <= secondIndex < fitnessArray.Length
    ensures selectedIndex == firstIndex || selectedIndex == secondIndex
    ensures fitnessArray[selectedIndex] <= fitnessArray[firstIndex]
    ensures fitnessArray[selectedIndex] <= fitnessArray[secondIndex]
    ensures fitnessArray[firstIndex] == fitnessArray[secondIndex] ==> selectedIndex == secondIndex
    ensures selectedIndex == SteadyState.TournamentSelection(fitnessArray[..], firstIndex, secondIndex)
  {
    if fitnessArray[firstIndex] < fitnessArray[secondIndex] {
      selectedIndex := firstIndex;
    } else {
      selectedIndex := secondIndex;
    }
  }

  /** One slot of the replacement pass, with the coin test and the improvement
      test nested. */
  method ReplaceSlot(parents: array2<int>, child: array2<int>, fitnessArray: array<int>,
                     childrenFitness: seq<int>, i: nat, rand: Stream, ghost fit: seq<int>, ghost calls: nat,
                     callsNow: nat) returns (calls': nat)
    requires parents != child
    requires child.Length0 == parents.Length0 == fitnessArray.Length == |childrenFitness| == |fit|
    requires child.Length1 == parents.Length1
    requires i < |fit| && fitnessArray[i] == fit[i]
    requires callsNow == calls + CoinsBefore(fit, childrenFitness, i)
    modifies parents, fitnessArray
    ensures calls' == calls + CoinsBefore(fit, childrenFitness, i + 1)
    ensures Replaces(fit, childrenFitness, rand, calls, i) ==>
              Rows(parents) == old(Rows(parents))[i := Row(child, i)] &&
              fitnessArray[..] == old(fitnessArray[..])[i := childrenFitness[i]]
    ensures !Replaces(fit, childrenFitness, rand, calls, i) ==>
              Rows(parents) == old(Rows(parents)) && fitnessArray[..] == old(fitnessArray[..])
  {
    calls' := callsNow;
    if fitnessArray[i] < EliteThreshold || childrenFitness[i] < EliteThreshold {
      if childrenFitness[i] < fitnessArray[i] {
        fitnessArray[i] := childrenFitness[i];
        CopyRow(parents, i, child, i);
      }
    } else {
      var parentIndex := Draw(rand, calls', 2);
      calls' := calls' + 1;
      if parentIndex == 1 {
        if childrenFitness[i] < fitnessArray[i] {
          fitnessArray[i] := childrenFitness[i];
          CopyRow(parents, i, child, i);
        }
      }
    }
  }

  /** The replacement pass over every slot. */
  method ParentSelection(parents: array2<int>, child: array2<int>, fitnessArray: array<int>,
                         childrenFitness: seq<int>, rand: Stream, calls: nat) returns (calls': nat)
    requires parents != child
    requires child.Length0 == parents.Length0 == fitnessArray.Length == |childrenFitness|
    requires child.Length1 == parents.Length1
    modifies parents, fitnessArray
    ensures Rows(parents) ==
            Selected(old(Rows(parents)), old(fitnessArray[..]), Rows(child), childrenFitness, rand, calls)
    ensures fitnessArray[..] == SelectedFitness(old(fitnessArray[..]), childrenFitness, rand, calls)
    ensures calls' == calls + CoinsBefore(old(fitnessArray[..]), childrenFitness, |childrenFitness|)
  {
    ghost var rows, fit := Rows(parents), fitnessArray[..];
    ghost var chosen := Selected(rows, fit, Rows(child), childrenFitness, rand, calls);
    ghost var chosenFit := SelectedFitness(fit, childrenFitness, rand, calls);
    calls' := calls;
    assert Rows(parents) == chosen[..0] + rows[0..];
    assert fitnessArray[..] == chosenFit[..0] + fit[0..];
    for i := 0 to parents.Length0
      invariant calls' == calls + CoinsBefore(fit, childrenFitness, i)
      invariant Rows(parents) == chosen[..i] + rows[i..]
      invariant fitnessArray[..] == chosenFit[..i] + fit[i..]
    {
      calls' := ReplaceSlot(parents, child, fitnessArray, childrenFitness, i, rand, fit, calls, calls');
      SpliceStep(chosen, rows, i);
      SpliceStep(chosenFit, fit, i);
    }
    assert Rows(parents) == chosen;
    assert fitnessArray[..] == chosenFit;
  }

  /** Breed child i: two out-parameter tournaments, a copy of the first winner
      into row i of `child`, a swap of two drawn positions, and the child's
      else-if fitness. */
  method BreedChild(parents: array2<int>, fitnessArray: array<int>, child: array2<int>,
                    childrenFitness: array<int>, i: int, rand: Stream, calls: nat,
                    ghost rows: seq<seq<int>>, ghost fit: seq<int>)
    returns (calls': nat)
    requires parents != child && child.Length0 == parents.Length0 == fitnessArray.Length == childrenFitness.Length
    requires child.Length1 == parents.Length1 > 0 && 0 <= i < child.Length0
    requires rows == Rows(parents) && fit == fitnessArray[..]
    modifies child, childrenFitness
    ensures Rows(child) == old(Rows(child))[i := Offspring(rows, fit, parents.Length1, rand, calls)]
    ensures childrenFitness[..] == old(childrenFitness[..])[i := Fitness(Offspring(rows, fit, parents.Length1, rand, calls))]
    ensures calls' == calls + DrawsPerChild
  {
    var p, n := parents.Length0, parents.Length1;
    var firstParentIndex := TournamentSelection(fitnessArray, Draw(rand, calls, p), Draw(rand, calls + 1, p));
    var secondParentIndex := TournamentSelection(fitnessArray, Draw(rand, calls + 2, p), Draw(rand, calls + 3, p));
    CopyRow(child, i, parents, firstParentIndex);
    PerformMutation(child, i, Draw(rand, calls + 4, n), Draw(rand, calls + 5, n));
    calls' := calls + DrawsPerChild;
    var fitness := CalculateFitness(Row(child, i));
    childrenFitness[i] := fitness;
  }

  /** Breed one child per slot into a fresh `child` array, scoring each. */
  method BreedChildren(parents: array2<int>, fitnessArray: array<int>, rand: Stream, calls: nat)
    returns (child: array2<int>, childrenFitness: array<int>, calls': nat)
    requires fitnessArray.Length == parents.Length0 && parents.Length1 > 0
    ensures fresh(child) && fresh(childrenFitness)
    ensures child.Length0 == parents.Length0 && child.Length1 == parents.Length1
    ensures Rows(child) == Offsprings(Rows(parents), fitnessArray[..], parents.Length1, rand, calls)
    ensures childrenFitness[..] == FitnessOf(Rows(child))
    ensures calls' == calls + DrawsPerChild * parents.Length0
  {
    var p, n := parents.Length0, parents.Length1;
    child := new int[p, n];
    childrenFitness := new int[p];
    ghost var rows, fit := Rows(parents), fitnessArray[..];
    ghost var children := Offsprings(rows, fit, n, rand, calls);
    ghost var scores := FitnessOf(children);
    calls' := calls;
    for i := 0 to p
      modifies child, childrenFitness
      invariant calls' == calls + DrawsPerChild * i
      invariant Rows(child)[..i] == children[..i]
      invariant childrenFitness[..i] == scores[..i]
    {
      ghost var before, beforeScores := Rows(child), childrenFitness[..];
      OffspringsAt(rows, fit, n, rand, calls, i);
      calls' := BreedChild(parents, fitnessArray, child, childrenFitness, i, rand, calls', rows, fit);
      assert Rows(child) == before[i := children[i]];
      assert childrenFitness[..] == beforeScores[i := scores[i]];
      ExtendPrefix(before, children, i);
      ExtendPrefix(beforeScores, scores, i);
    }
    assert Rows(child) == Rows(child)[..p];
    assert childrenFitness[..] == childrenFitness[..p];
  }

  /** Breed one child per slot, then run this version's replacement pass. */
  method NextGeneration(parents: array2<int>, fitnessArray: array<int>, rand: Stream, calls: nat) returns (calls': nat)
    requires fitnessArray.Length == parents.Length0 && parents.Length1 > 0
    modifies parents, fitnessArray
    ensures Rows(parents) == NextRows(old(Rows(parents)), old(fitnessArray[..]), parents.Length1, rand, calls)
    ensures fitnessArray[..] == NextFitness(old(Rows(parents)), old(fitnessArray[..]), parents.Length1, rand, calls)
    ensures calls' == NextCalls(old(Rows(parents)), old(fitnessArray[..]), parents.Length1, rand, calls)
  {
    ghost var rows, fit, n := Rows(parents), fitnessArray[..], parents.Length1;
    var child, childrenFitness;
    child, childrenFitness, calls' := BreedChildren(parents, fitnessArray, rand, calls);
    ghost var children := Rows(child);
    assert children == Offsprings(rows, fit, n, rand, calls);
    calls' := ParentSelection(parents, child, fitnessArray, childrenFitness[..], rand, calls');
  }

  /** The printer's argmin: scanning from slot 0 with a strict test keeps the
      first slot of least fitness. */
  method BestIndex(fitnessArray: array<int>) returns (index: int)
    requires fitnessArray.Length > 0
    ensures 0 <= index < fitnessArray.Length
    ensures forall k :: 0 <= k < fitnessArray.Length ==> fitnessArray[index] <= fitnessArray[k]
    ensures forall k :: 0 <= k < index ==> fitnessArray[index] < fitnessArray[k]
  {
    index := 0;
    var min := fitnessArray[0];
    for i := 0 to fitnessArray.Length
      invariant 0 <= index < fitnessArray.Length && min == fitnessArray[index]
      invariant index <= i
      invariant forall k :: 0 <= k < i ==> min <= fitnessArray[k]
      invariant forall k :: 0 <= k < index ==> min < fitnessArray[k]
    {
      if fitnessArray[i] < min {
        min := fitnessArray[i];
        index := i;
      }
    }
  }

  /** Two exact caches of the same rows agree: rescoring a correctly cached
      population changes nothing. */
  lemma RescoreChangesNothing(rows: seq<seq<int>>, fit: seq<int>, fit': seq<int>)
    requires FitnessCached(rows, fit) && FitnessCached(rows, fit')
    ensures fit == fit'
  {
  }

  /** Score every row with the else-if count, as `main` does before the loop
      and again at the top of every iteration. */
  method ScorePopulation(parents: array2<int>, fitnessArray: array<int>)
    requires fitnessArray.Length == parents.Length0
    modifies fitnessArray
    ensures FitnessCached(Rows(parents), fitnessArray[..])
  {
    for i := 0 to parents.Length0
      invariant forall k :: 0 <= k < i ==> fitnessArray[k] == Fitness(Row(parents, k))
    {
      fitnessArray[i] := CalculateFitness(Row(parents, i));
    }
  }

  /** The rescore at the top of the loop: over an exact cache it writes back
      the values that are already there. */
  method Rescore(parents: array2<int>, fitnessArray: array<int>)
    requires fitnessArray.Length == parents.Length0 && FitnessCached(Rows(parents), fitnessArray[..])
    modifies fitnessArray
    ensures fitnessArray[..] == old(fitnessArray[..])
  {
    ghost var fit := fitnessArray[..];
    ScorePopulation(parents, fitnessArray);
    RescoreChangesNothing(Rows(parents), fit, fitnessArray[..]);
  }

  /** One turn of the main loop after `g` generations: rescore, then report a
      zero fitness, or else breed the next generation. */
  method Turn(parents: array2<int>, fitnessArray: array<int>, rand: Stream, calls: nat,
              ghost start: Population, ghost g: nat) returns (found: bool, calls': nat)
    requires fitnessArray.Length == parents.Length0 && parents.Length1 > 0 && Breedable(start, parents.Length1)
    requires AllPermutations(Rows(parents), parents.Length1) && FitnessCached(Rows(parents), fitnessArray[..])
    requires Population(Rows(parents), fitnessArray[..], calls) == Generations(start, parents.Length1, rand, g)
    requires Unsolved(start, parents.Length1, rand, g)
    modifies parents, fitnessArray
    ensures AllPermutations(Rows(parents), parents.Length1) && FitnessCached(Rows(parents), fitnessArray[..])
    ensures found <==> HasSolution(Generations(start, parents.Length1, rand, g).fit)
    ensures found ==> Population(Rows(parents), fitnessArray[..], calls') == Generations(start, parents.Length1, rand, g)
    ensures !found ==> Population(Rows(parents), fitnessArray[..], calls') == Generations(start, parents.Length1, rand, g + 1)
    ensures !found ==> Unsolved(start, parents.Length1, rand, g + 1)
  {
    Rescore(parents, fitnessArray);
    found := CheckForSolution(fitnessArray);
    calls' := calls;
    if !found {
      UnsolvedStep(start, parents.Length1, rand, g);
      ghost var rows, fit := Rows(parents), fitnessArray[..];
      calls' := NextGeneration(parents, fitnessArray, rand, calls);
      NextGenerationKeepsInvariants(rows, fit, parents.Length1, rand, calls);
    }
  }

  /** The main loop from the state `start`: rescore, break on a zero fitness,
      otherwise breed one more generation, at most `maxIteration` times. The
      arrays end as the state after `iteration` generations, no earlier state
      held a zero, the loop breaks exactly when the current one does, and no
      slot's fitness has risen. */
  method Evolve(parents: array2<int>, fitnessArray: array<int>, maxIteration: nat, rand: Stream, calls: nat,
                ghost start: Population)
    returns (iteration: nat, calls': nat)
    requires fitnessArray.Length == parents.Length0 && parents.Length1 > 0 && Breedable(start, parents.Length1)
    requires AllPermutations(Rows(parents), parents.Length1) && FitnessCached(Rows(parents), fitnessArray[..])
    requires start == Population(Rows(parents), fitnessArray[..], calls)
    modifies parents, fitnessArray
    ensures AllPermutations(Rows(parents), parents.Length1) && FitnessCached(Rows(parents), fitnessArray[..])
    ensures iteration <= maxIteration
    ensures Population(Rows(parents), fitnessArray[..], calls') == Generations(start, parents.Length1, rand, iteration)
    ensures Unsolved(start, parents.Length1, rand, iteration)
    ensures iteration < maxIteration ==> HasSolution(fitnessArray[..])
    ensures forall i :: 0 <= i < |start.fit| ==> fitnessArray[i] <= start.fit[i]
  {
    var n := parents.Length1;
    calls' := calls;
    iteration := 0;
    while iteration < maxIteration
      invariant iteration <= maxIteration
      invariant AllPermutations(Rows(parents), n) && FitnessCached(Rows(parents), fitnessArray[..])
      invariant Population(Rows(parents), fitnessArray[..], calls') == Generations(start, n, rand, iteration)
      invariant Unsolved(start, n, rand, iteration)
      decreases maxIteration - iteration
    {
      var found;
      found, calls' := Turn(parents, fitnessArray, rand, calls', start, iteration);
      if found {
        break;
      }
      iteration := iteration + 1;
    }
    GenerationsNeverWorsen(start, n, rand, iteration);
  }

  /** The whole run: fill and score the population, run the main loop, and
      report the slot whose board is printed. */
  method Solve(n: nat, populationSize: nat, maxIteration: nat, rand: Stream)
    returns (parents: array2<int>, fitnessArray: array<int>, iteration: nat, best: int)
    requires n > 0 && populationSize > 0
    ensures parents.Length0 == populationSize && parents.Length1 == n && fitnessArray.Length == populationSize
    ensures AllPermutations(Rows(parents), n) && FitnessCached(Rows(parents), fitnessArray[..])
    ensures iteration <= maxIteration
    ensures Rows(parents) == Generations(Initial(n, populationSize, rand), n, rand, iteration).rows
    ensures fitnessArray[..] == Generations(Initial(n, populationSize, rand), n, rand, iteration).fit
    ensures Unsolved(Initial(n, populationSize, rand), n, rand, iteration)
    ensures iteration < maxIteration ==> HasSolution(fitnessArray[..])
    ensures 0 <= best < populationSize
    ensures HasSolution(fitnessArray[..]) <==> IsSolution(Row(parents, best))
  {
    parents := new int[populationSize, n];
    fitnessArray := new int[populationSize];
    var calls := InitialiseParents(parents, rand, 0);
    ghost var rows := Rows(parents);
    InitialRowsFilled(rows, n, populationSize, rand);
    ScorePopulation(parents, fitnessArray);
    assert Rows(parents) == rows;
    CacheIsFitnessOf(rows, fitnessArray[..]);
    var calls';
    iteration, calls' := Evolve(parents, fitnessArray, maxIteration, rand, calls, Initial(n, populationSize, rand));
    best := BestIndex(fitnessArray);
    BestIsSolution(Rows(parents), fitnessArray[..], best);
  }
}
