# N-queens genetic algorithm, modelled in Dafny

The repository solves the N-queens puzzle with a genetic algorithm. A board (a
chromosome) is a sequence of N integers: entry i is the column of the queen in row
i. Its fitness is the number of pairs of rows whose queens share a column or a
diagonal, so fitness 0 means a solution. There are three variants of the solver,
and each one has its own module here:

- `SteadyState` (`steady_state.dfy`) models `nQueenGA.cpp`.
  - A fixed population lives in the array `parents[P][N]`, with a cache
    `fitnessArray[P]` of the fitness of each row.
  - Rows start as snapshots of one cumulatively swap-shuffled buffer.
  - Each generation breeds one child per slot: a copy of a binary-tournament
    winner with two drawn positions swapped.
  - An elitist rule then lets each child replace its own slot. The replacement is
    coin-free when either fitness is below 3. Otherwise it also needs a coin of 1.
  - The driver loops until a cached fitness is 0 or the iteration cap is hit.
- `SteadyStateV2` (`steady_state_v2.dfy`) models `olderVersions/nQueenGA_2.cpp`.
  It reuses the newer version's initialisation, mutation and solution check.
  What differs is modelled separately:
  - the else-if conflict test;
  - the tournament that writes its winner through an out-parameter;
  - the nested-if replacement;
  - the printer's argmin scan from slot 0;
  - a main loop that rescores every row at the top of each iteration.

  Its own generation step (`SteadyStateV2.NextGeneration`) is built from the
  out-parameter tournament, the else-if count for the children and the
  nested-if replacement. It is proved to yield the same next state as the
  newer one (`SteadyState.NextRows`, `NextFitness` and `NextCalls`), so both
  drivers are stated against the same `SteadyState.Generations`. The else-if
  count is proved equal to `Queens.Fitness`, and the argmin scan has a
  contract of its own.
- `CrossoverGA` (`crossover_ga.dfy`) models `olderVersions/nQueenGA.cpp`.
  - `Board` is a value, as the C++ copies its vector everywhere.
  - `GeneticAlgorithm` is a class that owns the population.
  - Every generation sorts the population by fitness and stops when the front
    board has fitness 0.
  - Otherwise it replaces the whole population with children. Each child is the
    window crossover of two tournament winners, followed by adaptive mutation.

Shared modules:

- `Queens` (`queens.dfy`) holds:
  - the attack relation and the fitness count, as a recursive count and as the
    set of attacking pairs;
  - permutations of 0..N-1, swaps and the swap-shuffle.
- `Grid` (`grid.dfy`) views rows of a two-dimensional array as sequences.
- `Rand` (`rand.dfy`) models `rand()` as an arbitrary stream of naturals.
  - The k-th call returns `rand(k)`, and `rand() % b` is `Draw(rand, k, b)`.
  - Every operation that draws takes the stream and the number of draws already
    made, and returns the new count.
  - So each run is a deterministic function of the stream, in the source's draw
    order.

The ascending board 0, 1, ..., N-1 has every pair of queens on a diagonal. The
code therefore scores it N(N-1)/2, not N-1 as it is sometimes described. The model
follows the code (`Queens.IdentityFitness`).

## Model

| member | source | states |
|---|---|---|
| Rand.Draw | nQueenGA.cpp:53 | `rand() % bound` lies in [0, bound) |
| Queens.RowPairsCount | nQueenGA.cpp:67-68 | the inner loop's count for row i equals the number of attacking pairs (i, j) with j after i |
| Queens.PairsBeforeCount | nQueenGA.cpp:66-68 | the nested loop's count over the first i rows equals the number of attacking pairs starting there |
| Queens.FitnessCountsAttackingPairs | nQueenGA.cpp:63-70 | the fitness is exactly the number of pairs i < j that share a column or a diagonal |
| Queens.FitnessZeroIffSolution | nQueenGA.cpp:63-70 | the fitness is 0 if and only if no two queens attack each other |
| Queens.RowConflictsBound | nQueenGA.cpp:67-68 | row i adds at most one conflict per later row |
| Queens.ConflictsBeforeBound | nQueenGA.cpp:66-68 | the first i rows add at most i(2N-i-1)/2 conflicts |
| Queens.FitnessBound | nQueenGA.cpp:63-70 | the fitness lies in [0, N(N-1)/2] |
| Queens.Identity | nQueenGA.cpp:47 | the buffer initialised to 0..N-1 holds k at position k |
| Queens.PermutationShape | nQueenGA.cpp:46-59 | a permutation of 0..N-1 has length N, entries in [0, N) and no repeated entry |
| Queens.PermutationFitnessIsDiagonal | nQueenGA.cpp:68 | on a permutation the column test never fires: the attacking pairs are exactly the diagonal pairs |
| Queens.IdentityRowConflicts | nQueenGA.cpp:67-68 | on the ascending board, row i conflicts with every later row |
| Queens.IdentityConflictsBefore | nQueenGA.cpp:66-68 | on the ascending board, the first i rows give exactly i(2N-i-1)/2 conflicts |
| Queens.IdentityFitness | nQueenGA.cpp:63-70 | the ascending board scores exactly N(N-1)/2 |
| Queens.Swap | nQueenGA.cpp:75-77 | a swap exchanges the two positions, keeps every other entry and the multiset, and is a no-op on equal positions |
| Queens.ShufflePrefix | nQueenGA.cpp:51-57 | the first k shuffle steps keep the length and the multiset of entries |
| Grid.CopyRow | nQueenGA.cpp:95 | the row copy overwrites row i of the destination with the child's row and changes no other row |
| SteadyState.SolutionInCache | nQueenGA.cpp:146-150 | with an exact cache, a zero fitness in the cache means that some row is a solution, and conversely |
| SteadyState.Shuffled | nQueenGA.cpp:46-58 | the shared buffer keeps N entries across every shuffle pass |
| SteadyState.ShufflePassKeepsPermutation | nQueenGA.cpp:51-57 | a shuffle pass maps a permutation of 0..N-1 to a permutation |
| SteadyState.ShuffledIsPermutation | nQueenGA.cpp:46-59 | the buffer is a permutation of 0..N-1 after any number of passes, although it is never reset |
| SteadyState.SwapEntries | nQueenGA.cpp:54-56 | the three-assignment exchange through `temp` is the swap of the two positions |
| SteadyState.ShufflePass | nQueenGA.cpp:51-57 | one pass over the buffer makes N draws and leaves the buffer as the N-step shuffle of its old contents |
| SteadyState.StoreRow | nQueenGA.cpp:59 | row l becomes the buffer's contents and no other row changes |
| SteadyState.IdentityBuffer | nQueenGA.cpp:46-47 | the fresh buffer holds 0..N-1 |
| SteadyState.ShuffledRowsStep | nQueenGA.cpp:49-60 | storing the buffer after pass l+1 in row l extends the "rows are successive buffer states" invariant |
| SteadyState.ShuffledRowsArePermutations | nQueenGA.cpp:49-60 | rows filled from the shuffled buffer are all permutations |
| SteadyState.FillRow | nQueenGA.cpp:50-60 | one round shuffles the buffer once more, stores it in row l and moves the stream by N draws |
| SteadyState.InitialiseParents | nQueenGA.cpp:43-61 | row l holds the buffer after l+1 cumulative passes, every row is a permutation of 0..N-1, and P·N draws are made |
| SteadyState.CalculateFitness | nQueenGA.cpp:63-70 | the nested counting loop returns the fitness |
| SteadyState.PerformMutation | nQueenGA.cpp:72-78 | the row becomes the swap of the two drawn positions and every other row is unchanged |
| SteadyState.TournamentSelection | nQueenGA.cpp:80-84 | returns one of the two drawn slots, whose fitness is at most both, and the second slot on a tie |
| SteadyState.Selected | nQueenGA.cpp:86-108 | the replacement pass yields one row per slot |
| SteadyState.SelectedFitness | nQueenGA.cpp:86-108 | the replacement pass yields one cached fitness per slot |
| SteadyState.SelectionSlots | nQueenGA.cpp:86-108 | each slot keeps its row and fitness, or takes both from its child only when the child is strictly fitter; no slot's fitness rises |
| SteadyState.EliteIgnoresCoin | nQueenGA.cpp:90-97 | when either fitness is below 3, the coin plays no part and the child replaces exactly when it is strictly fitter |
| SteadyState.SelectionKeepsInvariants | nQueenGA.cpp:86-108 | replacement keeps every row a permutation and every cached fitness exact |
| SteadyState.ReplaceSlot | nQueenGA.cpp:90-106 | slot i is replaced (row and fitness) exactly when the rule holds, and otherwise left alone; a coin is drawn only for a non-elite slot |
| SteadyState.ParentSelection | nQueenGA.cpp:86-108 | the rows and cache become the replacement pass's result, with one coin per non-elite slot |
| SteadyState.FirstWinner | nQueenGA.cpp:118-119 | the first tournament's winner is a valid slot; the second tournament's draws are spent but unused |
| SteadyState.Offspring | nQueenGA.cpp:118-124 | a child has N entries |
| SteadyState.Offsprings | nQueenGA.cpp:116-125 | one child of N entries per slot |
| SteadyState.FitnessOf | nQueenGA.cpp:124 | the children's fitness array is an exact cache |
| SteadyState.NextRows | nQueenGA.cpp:110-129 | a generation keeps the population size |
| SteadyState.NextFitness | nQueenGA.cpp:110-129 | a generation keeps the cache size |
| SteadyState.OffspringsArePermutations | nQueenGA.cpp:121-123 | a child of a permutation is a permutation, since mutation only swaps |
| SteadyState.NextGenerationKeepsInvariants | nQueenGA.cpp:110-129 | a generation keeps every row a permutation and every cached fitness exact |
| SteadyState.NextGenerationNeverWorsens | nQueenGA.cpp:110-129 | no slot's fitness rises in a generation, so a solution, once present, stays present |
| SteadyState.BreedChild | nQueenGA.cpp:118-124 | child row i becomes the mutated copy of the first winner, its fitness is stored, and six draws are made |
| SteadyState.BreedChildren | nQueenGA.cpp:116-125 | the child array holds every slot's child and the children's fitness array is exact |
| SteadyState.NextGeneration | nQueenGA.cpp:110-129 | the rows, cache and stream position become those of one generation of breeding and replacement |
| SteadyState.CheckForSolution | nQueenGA.cpp:146-150 | true exactly when some cached fitness is 0 |
| SteadyState.EvaluatePopulation | nQueenGA.cpp:24 | after the scoring loop the cache is exact |
| SteadyState.BestIndex | nQueenGA.cpp:133-138 | the printed slot holds the least fitness, and every earlier slot is strictly worse |
| SteadyState.BestIsSolution | nQueenGA.cpp:131-141 | with an exact cache, the printed board is a solution exactly when the cache holds a zero |
| SteadyState.Generation | nQueenGA.cpp:29 | one generation keeps one cached fitness per row, the number of rows and their length |
| SteadyState.Generations | nQueenGA.cpp:27-31 | any number of generations keeps one cached fitness per row, the number of rows and their length |
| SteadyState.GenerationsKeepInvariants | nQueenGA.cpp:27-31 | after any number of generations every row is still a permutation of 0..N-1 and the cache is still exact |
| SteadyState.GenerationsNeverWorsen | nQueenGA.cpp:27-31 | after any number of generations no slot's cached fitness is higher than at the start |
| SteadyState.SolutionPersists | nQueenGA.cpp:27-31 | a zero in the cache after g generations is still in the cache after every later generation |
| SteadyState.InitialRows | nQueenGA.cpp:23 | the initialisation fills P rows of N entries, row l being the buffer after l+1 passes |
| SteadyState.Initial | nQueenGA.cpp:21-24 | the scored start has P rows, one cached fitness per row and rows of N entries |
| SteadyState.InitialPopulation | nQueenGA.cpp:21-24 | the population is P permutations of 0..N-1 with an exact cache, and rows, cache and P·N draws are exactly the state `Initial` |
| SteadyState.Advance | nQueenGA.cpp:29-30 | one loop turn moves the arrays from the state after g generations to the state after g+1 and keeps the invariants |
| SteadyState.RunGenerations | nQueenGA.cpp:27-31 | the arrays end as the state after `iteration` generations from the start, no earlier state had a zero in its cache, and stopping before the cap means the cache holds a zero |
| SteadyState.Evolve | nQueenGA.cpp:27-31 | the arrays end as the state after `iteration` generations from the arrays given, no earlier state had a zero, stopping before the cap means a zero, no slot's fitness rose, and the invariants hold |
| SteadyState.Solve | nQueenGA.cpp:19-41 | the arrays end as `Initial` after `iteration` generations, no earlier generation held a zero, an early stop means a solution, and the printed board is a solution exactly when one exists |
| SteadyStateV2.CalculateFitness | olderVersions/nQueenGA_2.cpp:40-52 | the else-if count equals the fitness, and so the number of attacking pairs |
| SteadyStateV2.TournamentSelection | olderVersions/nQueenGA_2.cpp:71-78 | writes one of the two drawn slots, the fitter one and the second on a tie, as in the newer tournament |
| SteadyStateV2.ReplaceSlot | olderVersions/nQueenGA_2.cpp:87-110 | the nested-if slot body replaces under exactly the same rule as the newer one |
| SteadyStateV2.ParentSelection | olderVersions/nQueenGA_2.cpp:82-112 | the rows and cache become the replacement pass's result |
| SteadyStateV2.BreedChild | olderVersions/nQueenGA_2.cpp:123-129 | child row i becomes the first out-parameter tournament winner's row with two drawn positions swapped, its else-if fitness is stored, and six draws are spent, as in the newer version |
| SteadyStateV2.BreedChildren | olderVersions/nQueenGA_2.cpp:117-130 | the child array is the generation of children of the newer version, with an exact child cache, after six draws per child |
| SteadyStateV2.NextGeneration | olderVersions/nQueenGA_2.cpp:115-133 | the rows, cache and stream position become the newer version's next state of the old ones |
| SteadyStateV2.BestIndex | olderVersions/nQueenGA_2.cpp:138-147 | the scan from slot 0 picks the first slot of least fitness |
| SteadyStateV2.RescoreChangesNothing | olderVersions/nQueenGA_2.cpp:180 | rescoring a population whose cache is exact leaves the cache as it was |
| SteadyStateV2.ScorePopulation | olderVersions/nQueenGA_2.cpp:174 | the else-if scoring loop leaves an exact cache |
| SteadyStateV2.Rescore | olderVersions/nQueenGA_2.cpp:180 | the rescore at the top of the loop leaves an exact cache array as it was |
| SteadyStateV2.Turn | olderVersions/nQueenGA_2.cpp:180-185 | one iteration breaks exactly when the state after g generations holds a zero, and otherwise moves the arrays to the state after g+1 |
| SteadyStateV2.Evolve | olderVersions/nQueenGA_2.cpp:178-188 | the arrays end as the state after `iteration` generations from the start, no earlier state held a zero, breaking before the cap means a zero, no slot's fitness rose, and the invariants hold |
| SteadyStateV2.Solve | olderVersions/nQueenGA_2.cpp:166-200 | the arrays end as `Initial` after `iteration` generations, no earlier generation held a zero, an early stop means a solution, and the printed board is a solution exactly when one exists |
| CrossoverGA.InsertKeepsOrder | olderVersions/nQueenGA.cpp:147 | inserting a board into a fitness-ordered sequence keeps it ordered |
| CrossoverGA.InsertAddsOne | olderVersions/nQueenGA.cpp:147 | inserting adds exactly the one board |
| CrossoverGA.InsertionSortOrders | olderVersions/nQueenGA.cpp:147 | the insertion sort orders the boards by fitness |
| CrossoverGA.InsertionSortPermutes | olderVersions/nQueenGA.cpp:147 | the insertion sort keeps exactly the same boards |
| CrossoverGA.InsertionSortSorts | olderVersions/nQueenGA.cpp:147 | sorting by fitness yields an ordered rearrangement of the same boards |
| CrossoverGA.FrontIsFittest | olderVersions/nQueenGA.cpp:60-61 | the front after sorting is one of the boards, and none is fitter |
| CrossoverGA.InsertByFitness | olderVersions/nQueenGA.cpp:147 | inserting a board after those not worse than it is the reference insertion |
| CrossoverGA.SortByFitness | olderVersions/nQueenGA.cpp:147 | the sort returns the boards ordered by fitness, as a permutation of its input |
| CrossoverGA.Drawn | olderVersions/nQueenGA.cpp:59 | a tournament draws exactly `tournamentSize` members |
| CrossoverGA.Crossover | olderVersions/nQueenGA.cpp:73-77 | the child has n entries: this board's inside the window [start, end], the other's outside it |
| CrossoverGA.CrossoverMayBreakPermutation | olderVersions/nQueenGA.cpp:65-80 | crossing [0,1] with [1,0] on the window [0,0] gives [0,0], which is not a permutation |
| CrossoverGA.CrossoverWithSelf | olderVersions/nQueenGA.cpp:73-77 | crossing a board with itself returns it, whatever the window |
| CrossoverGA.MutationCalls | olderVersions/nQueenGA.cpp:85-94 | visiting k positions makes between k and 2k draws |
| CrossoverGA.Target | olderVersions/nQueenGA.cpp:89 | the swap partner lies in [0, size) |
| CrossoverGA.Mutate | olderVersions/nQueenGA.cpp:83-95 | mutation keeps the board's length |
| CrossoverGA.MutateKeepsEntries | olderVersions/nQueenGA.cpp:83-95 | mutation keeps the board's multiset of columns |
| CrossoverGA.NonPositiveRateKeepsBoard | olderVersions/nQueenGA.cpp:87 | with a rate of 0 or less the board is unchanged and one draw is spent per position |
| CrossoverGA.FullRateDrawsTwice | olderVersions/nQueenGA.cpp:87-89 | with a rate of 100 or more every position mutates, spending two draws each |
| CrossoverGA.MutationKeepsPermutation | olderVersions/nQueenGA.cpp:83-95 | mutation turns a permutation into a permutation |
| CrossoverGA.SwapPass | olderVersions/nQueenGA.cpp:45-51 | the swap loop is the size-step shuffle and spends one draw per position |
| CrossoverGA.VisitPosition | olderVersions/nQueenGA.cpp:85-94 | one loop iteration advances the mutated board and the stream by exactly one position |
| CrossoverGA.Board.RandomChromosome | olderVersions/nQueenGA.cpp:41-53 | the board is the shuffled identity, a permutation of 0..size-1, after size draws |
| CrossoverGA.Board.TournamentSelection | olderVersions/nQueenGA.cpp:56-62 | the winner is one of the drawn members and none of them is fitter |
| CrossoverGA.Board.MultiPointCrossover | olderVersions/nQueenGA.cpp:65-80 | the child is the crossover on the window from the smaller to the larger draw; each entry comes from one of the parents |
| CrossoverGA.Board.AdaptiveMutation | olderVersions/nQueenGA.cpp:83-95 | the board becomes the specified mutation, with the same length and multiset, and the stream moves accordingly |
| CrossoverGA.WinnerIsFittestDrawn | olderVersions/nQueenGA.cpp:56-62 | the winner is a drawn member, no drawn member is fitter, and it has the population's board length |
| CrossoverGA.Crossed | olderVersions/nQueenGA.cpp:127 | the crossover of two winners has n entries |
| CrossoverGA.Child | olderVersions/nQueenGA.cpp:127-128 | a child is one board of n entries |
| CrossoverGA.ChildRearrangesCrossover | olderVersions/nQueenGA.cpp:127-128 | the child holds the same columns as the crossover it came from |
| CrossoverGA.BreedOne | olderVersions/nQueenGA.cpp:125-129 | one breeding step yields one board of n entries |
| CrossoverGA.Offspring | olderVersions/nQueenGA.cpp:120-132 | a generation of `count` children has `count` boards of n entries |
| CrossoverGA.NonPositiveRateChildIsCrossover | olderVersions/nQueenGA.cpp:127-128 | with a rate of 0 or less a child is exactly the crossover of the two winners |
| CrossoverGA.CrossAndMutate | olderVersions/nQueenGA.cpp:127-128 | crossing and mutating gives the specified child |
| CrossoverGA.MakeChild | olderVersions/nQueenGA.cpp:125-129 | two tournaments, a crossover and a mutation give the specified bred board |
| CrossoverGA.SeedCallsIsProduct | olderVersions/nQueenGA.cpp:156-159 | seeding `count` boards of `size` entries takes exactly count·size draws |
| CrossoverGA.RandomBoards | olderVersions/nQueenGA.cpp:156-159 | the seeding loop's boards: `count` boards of `size` entries |
| CrossoverGA.Seeded | olderVersions/nQueenGA.cpp:155-159 | appending `count` random boards grows the population by `count` and keeps every board `size` long |
| CrossoverGA.Front | olderVersions/nQueenGA.cpp:165-168 | the board a sort by fitness puts in front is one of the boards, and none is fitter |
| CrossoverGA.NextPopulation | olderVersions/nQueenGA.cpp:165-172 | one generation of sorting and breeding gives exactly `populationSize` boards of n entries |
| CrossoverGA.Evolved | olderVersions/nQueenGA.cpp:162-173 | after any number of generations the population is non-empty with boards of n entries |
| CrossoverGA.GeneticAlgorithm.constructor | olderVersions/nQueenGA.cpp:110-117 | stores the parameters, with no generations counted and an empty population |
| CrossoverGA.GeneticAlgorithm.GenerateOffspring | olderVersions/nQueenGA.cpp:120-132 | the population becomes exactly `populationSize` bred children of size-long boards |
| CrossoverGA.GeneticAlgorithm.EvaluateFitness | olderVersions/nQueenGA.cpp:145-148 | the population is reordered by fitness without adding or losing a board |
| CrossoverGA.GeneticAlgorithm.Seed | olderVersions/nQueenGA.cpp:156-159 | the population becomes the old one followed by the random boards, with the stream moved past their draws |
| CrossoverGA.GeneticAlgorithm.Turn | olderVersions/nQueenGA.cpp:165-172 | one round after k generations stops exactly on a front of fitness 0, leaving the sorted population with a solution in front; otherwise the population becomes generation k+1 |
| CrossoverGA.GeneticAlgorithm.Run | olderVersions/nQueenGA.cpp:162-173 | genCount grows by the rounds run, at most `generations`; no earlier front had fitness 0; an early exit leaves the sorted generation with a solution in front, and a full run leaves the last generation bred |
| CrossoverGA.GeneticAlgorithm.Solve | olderVersions/nQueenGA.cpp:151-176 | from the seeded population, genCount grows by the rounds run, at most `generations`; no earlier front had fitness 0; an early exit leaves that generation sorted with a solution in front; a full run leaves the last generation bred |

## Left out

- Some functions of olderVersions/nQueenGA_2.cpp have no member of their own, because their code is that of nQueenGA.cpp apart from the float bookkeeping below: `InitialiseParents` (lines 17-37), `PerformMutation` (lines 56-63) and `CheckForSolution` (lines 161-164). `SteadyStateV2.Solve` calls `SteadyState.InitialiseParents`. `SteadyStateV2.BreedChild` calls `SteadyState.PerformMutation`. `SteadyStateV2.Turn` calls `SteadyState.CheckForSolution`.
- `Board::Fitness` (olderVersions/nQueenGA.cpp:26-38) is the same else-if count as olderVersions/nQueenGA_2.cpp's, so `CrossoverGA` scores boards with `SteadyStateV2.CalculateFitness`.
- Console output and timing are not modelled: `printf`, `std::cout`, the drawing in `PrintBoard` and `PrintSolution`, and `clock()`. Only the choice of the printed slot is modelled.
- `srand(time(NULL))` is not modelled: `rand()` is an arbitrary stream, so every property holds for every seed. The model makes no statistical claim (uniformity, modulo bias, acceptance rates), and it does not claim that a solution is ever found.
- `GenerateOffspringThread` (olderVersions/nQueenGA.cpp:135-142) is not modelled. Its eight threads share `rand()`, read `_population` through the `parents` reference, and each overwrite `_population`: a data race. `GeneticAlgorithm.Turn` runs one `GenerateOffspring` per generation instead.
- The float `mutationProbability` and `mutationPercentage` bookkeeping of olderVersions/nQueenGA_2.cpp (lines 56, 66, 171, 184, 194) is not modelled. It is floating point and never affects the algorithm, so `SteadyState.PerformMutation` stands for both versions.
- The iteration progress line of olderVersions/nQueenGA_2.cpp (line 187) is output.
- `int` is unbounded here. The counts involved (at most N(N-1)/2 conflicts, and loop counters up to P, N and the caps) stay far below 2^31 for the sizes the program uses.
- The fixed sizes `nQSize`, `parentCount` and `maxIteration`, and the constants in both `main` functions, are parameters. Population size and iteration caps are `nat`.
- `Board::_size` and `Board::GetBoard` are not modelled. Every board the program builds has `_size` equal to its vector's length, so the model uses the length.
- `std::sort` leaves the order of boards with equal fitness unspecified. The model sorts with a stable insertion sort, so it fixes that order: `SortByFitness`, `GeneticAlgorithm.EvaluateFitness`, `Board.TournamentSelection` and the generations of `GeneticAlgorithm.Solve` are stated against `InsertionSort`. Among equally fit boards, the tournament winner and the order of the next population are therefore the model's choice. What holds for every sort is proved separately: the result is ordered by fitness and is a permutation (`InsertionSortSorts`), and the winner is a drawn board with none fitter (`WinnerIsFittestDrawn`).
- The second tournament in `NextGeneration` (nQueenGA.cpp:119) picks a winner that the source never uses. `SteadyState.BreedChild` takes its two draws and computes its index, but no contract states anything about that index.
