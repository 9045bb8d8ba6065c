# cr2_estimation core in Dafny

This project models the computational core of cr2_estimation. For every annotated chord
diagram of a given size, the program estimates the largest crossing number it can reach.

- **Linear functions.** A diagram's cost is a linear function with integer coefficients
  over the chord variables, plus a constant coefficient. `linear_function` becomes the
  value type `LinearFunction`. It has `Add`, `Scale` and `AddConstant`, and its
  lexicographic order on coefficients is `LexLess`. The compound assignments and the
  comparison operators are methods with loops, proved against these functions.
- **The base class.** `chord_diagram_base` (the accumulated cost `total_increaser` and
  the number of eliminations) becomes the class `ChordDiagramBase`.
- **The two diagram encodings.** Each shares its base object by composition:
  - `pre_ACD` becomes `PreAcd`: two stacks of letters on either side of the simple curve.
  - `ACD` becomes `Acd`: a cyclic sequence of chord labels with one weight per gap.
- **Value-level reading and properties.** Each class has a value-level reading.
  `State()` returns a `PreAcdState` or an `AcdState`. Pure step functions give the
  meaning of:
  - `eliminate_from_side`: `SideElimination`;
  - `eliminate_turn`: `TurnElimination`;
  - `get_all_possible_turns`: `PossibleTurns`.

  The in-place methods are proved to produce exactly those states. The properties
  modules then prove what the source's comments promise:
  - a cyclic side elimination and every turn elimination remove both ends of exactly one
    chord; a pre-diagram side elimination removes every occurrence of the outermost label
    (one or two letters) and nothing else;
  - the number of eliminations grows by one;
  - the accumulated cost never decreases;
  - eliminating on the right of a cyclic diagram is eliminating on the left of its
    mirror image.
- **The search.** `all_linear_functions_chord_diagram` collects the costs reachable after
  a given number of eliminations. It is specified by `PreAcdReachable` and
  `AcdReachable`, in the source's order: every turn, then the left side, then the right
  side.
- **The enumeration.** `walk_trough_all_diagrams` and `calculate_estimate` build every
  interesting label sequence. `not_interesting` prunes branches and
  `possible_values` gives the candidate next labels. The set of completed sequences a
  walk reaches is `Diagrams`.
  - The walk is proved to count exactly those diagrams and to return the maximum
    estimate over them.
  - The eleven start prefixes used for sizes of at least 6 are proved to split that set
    into disjoint parts.
  - So the merged counts and maxima are those of the single walk.

The linear program solver `create_solver` is outside the model. It is a parameter
`solve: (set<LinearFunction>, bool) -> real`, and estimates are `real` values.

Three behaviours of the code worth noting, each modelled as the code has it:

- `ACD::eliminate_turn` does not check that the two labels are adjacent. It finds the
  first occurrence of the label and erases it with the next position.
  `pre_ACD::eliminate_turn` always returns true.
- `pre_ACD` diagrams need not use every label twice. `walk_trough_all_diagrams` offers a
  fresh label to a pre-diagram even once `length` labels are in use. For example,
  `[1, 2]` is a pre-diagram of size 1 (`PreAcdAdmitsSingleLabels`). The partner search
  of `eliminate_from_side` may therefore find nothing, and that case is modelled.
- For a cyclic diagram, the weight the partner's gap receives is read from the gap next
  to the partner, away from the side that was eliminated:
  - `ACD.h:59` on the left;
  - `ACD.h:78` on the right.

## Model

| member | source | states |
|---|---|---|
| LinearFunctions.Unit | linear_function_coefficients.h:24-27 | the constructed function has the requested number of variables, the given value at the chosen variable and 0 everywhere else |
| LinearFunctions.Zero | chord_diagram_base_class.h:14 | the initial cost has every coefficient 0 |
| LinearFunctions.MulAssign | linear_function_coefficients.h:37-42 | after the loop every coefficient is multiplied by mult, which is Scale(mult, p) |
| LinearFunctions.AddAssign | linear_function_coefficients.h:44-49 | after the loop every coefficient is the sum of the two coefficients, which is Add(p, q) |
| LinearFunctions.Equals | linear_function_coefficients.h:70-76 | the early-exit loop answers true exactly when the two functions are equal |
| LinearFunctions.GreaterOrEqual | linear_function_coefficients.h:78-86 | the loop answers true exactly when a is not lexicographically smaller than b |
| LinearFunctions.LessOrEqual | linear_function_coefficients.h:88-90 | true exactly when b is not lexicographically smaller than a |
| LinearFunctions.LessThan | linear_function_coefficients.h:93-101 | the loop over all but the last coefficient, followed by the comparison of the last, answers true exactly when a is lexicographically smaller than b |
| LinearFunctions.GreaterThan | linear_function_coefficients.h:103-105 | true exactly when b is lexicographically smaller than a |
| LinearFunctions.AddPreservesArity | linear_function_coefficients.h:62-64 | the sum has the arity of its operands and adds them coefficient by coefficient |
| LinearFunctions.AddCommutes | linear_function_coefficients.h:62-64 | addition of linear functions is commutative |
| LinearFunctions.AddAssociates | linear_function_coefficients.h:62-64 | addition of linear functions is associative |
| LinearFunctions.ZeroIsAddIdentity | linear_function_coefficients.h:24-27 | adding the zero function changes nothing |
| LinearFunctions.DoubleIsSelfSum | linear_function_coefficients.h:58-60 | 2 * p is p + p |
| LinearFunctions.SubtractUndoesAdd | linear_function_coefficients.h:58-64 | adding b and then -1 * b gives back a |
| LinearFunctions.AddConstantTouchesOnlyConstant | linear_function_coefficients.h:51-55 | adding an integer changes only the constant coefficient (index 0), by exactly that integer |
| LinearFunctions.LexLessIrreflexive | linear_function_coefficients.h:93-101 | no function is smaller than itself |
| LinearFunctions.LexLessTransitive | linear_function_coefficients.h:93-101 | the order is transitive, as std::set requires |
| LinearFunctions.LexLessTrichotomy | linear_function_coefficients.h:93-101 | of two functions of equal arity exactly one is smaller, or they are equal |
| LinearFunctions.SetEquivalenceIsEquality | linear_function_coefficients.h:70-101 | two functions are equivalent under `<` (neither is smaller) exactly when they are equal, so a std::set of costs drops exactly the duplicates |
| LinearFunctions.AddNonNegative | linear_function_coefficients.h:44-49 | adding a function with non-negative coefficients never decreases any coefficient and keeps non-negative functions non-negative |
| LinearFunctions.ScaleNonNegative | linear_function_coefficients.h:37-42 | a non-negative multiple of a non-negative function is non-negative |
| LinearFunctions.AddConstantNonNegative | linear_function_coefficients.h:51-55 | adding a non-negative constant never decreases a coefficient |
| LinearFunctions.DominatesTransitive | linear_function_coefficients.h:44-49 | coefficient-wise domination is transitive |
| ChordDiagrams.AddCrossing | pre_ACD.h:76-77 | the optional +1 for the extra crossing keeps the arity |
| ChordDiagrams.AddCrossingGrows | pre_ACD.h:76-77 | the optional +1 never decreases a coefficient and keeps non-negative functions non-negative |
| ChordDiagrams.ChargeGrows | pre_ACD.h:74-77 | charging 2 * p (+1 unless in the limit case) to a non-negative total keeps it non-negative and never decreases it |
| ChordDiagrams.MergeNonNegative | pre_ACD.h:89-92 | the weight a partner's neighbour receives, a + 2 * p + b (+1), is non-negative when its parts are |
| ChordDiagrams.ChordDiagramBase.constructor | chord_diagram_base_class.h:14 | a new base has the zero cost of the given arity and no eliminations |
| ChordDiagrams.ChordDiagramBase.Copy | chord_diagram_base_class.h:10-11 | a copy holds the same cost and count |
| ChordDiagrams.ChordDiagramBase.GetIncreaser | chord_diagram_base_class.h:28-30 | returns the accumulated cost |
| ChordDiagrams.ChordDiagramBase.GetNumberOfIncreases | chord_diagram_base_class.h:32-34 | returns the number of eliminations |
| PreAcdDiagrams.Initial | pre_ACD.h:55-63 | the diagram built from 2h labels has letters of one common arity (2h + 1 variables) |
| PreAcdDiagrams.FirstPartner | pre_ACD.h:39-44 | the index of the first letter with the same label and a different id, or the side's length when there is none |
| PreAcdDiagrams.Partner | pre_ACD.h:38-52 | find_letter: the first partner on the left, else the first on the right, else none, with nothing skipped before it |
| PreAcdDiagrams.RemovePartner | pre_ACD.h:82-95 | erasing the partner keeps the cost and arities and removes exactly one letter from the partner's side, or nothing when there is no partner |
| PreAcdDiagrams.SideElimination | pre_ACD.h:68-98 | fails exactly when the side is empty; otherwise the result is uniform and smaller |
| PreAcdDiagrams.TurnElimination | pre_ACD.h:101-115 | removes exactly two letters and keeps the arity |
| PreAcdDiagrams.SideTurns | pre_ACD.h:122-129 | the indices one side contributes are exactly the signed positions i > 0 whose letter repeats the label below it |
| PreAcdDiagrams.PossibleTurns | pre_ACD.h:120-131 | an index is listed exactly when it names an adjacent equal pair: negative on the left, positive on the right, never 0 |
| PreAcdDiagrams.AppendSideTurns | pre_ACD.h:122-129 | the downward loop appends exactly the turn indices of one side, in the source's order |
| PreAcdDiagrams.InitialSides | pre_ACD.h:56-62 | the constructor's loop builds the left stack from the first half and the right stack from the second half reversed |
| PreAcdDiagrams.PreAcd.constructor | pre_ACD.h:55-63 | the new object is the initial diagram of the labels |
| PreAcdDiagrams.PreAcd.Copy | brute_force_functions.h:48-51 | the copy the search works on has the same state as the original |
| PreAcdDiagrams.PreAcd.FindLetter | pre_ACD.h:38-52 | the two search loops return exactly Partner |
| PreAcdDiagrams.PreAcd.RemovePartnerInPlace | pre_ACD.h:82-95 | the in-place update reaches RemovePartner of the old state |
| PreAcdDiagrams.PreAcd.ChargeOutermostInPlace | pre_ACD.h:74-77 | the in-place update reaches ChargeOutermost of the old state |
| PreAcdDiagrams.PreAcd.AbsorbOutermostInPlace | pre_ACD.h:79-80 | the in-place update reaches AbsorbOutermost of the old state |
| PreAcdDiagrams.PreAcd.PopOutermostInPlace | pre_ACD.h:96 | the in-place update reaches PopOutermost of the old state |
| PreAcdDiagrams.PreAcd.EliminateFromSide | pre_ACD.h:68-98 | returns false and changes nothing exactly when the side is empty; otherwise the new state is SideElimination of the old |
| PreAcdDiagrams.PreAcd.EliminateTurn | pre_ACD.h:101-115 | the new state is TurnElimination of the old and the answer is true |
| PreAcdDiagrams.PreAcd.GetAllPossibleTurns | pre_ACD.h:120-131 | returns exactly PossibleTurns of the state |
| PreAcdProperties.InitialLabels | pre_ACD.h:59-62 | the left stack holds the first half of the labels in order, the right stack the second half reversed |
| PreAcdProperties.InitialIds | pre_ACD.h:59-62 | ids are 1..h on the left and h+1..2h on the right |
| PreAcdProperties.InitialWeights | pre_ACD.h:59-62 | each letter's weight is the unit function of its own id, and the cost starts at zero with no eliminations |
| PreAcdProperties.InitialLabelCount | pre_ACD.h:55-63 | the diagram holds exactly the given labels, with multiplicity |
| PreAcdProperties.InitialIdCount | pre_ACD.h:59-62 | every id 1..2h occurs exactly once |
| PreAcdProperties.InitialWellFormed | pre_ACD.h:55-63 | built from labels used at most twice, ids are unique and every label occurs at most twice |
| PreAcdProperties.PartnerByKeys | pre_ACD.h:38-52 | the partner search depends only on labels and ids, not on weights |
| PreAcdProperties.RemovePartnerKeys | pre_ACD.h:82-95 | erasing the partner removes exactly its (label, id) from its side and leaves the other side as it was |
| PreAcdProperties.BeforePartnerSides | pre_ACD.h:79-83 | the outermost letter is absorbed into its neighbour before the partner search, and the partner found is the one the original state has |
| PreAcdProperties.PopOutermostSides | pre_ACD.h:96 | pop removes exactly the outermost letter of the side |
| PreAcdProperties.RemovePartnerSides | pre_ACD.h:85-95 | letter by letter: the letters below the partner's lower neighbour keep their places, that neighbour (if any) receives its own weight, the partner's and twice the eliminated weight (+1), the partner is gone and the letters above it move down by one; the other side is untouched |
| PreAcdProperties.SideEliminationWithoutPartner | pre_ACD.h:68-98 | without a partner only the outermost letter goes |
| PreAcdProperties.SideEliminationWithPartnerOnSameSide | pre_ACD.h:68-98 | a partner on the same side is below the top and both letters go from that side |
| PreAcdProperties.SideEliminationWithPartnerOnOtherSide | pre_ACD.h:68-98 | a partner on the other side loses one letter from each side |
| PreAcdProperties.SideEliminationNeighbourPartner | pre_ACD.h:79-96 | when the partner sits right below the top, both go and the letter under them receives the absorbed weight and twice the eliminated weight (+1) |
| PreAcdProperties.SideEliminationWithoutPartnerWeights | pre_ACD.h:68-98 | without a partner the next letter on the chosen side absorbs the outermost weight, the outermost letter goes, and the other side keeps every letter and weight |
| PreAcdProperties.SideEliminationSameSidePartnerWeights | pre_ACD.h:68-98 | with the partner at k below the next letter on the same side: the partner's lower neighbour receives the partner's weight and twice the outermost weight (+1), the next letter absorbs the outermost weight, the partner and the outermost letter go, every other letter keeps its place and weight, and the other side is untouched |
| PreAcdProperties.SideEliminationOtherSidePartner | pre_ACD.h:79-96 | with the partner on the other side, this side is absorbed and popped and the other loses its partner, whose lower neighbour is charged |
| PreAcdProperties.NoPartnerSingleEnd | pre_ACD.h:82-85 | in a well-formed diagram, having no partner means the label occurs once |
| PreAcdProperties.PartnerBothEnds | pre_ACD.h:82-85 | having a partner means the label occurs exactly twice |
| PreAcdProperties.SideEliminationRemovesChord | pre_ACD.h:68-98 | side elimination erases every occurrence of the outermost label and nothing else, keeping the diagram well formed |
| PreAcdProperties.SideEliminationCost | pre_ACD.h:74-77 | the count grows by one and the cost by twice the outermost weight, +1 unless in the limit case |
| PreAcdProperties.TurnEliminationKeys | pre_ACD.h:113 | the turn erases exactly the two letters at ind - 1 and ind of its side |
| PreAcdProperties.TurnEliminationCost | pre_ACD.h:105-106 | the count grows by one and the cost by the weight of the lower letter of the pair |
| PreAcdProperties.TurnEliminationWeights | pre_ACD.h:109-113 | the letter below the pair receives the pair's weight and the weight above it; every other letter is unchanged |
| PreAcdProperties.PossibleTurnsAreTurnIndices | pre_ACD.h:120-131 | every listed index can be passed to eliminate_turn |
| PreAcdProperties.TurnEliminationRemovesChord | pre_ACD.h:101-115 | a listed turn erases both ends of its chord and nothing else |
| PreAcdProperties.InitialNonNegative | pre_ACD.h:55-63 | the initial weights and cost have non-negative coefficients |
| PreAcdProperties.SideEliminationGrows | pre_ACD.h:68-98 | side elimination keeps every weight non-negative and never decreases the cost |
| PreAcdProperties.TurnEliminationGrows | pre_ACD.h:101-115 | a turn keeps every weight non-negative and never decreases the cost |
| AcdDiagrams.Initial | ACD.h:20-27 | the diagram of n labels has n + 1 weights of arity n + 2 and keeps the labels |
| AcdDiagrams.LeftElimination | ACD.h:47-65 | removes two labels and keeps the weights one more than the labels |
| AcdDiagrams.RightElimination | ACD.h:66-83 | removes two labels and keeps the weights one more than the labels |
| AcdDiagrams.SideElimination | ACD.h:40-88 | fails exactly on the empty diagram; otherwise removes two labels |
| AcdDiagrams.TurnElimination | ACD.h:92-106 | removes two labels and keeps the shape |
| AcdDiagrams.TurnsUpTo | ACD.h:31-33 | the labels listed from the first n positions are exactly those equal to their predecessor |
| AcdDiagrams.PossibleTurns | ACD.h:29-35 | a label is listed exactly when some position repeats the label before it |
| AcdDiagrams.Acd.constructor | ACD.h:20-27 | the new object is the initial diagram of the labels |
| AcdDiagrams.Acd.Copy | brute_force_functions.h:48-51 | the copy the search works on has the same state as the original |
| AcdDiagrams.Acd.GetAllPossibleTurns | ACD.h:29-35 | the loop returns exactly PossibleTurns |
| AcdDiagrams.Acd.FindForward | ACD.h:58 | the forward search stops at the first occurrence |
| AcdDiagrams.Acd.FindBackward | ACD.h:77 | the search with reverse iterators stops at the last occurrence |
| AcdDiagrams.Acd.EliminateFirst | ACD.h:47-65 | the left branch leaves exactly the labels and weights of LeftElimination and returns the first weight |
| AcdDiagrams.Acd.EliminateLast | ACD.h:66-83 | the right branch leaves exactly the labels and weights of RightElimination and returns the last weight |
| AcdDiagrams.Acd.EliminateFromSide | ACD.h:40-88 | false and no change exactly on the empty diagram; otherwise the new state is SideElimination of the old |
| AcdDiagrams.Acd.EliminateTurn | ACD.h:92-106 | the new state is TurnElimination of the old and the answer is true |
| AcdProperties.InitialWeights | ACD.h:20-27 | weight j is the unit function of variable j + 1; the cost starts at zero |
| AcdProperties.MirrorMirror | ACD.h:9-10 | mirroring twice gives the diagram back |
| AcdProperties.LeftEliminationErases | ACD.h:51-63 | for i the first later occurrence of the first label, the labels left are those strictly between the two ends followed by those after position i |
| AcdProperties.RightEliminationErases | ACD.h:70-82 | for k the last earlier occurrence of the last label, the labels left are those before position k followed by those strictly between the two ends |
| AcdProperties.LeftEliminationWeights | ACD.h:48-62 | gap by gap, with p the first weight and i the partner's position: gap 1 absorbs p, the gaps up to the partner keep their weights, the gap before the partner receives 2p and the gap after it (+1), gaps 0 and i + 1 go, and the gaps after that keep their weights |
| AcdProperties.RightEliminationWeights | ACD.h:67-81 | gap by gap, with p the last weight and k the partner's position: the gaps before the partner keep their weights, the gap after the partner receives 2p and the gap before it (+1), gap m - 1 absorbs p, gaps k and m go, and the gaps between keep their weights |
| AcdProperties.MirroredLeftElimination | ACD.h:47-83 | right elimination of a diagram is left elimination of its mirror image, mirrored back: labels, weights, cost and count |
| AcdProperties.MirroredLeftChords | ACD.h:47-83 | the labels the two branches leave are mirror images |
| AcdProperties.MirroredLeftWeights | ACD.h:47-83 | the weights the two branches leave are mirror images |
| AcdProperties.EachTwiceHasOtherEnd | ACD.h:55-58 | when every label occurs twice the partner search always finds the other end |
| AcdProperties.SideEliminationRemovesChord | ACD.h:40-88 | both ends of the outermost chord go and every other label still occurs twice |
| AcdProperties.PossibleTurnIsTurnName | ACD.h:92-99 | every listed label can be passed to eliminate_turn, whose first occurrence is followed by its second |
| AcdProperties.TurnEliminationRemovesChord | ACD.h:92-106 | a listed turn erases both ends of its chord and every other label still occurs twice |
| AcdProperties.SideEliminationCost | ACD.h:44-86 | the count grows by one and the cost by twice the eliminated weight, +1 unless in the limit case |
| AcdProperties.TurnEliminationCost | ACD.h:93-100 | the count grows by one and the cost by the weight between the two ends |
| AcdProperties.TurnEliminationWeights | ACD.h:101-103 | the gap before the pair receives the two following gaps, which are erased; other gaps are unchanged |
| AcdProperties.InitialNonNegative | ACD.h:20-27 | initial weights and cost are non-negative |
| AcdProperties.SideEliminationGrows | ACD.h:40-88 | side elimination keeps weights non-negative and never decreases the cost |
| AcdProperties.TurnEliminationGrows | ACD.h:92-106 | a turn keeps weights non-negative and never decreases the cost |
| Search.AllLinearFunctionsPreAcd | brute_force_functions.h:41-62 | the result set grows by exactly the costs reachable from the pre-diagram: its cost when the target count is reached, else everything reachable through turns, the left side and the right side |
| Search.AllLinearFunctionsPreAcdTurns | brute_force_functions.h:48-54 | the loop over turns adds exactly what every turn leads to |
| Search.AllLinearFunctionsPreAcdSide | brute_force_functions.h:56-61 | a side move adds what its elimination leads to, and nothing when the side is empty |
| Search.PreAcdReachableBounds | brute_force_functions.h:41-62 | every collected cost has the diagram's arity, non-negative coefficients and dominates the starting cost |
| Search.PreAcdPastTarget | brute_force_functions.h:43-46 | a diagram already past the target count contributes nothing |
| Search.AllLinearFunctionsAcd | brute_force_functions.h:41-62 | the same for a cyclic diagram |
| Search.AllLinearFunctionsAcdTurns | brute_force_functions.h:48-54 | the loop over turns adds exactly what every turn leads to |
| Search.AllLinearFunctionsAcdSide | brute_force_functions.h:56-61 | a side move adds what its elimination leads to |
| Search.AcdReachableBounds | brute_force_functions.h:41-62 | every collected cost has the diagram's arity, non-negative coefficients and dominates the starting cost |
| Search.AcdPastTarget | brute_force_functions.h:43-46 | a diagram past the target count contributes nothing |
| Enumeration.NotInteresting | brute_force_functions.h:18-37 | the answer is exactly Uninteresting: a short chord (for pre-diagrams away from the tops of the stacks), or a last window of required_k pairwise distinct labels |
| Enumeration.NoShortChord | brute_force_functions.h:30-35 | without short chords the answer is the distinct-window test |
| Enumeration.LastLabels | brute_force_functions.h:31-33 | the set built from the last k labels holds exactly those labels |
| Enumeration.ElementsCount | brute_force_functions.h:34 | the set has as many elements as the window exactly when the window's labels are distinct |
| Enumeration.MaxLabel | brute_force_functions.h:203-210 | the largest label, or -1 for the empty sequence |
| Enumeration.PossibleValues | brute_force_functions.h:202-213 | the candidates are exactly the labels used an odd number of times, plus the next fresh label for a pre-diagram or while fewer than length labels are in use |
| Enumeration.OddLabelsStep | brute_force_functions.h:204-209 | toggling membership keeps exactly the labels seen an odd number of times |
| Enumeration.CandidateKeepsShape | brute_force_functions.h:212-216 | appending a candidate keeps labels gap-free, at most twice each and (cyclic) at most length |
| Enumeration.DiagramsWalkable | brute_force_functions.h:181-218 | a sequence is reached by the walk exactly when each of its prefixes is interesting and each next label is a candidate |
| Enumeration.DiagramsHead | brute_force_functions.h:183-190 | every reached sequence has 2 * length labels and extends the prefix and the pushed label |
| Enumeration.DiagramsShape | brute_force_functions.h:202-216 | every reached sequence keeps the shape of its start |
| Enumeration.CompletedShape | brute_force_functions.h:190-191 | a completed cyclic sequence uses each label 1..length exactly twice |
| Enumeration.WalkCompletes | brute_force_functions.h:190-191 | every reached sequence is one the diagram constructor accepts |
| Enumeration.CostsShape | brute_force_functions.h:172-176 | every cost handed to the solver has one variable per letter plus the constant (plus one for a cyclic diagram) and non-negative coefficients |
| Enumeration.GetEstimatesPreAcd | brute_force_functions.h:171-176 | the estimate is the solver's answer on exactly the reachable costs |
| Enumeration.GetEstimatesAcd | brute_force_functions.h:171-176 | the estimate is the solver's answer on exactly the reachable costs |
| Enumeration.EstimateDiagram | brute_force_functions.h:191-195 | both estimates of a completed diagram, finite and limit case |
| Enumeration.IsBestChain | brute_force_functions.h:194-195 | taking running maxima over two sets is taking it over their union |
| Enumeration.DiagramWalk.Walk | brute_force_functions.h:181-218 | the count grows by the number of diagrams reachable after pushing new_v, both values become the maxima of their old value and those diagrams' estimates, and the prefix is restored |
| Enumeration.DiagramWalk.Complete | brute_force_functions.h:190-199 | a completed sequence counts once and folds its estimates into both maxima |
| Enumeration.DiagramWalk.WalkCandidates | brute_force_functions.h:215-216 | the loop over candidates visits exactly the union of what each candidate reaches, counting disjoint parts |
| Enumeration.RunWalk | brute_force_functions.h:263-271 | a thread's walk counts its diagrams and returns the maxima over them, starting from -1 |
| Enumeration.RunThreads | brute_force_functions.h:263-274 | running the eleven walks fills one result per thread, the count and both maxima of each start |
| Enumeration.MergeThreads | brute_force_functions.h:277-283 | the merged count is the sum over the threads and each value is the maximum of the caller's value, -1 and every estimate the threads reached |
| Enumeration.ThreadStart | brute_force_functions.h:248-261 | every start prefix is 1..n for n between 2 and 5, and its first pushed label lies in 1..n + 1, opening a new chord only in thread 0 |
| Enumeration.RangeCandidates | brute_force_functions.h:202-213 | after 1..n every label up to n + 1 is a candidate |
| Enumeration.RepeatCut | brute_force_functions.h:24-27 | repeating the last label of 1..n is cut as a short chord |
| Enumeration.LevelSplit | brute_force_functions.h:248-261 | what 1..n-1 followed by n reaches splits into the starts 1..n followed by c (for c < n) and by n + 1 |
| Enumeration.ThreadsCover | brute_force_functions.h:248-271 | the eleven starts together reach exactly the diagrams of the single walk from the empty sequence |
| Enumeration.ThreadsDisjoint | brute_force_functions.h:248-261 | no diagram is reached by two threads |
| Enumeration.ThreadsCountSize | brute_force_functions.h:277-283 | the summed counts are the number of distinct diagrams the threads reach |
| Enumeration.StartValue | brute_force_functions.h:242-280 | in the threaded case the maxima start from max(given, -1); otherwise from the given values |
| Enumeration.CalculateEstimate | brute_force_functions.h:221-284 | for every length that satisfies `Fits` (1..6 for cyclic diagrams, 1..7 for pre-diagrams) the count is the number of interesting diagrams and both values are the maxima of their start and every diagram's estimate, threaded or not |
| Enumeration.AcdDiagramsUseEachLabelTwice | brute_force_functions.h:212-213 | every cyclic diagram the enumeration builds uses each label 1..length exactly twice |
| Enumeration.PreAcdAdmitsSingleLabels | brute_force_functions.h:212-213 | a pre-diagram may use a label once, as [1, 2] of size 1 shows; a cyclic diagram may not |

## Left out

- create_solver (brute_force_functions.h:65-167) is not modelled. It is a call into ALGLIB's
  linear programming solver on `double` values. The model takes it as the parameter `solve`
  and treats estimates as `real` values.
- get_main_estimates, output_functions.h and every `operator<<` are reporting and file
  output. They are not part of this model.
- The eleven `std::thread` walks run one after another in the model (`RunThreads`).
  Each walk has its own prefix and result slots, so the order does not change the results.
  Concurrency itself is not modelled.
- `unordered_set` iteration order is not modelled. The candidates are a set, and the
  walk's results are proved for any order of visiting them.
- The fixed arrays of linear_function hold 3 + 2 * n_max coefficients, with n_max = 6.
  The model states this bound as `Fits` and as `requires` on the constructors. Writing
  past the array is not modelled.
- Overflow of the 32-bit `int` coefficients and counters is not modelled. Integers are
  unbounded.
- Virtual dispatch and `typeid` are not modelled. `Variant` replaces them, and each
  search is written once per diagram kind.
- Members with preconditions the source assumes and never checks:
  - LinearFunctions.AddAssign requires equal arities.
  - LinearFunctions.Equals, LinearFunctions.GreaterOrEqual and
    LinearFunctions.LessOrEqual require equal arities.
  - LinearFunctions.LessThan and LinearFunctions.GreaterThan require equal arities of at
    least 1. With no variables the source reads index -1.
  - PreAcdDiagrams.PreAcd.constructor requires an even number of labels. An odd count
    leaves one label out and reads coefficients that were never initialised.
  - PreAcdDiagrams.PreAcd.EliminateTurn requires an index that names a pair on its side
    (`IsTurnIndex`). The source does not check the index and may erase past the end.
- AcdDiagrams.Acd.EliminateFromSide requires that the outermost label occurs again
  (`HasOtherEnd`). Otherwise the source's partner search runs off the end of the list.
  Every diagram the enumeration builds satisfies this (`EachTwiceHasOtherEnd`).
- AcdDiagrams.Acd.EliminateTurn requires that the label occurs, followed by at least
  one position (`IsTurnName`). The source's false branch tests for the end only after
  dereferencing it, so that branch cannot be modelled. The search only passes listed
  turns (`PossibleTurnIsTurnName`).
- Enumeration.CalculateEstimate requires a length of at least 1 (`Fits`). For a length of
  0 or less the cyclic walk pushes 1 twice, then has no candidate left, and returns
  with no diagram counted. The pre-diagram walk is offered a fresh label at every step,
  so it never completes a diagram and does not terminate. get_main_estimates
  (main.cpp) starts at length 1, so neither case is reached.
