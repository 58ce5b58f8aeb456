# Verified models of the translation toolchain

This project models the search, parsing and optimisation code of a
machine-translation toolchain and proves that it does what it is for. Each
class or method follows one function of the toolchain, loop by loop; each
lemma states what that code promises over all inputs, all runs or all
interleavings.

| part of the toolchain | modules |
|---|---|
| ITG binarizer | `ItgTrees`, `ItgRules`, `ItgNodes`, `ItgEmit`, `ItgVisit`, `ItgBinarizer` |
| k-best derivations and reweighting of packed forests | `Forests`, `NBestLists`, `NBestMeaning`, `NBestSearch`, `Reweight` |
| forests as text | `ForestTokens`, `ForestReading`, `ForestLexing`, `ForestRoundTrip`, `ForestText`, `ForestWhole`, `ForestPrinter`, `ForestReader` |
| MERT line search | `MertLines`, `MertScan`, `MertData`, `Mert`, `MertTruth`, `MertKoehn` |
| large-margin optimiser | `Vectors`, `MarginModel`, `MarginSteps`, `MarginSpace`, `MaxMargin`, `MarginWitness` |
| chart decoder | `Beams`, `Bins`, `Cubes`, `CellExpansion`, `DotCharts`, `ChartCubes`, `ChartFinal`, `ChartFilling`, `ChartDerivations`, `ChartTrees` |
| phrase and rule extraction | `PhrasePairs`, `PhraseExtraction`, `PhraseLoosening`, `LinkCounts`, `Subtraction`, `RuleMaking`, `ReadingLimits`, `RuleExtraction` |
| ordered products and merges | `Heaps`, `LazyProducts`, `LazyMerges` |
| trie-sharing binarizer | `SharedTrees`, `GreedyBinarizer` |
| work protocols | `SentQueue`, `SentServer`, `ParallelMap`, `QueueCat` |
| shared | `Wrappers` |

Costs, scores and weights are exact real numbers. Words, labels and tokens are
identities. A sentence's or forest's items are named by their place in a
sequence.

## Findings

- Changing the hope hypothesis can leave a negative weight. The step that takes
  the old hope's remaining weight is skipped when both hypotheses have the same
  features, and what is left is then negative. `MaxMargin.HopeWeights` proves
  exactly when: the weights stay nonnegative if and only if the switch is not
  `Overdrawn`, a condition on the two hypotheses before the call.
  `MaxMargin.TwinHopes` is a concrete case (mira/maxmargin.py:174-211).
- The optimiser's outer loop may end at weights at which the separation oracle
  has not been asked: it stops when no fear is new, but optimises the working
  set once more after that. `MaxMargin.QuadraticProgram.Train` proves that,
  unless two hypotheses are twins in features, the oracle was last asked at the
  weights returned if and only if the working sets passed the optimality test
  at that time; the result is then near the optimum over everything offered. It
  also proves that a test that fails there comes from the working sets given
  before the call, from a pass that ran out of iterations, or from twins.
  `MarginWitness.AskedTooEarly` is a concrete case that ends with an objective
  of 2.5 where the initial weights have 1 (mira/maxmargin.py:55-62).
- When the changes of two sentences meet at one point, the line search may
  report a score that the reported point does not have.
  `MertTruth.SearchIsTrueIff` proves that the reported score is what rescoring
  the reported point gives, for every scoring function, if and only if the
  counts swept between changes at one point, where they are new, are those of
  rescoring at that point: one check at each such point, which needs no score
  and can be made before the sweep. `MertTruth.SharedChangeMisleads` is a
  concrete case (mert/mert.c:237-250).
- A printed forest cannot always be read back: an item without deductions or a
  deduction without children is printed as an empty bracket, which the scanner
  takes as part of the label. `ForestRoundTrip.RoundTrip` proves that reading
  succeeds if and only if no printed item and no printed deduction is empty,
  and that it then gives the same forest; `ForestRoundTrip.BarrenIsLost` is one
  item without deductions, whose text is that of no forest
  (mira/forest.py:495-690).
- A held item of a bin does not always have all derivations it was considered
  with. `Bins.Bin.HasAllDeds` proves that it has them if and only if it was
  never pruned and none of them was turned away by the cutoff.
  `Bins.PrunedComesBack` and `Bins.DearerIsTurnedAway` run a bin for one item in
  which a derivation is lost in either way (mira/decoder.py:545-625, 850-858).
- The cost of a lattice's edges is charged to the first cell of a cube only:
  the successors of a cell are priced without it. `ChartCubes.AllChargedIff`
  proves that every way of combining a cube's rules and items is charged if and
  only if the edges cost nothing or there is at most one way, and
  `ChartCubes.EdgesAreChargedOnce` is a case in which the dearer of two rules
  comes out cheaper (mira/decoder.py:840, 867).
- Reweighting fails on forests with empty items: `Reweight.Packed.Reweight`
  fails if and only if the item is `Groundless`, that is, some item that it
  rests on has no deductions; `Reweight.OnNothingIsGroundless` is such an item
  (mira/forest.py:449-475).

## Model

| member | source | states |
|---|---|---|
| ItgTrees.Absorb | itg-binarizer/binal.cc:2335-2361 | pushing two contiguous blocks one after the other onto an irreducible stack leaves the stack that pushing their union leaves |
| ItgTrees.RunIsPush | itg-binarizer/binal.cc:2363-2378 | reading a separable block leaf by leaf from an irreducible stack gives the same stack as pushing the block whole |
| ItgTrees.GreedyIsComplete | itg-binarizer/binal.cc:2363-2378 | the greedy shift-reduce loop ends with one entry exactly if the permutation has a straight/inverted tree, and that entry is then such a tree |
| ItgTrees.YieldFillsSpan | itg-binarizer/binal.cc:2335-2361 | a tree built by combining covers consecutive positions with exactly the values between its bounds |
| ItgTrees.RunTreesIrreducible | itg-binarizer/binal.cc:2335-2361 | after every step no two adjacent stack entries can be combined |
| ItgNodes.FinalRowCount | itg-binarizer/binal.cc:2363-2378 | n leaves and h stack entries mean exactly 2n - h nodes |
| ItgNodes.RootCovers | itg-binarizer/binal.cc:2363-2378 | a single stack entry is a node from 1 to n whose tree reads the permutation |
| ItgBinarizer.Binarizer.Combine | itg-binarizer/binal.cc:2335-2361 | the loop over node table and stack does what combining trees does |
| ItgBinarizer.Binarizer.Parse | itg-binarizer/binal.cc:2363-2378 | the stack stands for the trees of the greedy run |
| ItgBinarizer.Binarizer.LexBin | itg-binarizer/binal.cc:1872-1926 | a rule without variables is written as binary rules that restore it, with the stated number of virtual rules |
| ItgBinarizer.Binarizer.UniBin | itg-binarizer/binal.cc:1928-2069 | a leaf takes exactly its block of source words, and with one variable the whole rule is restored |
| ItgBinarizer.Binarizer.BinBin | itg-binarizer/binal.cc:2071-2249 | joining two emitted children gives a node that spells its source block and its target interval |
| ItgBinarizer.Binarizer.Output | itg-binarizer/binal.cc:2251-2280 | the post-order visit emits every node once, consuming the source from left to right |
| ItgBinarizer.Binarizer.Bracketing | itg-binarizer/binal.cc:2363-2425 | the rule is emitted exactly if its permutation has a tree, with one virtual rule per source word beyond two |
| ItgBinarizer.Binarizer.Binarize | itg-binarizer/binal.cc:1800-1850 | over any run of rules, every top rule written still expands to both sides of the rule it came from, as the check sum demands |
| ItgEmit.StraightTarget | itg-binarizer/binal.cc:2080-2160 | the target pattern of two straight children spells their interval from left to right |
| ItgEmit.InvertedTarget | itg-binarizer/binal.cc:2161-2244 | the target pattern of two inverted children spells their interval with the children swapped |
| ItgEmit.ChildrenMarked | itg-binarizer/binal.cc:2080-2125 | the covered marks divide the target among the two children, each interval holding only its own anchors |
| ItgEmit.OneVariableRestores | itg-binarizer/binal.cc:2027-2066 | the top rule for one variable restores both sides |
| ItgEmit.LexRuleExpands | itg-binarizer/binal.cc:1872-1926 | the top rule for a purely lexical rule restores both sides |
| Forests.ViterbiIsLeast | mira/forest.py:363-371 | an item's recorded best cost is at most the cost of each of its derivations |
| Forests.ViterbiIsReached | mira/forest.py:363-371 | some derivation has the recorded best cost |
| NBestLists.PopKeeps | mira/forest.py:164-209 | moving the cheapest candidate to the list keeps it sorted, free of repeats and ahead of all candidates |
| NBestLists.StepKeeps | mira/forest.py:186-209 | entering the successors of the entry just listed completes what the enumeration relies on |
| NBestMeaning.ListedIsDeriv | mira/forest.py:211-224 | every listed entry stands for a derivation |
| NBestMeaning.ListedCost | mira/forest.py:164-209 | a listed entry's cost is exactly its derivation's cost |
| NBestMeaning.ListedDistinct | mira/forest.py:164-209 | two entries of one list stand for different derivations |
| NBestMeaning.UnlistedCostsMore | mira/forest.py:164-209 | every derivation is listed, or costs at least as much as some candidate not yet listed and as everything listed |
| NBestMeaning.NextBest | mira/forest.py:164-209 | the entry listed p-th costs no more than any derivation not listed before it |
| NBestMeaning.ExhaustedListsAll | mira/forest.py:164-209 | an empty set of candidates means that all derivations are listed |
| NBestSearch.NBest.ComputeNBest | mira/forest.py:164-209 | the memoised recursion lists n derivations unless there are fewer, and only lengthens the lists of other items |
| NBestSearch.NBest.GetItem | mira/forest.py:211-213 | the i-th derivation is given exactly if there is one; otherwise all derivations have been listed |
| NBestSearch.NBest.GetItemHelper | mira/forest.py:215-224 | the derivation assembled is the one that the entry stands for |
| Reweight.OnNothingIsGroundless | mira/forest.py:449-475 | an item that rests on one without deductions |
| Reweight.Packed.Reweight | mira/forest.py:449-475 | afterwards the recorded costs agree with the new deduction costs; it fails exactly if some item that the given one rests on has no deductions |
| ForestTokens.NumberOfDigits | mira/forest.py:505-506 | an item's printed number can be read back, so different items get different names |
| ForestLexing.ForestLexer | mira/forest.py:566-616 | the scanner's loop gives the tokens that the text splits into |
| ForestLexing.UnquoteIs | mira/forest.py:12-13 | unquoting a quoted word gives the word back, whatever characters it has |
| ForestLexing.LexText | mira/forest.py:561-616 | splitting printed tokens gives them back if no bracket is empty, and stops at a label it cannot understand otherwise |
| ForestReading.ItemRound | mira/forest.py:629-690 | reading an item's tokens builds a node for it, or finds the one built before, so sharing is kept |
| ForestRoundTrip.PrintedIsNeeded | mira/forest.py:500-522 | what is printed is the least set of items with the root and all that its members need |
| ForestRoundTrip.FillItem | mira/forest.py:500-553 | printed text has no empty bracket exactly if all printed items have deductions and these have children |
| ForestRoundTrip.RoundTrip | mira/forest.py:495-690 | printed text can be read exactly if nothing printed is empty, and then a one-to-one map takes the forest read to the printed one |
| ForestRoundTrip.BarrenIsLost | mira/forest.py:500-553 | an item without deductions, whose text is that of no forest |
| ForestText.SlimIsBest | mira/forest.py:514-518 | the deductions kept for printing are in order of cost, none dearer than one left out; they are all of the item's, in some order, if there are no more than the limit or there is none, and as many as the limit otherwise |
| ForestPrinter.Printer.ItemToText | mira/forest.py:500-522 | the recursive printer appends exactly the text of the item with its best twenty deductions, naming each item once |
| ForestPrinter.Printer.DedToText | mira/forest.py:524-553 | the printer appends a deduction's label and children |
| ForestPrinter.ForestToText | mira/forest.py:495-498 | the text is that of the root's tokens in the forest with the best twenty deductions of each item |
| ForestWhole.SameNeeds | mira/forest.py:510-522 | if nothing that the root needs has more deductions than the limit, the items printed are those needed, with the same deductions in some order |
| ForestReader.Reader.ReadKid | mira/forest.py:629-690 | reading one item consumes its tokens, adds its nodes and remembers its name |
| ForestReader.ForestFromText | mira/forest.py:618-627 | a forest is returned exactly if the text is one item and nothing follows |
| ForestReader.PrintAndRead | mira/forest.py:495-690 | printing and reading gives the printed part of the forest again, exactly if nothing printed is empty; if nothing needed has more than twenty deductions, that is every needed item with all its deductions |
| MertLines.BestUntilCrossed | mert/mert.c:157-225 | between the point where a line was reached and where it is next crossed it is the first best line |
| MertLines.CrossOver | mert/mert.c:173-225 | crossing to the soonest line stays on the upper envelope and never goes left |
| MertScan.Scan | mert/mert.c:150-225 | a sentence's scan gives the points where the upper envelope changes, with the changes in its counts |
| MertData.SlowBleu | mert/mert.c:65-108 | rescoring scores the summed counts of every sentence's first best candidate |
| MertData.BestIsFirstBest | mert/mert.c:80-96 | the candidate that rescoring picks at a point is the first best line there |
| Mert.Collect | mert/mert.c:134-225 | all sentences' changes and far-left counts are collected |
| Mert.StretchIsRight | mert/mert.c:227-251 | strictly between two changes the swept counts are the counts that rescoring selects |
| Mert.Sweep | mert/mert.c:227-251 | the sweep finds the first of the best stretches and the point to report for it |
| Mert.SweptBest | mert/mert.c:227-251 | no point that is not a breakpoint scores better than the best stretch |
| Mert.PickIsWithin | mert/mert.c:230-251 | the point reported lies strictly inside its stretch unless two sentences change at one point |
| Mert.LineOptimize | mert/mert.c:111-276 | the result is the point picked for the first best stretch, or the origin if that scores more; it never scores below the origin, and at least as well as every non-breakpoint of the line |
| Mert.SeparateIsTrue | mert/mert.c:111-276 | without a shared breakpoint the reported score is what rescoring the reported point gives |
| MertTruth.SweepIsTrueIff | mert/mert.c:227-258 | the best score swept is that of the point picked, for every scoring function, exactly if new counts between changes at one point are those of rescoring there |
| MertTruth.SearchIsTrueIff | mert/mert.c:111-276 | the score a search from a truly scored point reports is true, for every scoring function, under exactly the same condition |
| MertTruth.AttainedIff | mert/mert.c:227-251 | the best score swept is attained at some non-breakpoint, for every scoring function, exactly if no counts appear only between changes at one point |
| MertTruth.SharedChangeMisleads | mert/mert.c:237-250 | two sentences that change at one point for which a score is reported that no point of the line has, and for which the condition fails |
| MertKoehn.OptimizeKoehn | mert/mert.c:356-408 | the search goes from point to point by changing one weight and gaining at least 0.000001, to a score that is true unless a tie is hit; it ends where no change of any one weight, save to a tie of candidates that differ in its feature, scores more by that |
| MarginModel.WeakDuality | mira/maxmargin.py:71-89 | the dual value is at most the objective at any weights |
| MarginModel.SmallGap | mira/maxmargin.py:79-131 | if every instance passes the optimality test the objective is within epsilon per instance of the dual |
| MarginModel.NearKktIsNearOptimal | mira/maxmargin.py:79-131 | if every instance passes the optimality test the objective is within epsilon per instance of its minimum over all weights |
| MarginSteps.DualMoves | mira/maxmargin.py:234-265 | moving weight between two hypotheses changes the dual by a quadratic in the amount moved |
| MarginSteps.ClipIsBest | mira/maxmargin.py:234-265 | the clipped step is the best amount within the two weights' limits |
| MaxMargin.PairIsBest | mira/maxmargin.py:234-265 | no amount moved between the two hypotheses gives a larger dual |
| MaxMargin.PairGains | mira/maxmargin.py:234-265 | a pair step never lowers the dual, and raises it when the violations differ |
| MaxMargin.RefusedWhenSame | mira/maxmargin.py:241-247 | a step is refused exactly when the two hypotheses have the same features |
| MaxMargin.HopeWeights | mira/maxmargin.py:174-211 | after a change of hope the weights are nonnegative exactly if the switch is not overdrawn |
| MaxMargin.TwinHopes | mira/maxmargin.py:174-211 | a change of hope that leaves a negative weight |
| MaxMargin.QuadraticProgram.OptimizePair | mira/maxmargin.py:234-265 | one step moves weight between two hypotheses and keeps weights and totals consistent |
| MaxMargin.QuadraticProgram.SelectPair | mira/maxmargin.py:267-296 | a pair is found exactly if the instance fails the optimality test, and it can gain; it is the one picked for the first hypothesis that has one |
| MaxMargin.QuadraticProgram.NewFear | mira/maxmargin.py:151-165 | a hypothesis is added exactly if it violates more than all present ones by epsilon |
| MaxMargin.QuadraticProgram.NewHope | mira/maxmargin.py:174-211 | the new hope has the remaining weight; no weight is negative exactly if the switch is not overdrawn |
| MaxMargin.QuadraticProgram.OptimizeWorkingSet | mira/maxmargin.py:91-131 | weights stay nonnegative with sum one, the dual never falls; if the loop stops by the test the objective is near its minimum, and if it stops otherwise twins are left or it made all passes allowed, each of which raised the dual |
| MarginSpace.NearOptimalOverall | mira/maxmargin.py:55-62 | a solved working set that no offer exceeds by epsilon has an objective, over everything offered, within twice epsilon per instance of its minimum |
| MaxMargin.RefusedAreTwins | mira/maxmargin.py:241-247 | a pair worth optimising that is refused has the same features and different losses |
| MaxMargin.QuadraticProgram.NewHopes | mira/maxmargin.py:38-42 | every instance keeps its hypotheses in order, with features and losses, followed by the chosen hope if that is new; no weight is negative exactly if every choice is affordable |
| MaxMargin.QuadraticProgram.NewFears | mira/maxmargin.py:55-60 | a hypothesis offered and not yet known is added, or nothing changes and no offer exceeds its working set |
| MaxMargin.QuadraticProgram.Train | mira/maxmargin.py:55-62 | the loop ends; the oracle was last asked at the result exactly if the test held then, twins apart, and the result is then near the optimum over everything offered |
| MaxMargin.QuadraticProgram.Optimize | mira/maxmargin.py:19-69 | the working sets are the old hypotheses, the chosen hopes and then hypotheses offered; instances that start empty end near the optimum over everything offered, unless iterations ran out or twins are left |
| MarginWitness.AskedTooEarly | mira/maxmargin.py:55-62 | a working set that no offer exceeds, whose only step leads far from the optimum over everything offered |
| MaxMargin.QuadraticProgram.Objective | mira/maxmargin.py:79-89 | the value computed is the primal objective at the current weights |
| MaxMargin.QuadraticProgram.DeltaMweights | mira/maxmargin.py:71-77 | the change of weights is what the hypotheses' weights pull |
| Beams.OfferKeeps | mira/decoder.py:545-625 | an offer followed by pruning keeps the cheapest distinct items, each at its lowest offered cost |
| Beams.KeepsIsUnique | mira/decoder.py:545-625 | two beams that keep the cheapest of the same offers differ only in items of one same cost |
| Beams.KeepsAllDeds | mira/decoder.py:545-625 | an item has all derivations offered for it exactly if it was never pruned and none was turned away |
| Beams.AddKeeps | mira/decoder.py:545-625 | with a threshold, an offer followed by pruning keeps the cheapest of the items whose costs are within the threshold of the best |
| Beams.SkipHolds | mira/decoder.py:850-858 | an offer not below the threshold's bar, or not cheaper than a full beam, changes nothing of that |
| Bins.Bin.Add | mira/decoder.py:545-601 | the bin keeps its queue, index and count of displaced entries in step; one dearest item goes if there are too many, and all that the best exceeds by the threshold |
| Bins.Bin.Prune | mira/decoder.py:606-625 | the worst entries go until the bin is within its limit and below its cutoff, and the cutoff of a full bin comes down to 0.000001 above its worst entry |
| Bins.Bin.Consider | mira/decoder.py:850-858 | turning away costs at or above the cutoff still keeps the cheapest items offered near the best, and is recorded |
| Bins.Bin.HasAllDeds | mira/decoder.py:545-625 | a held item's first derivation has its cost, and its derivations are all those considered exactly if none was pruned or turned away |
| Bins.PrunedComesBack | mira/decoder.py:545-625 | a run in which an item pruned and offered again has lost its derivation |
| Bins.DearerIsTurnedAway | mira/decoder.py:850-858 | a run in which an item's dearer derivation is turned away |
| Cubes.EmptyIsComplete | mira/decoder.py:647-682 | with no cell waiting, every cell of every cube has been popped |
| CellExpansion.CompleteIsAll | mira/decoder.py:832-868 | with no cell waiting, the cells popped are all cells |
| CellExpansion.VisitedOnce | mira/decoder.py:832-868 | no cell is popped twice |
| CellExpansion.ExpandCellCubePrune | mira/decoder.py:832-871 | cells are popped best first among those whose predecessors have been popped, all of them without a pop limit, and the bin keeps the cheapest items near the best, all made of cells popped |
| CellExpansion.ExpandCell | mira/decoder_nolattice.py:785-821 | the nested loops try every combination once and keep the cheapest items |
| CellExpansion.SameBeams | mira/decoder_nolattice.py:785-901 | the exhaustive and the pruning expansion leave beams that agree up to items of one same cost |
| DotCharts.CellHas | mira/decoder.py:417-460 | a cell has exactly the ways in which a trie path tiles its span |
| DotCharts.CellOnce | mira/decoder.py:417-460 | no way comes twice |
| DotCharts.EarlyHas | mira/decoder.py:432-460 | the dot items that a span's bin is filled from are the tilings that do not rest on the span itself |
| DotCharts.CellSame | mira/decoder.py:432-454 | a cell depends on the nonterminals of the spans within its own only |
| DotCharts.EdgeCostIs | mira/decoder.py:436-441 | a dot item's cost is the sum of those of the edges shifted |
| DotCharts.DotChart.OpenSpan | mira/decoder.py:432-441 | a cell gets one dot item, with its edges' cost, for each tiling by smaller spans |
| DotCharts.DotChart.CloseSpan | mira/decoder.py:443-454 | once the bin's nonterminals are known the cell has one dot item for each tiling, and all earlier cells are as before |
| ChartFinal.FinalStays | mira/decoder.py:905-938 | what a finished bin was filled from does not change while later spans are filled |
| ChartFilling.ReadCell | mira/decoder.py:918-926 | rules without antecedents are offered to the bin, the other dot items become cubes |
| ChartFilling.SortBin | mira/decoder.py:627-633 | a finished bin's items come once each in order of cost |
| ChartFilling.FillBin | mira/decoder.py:917-930 | the bin is filled from its seeds, rules and cubes best first, and all its derivations were offered |
| ChartFilling.Chart.Expand | mira/decoder.py:905-938 | in the end every bin was filled from the bins as they are in the end, every derivation held is one of its item, with its antecedents in order in the bins of the nonterminals matched, and every item costs what its first derivation does |
| ChartCubes.OfVarRises | mira/decoder.py:627-634 | the items of one nonterminal of a finished bin are in order of cost, each once |
| ChartDerivations.DerivationIs | mira/decoder.py:675-682 | a derivation held applies a rule of a trie node whose path tiles the span; its antecedents are held over the spans of the path's nonterminals, in order and of those nonterminals, and its item is what comes of the rule and their items |
| ChartDerivations.FirstDerivationCosts | mira/decoder.py:784-820 | an item costs what the antecedents of its first derivation cost where they are held, what the models add, and the edges where they are charged |
| ChartDerivations.AntsAreHeld | mira/decoder.py:846-858 | every antecedent of every derivation held is held in the finished bin of a smaller span |
| ChartTrees.UnlimitedIsExact | mira/decoder.py:784-938 | without limits, and with edges that cost nothing, a bin holds an item exactly if it can be derived, at the cost of a least derivation |
| ChartCubes.AllChargedIff | mira/decoder.py:840-868 | the edges' cost is charged throughout a cube exactly if there is none or there is at most one way of combining |
| ChartCubes.EdgesAreChargedOnce | mira/decoder.py:840-868 | a cube in which the dearer rule is not charged for the edge and comes out cheaper |
| PhrasePairs.HasCore | mira/extractor.py:115-141 | every consistent box is a tight box loosened over unaligned words |
| PhrasePairs.CoreIsUnique | mira/extractor.py:115-141 | and of only one tight box |
| PhrasePairs.Grid.Align | mira/alignment.py:110-114 | linking two words adds that link and keeps the flags of aligned words right |
| PhraseExtraction.LinkSpans | mira/extractor.py:66-84 | the running bounds are the first and last links of rows and columns |
| PhraseExtraction.ExtractPhrases | mira/extractor.py:65-113 | the early-exit loops list exactly the tight boxes within the length limit, each once |
| PhraseLoosening.LoosenPhrases | mira/extractor.py:115-141 | loosening lists exactly the boxes that reach out from the given ones over unaligned words within the limits, each once |
| PhraseLoosening.AllPhrases | mira/extractor.py:65-141 | extraction and loosening together list exactly the consistent phrase pairs within the length limit, each once |
| LinkCounts.ComputeCumulative | mira/extractor.py:497-508 | each entry is the number of linked pairs above and to the left |
| LinkCounts.CountIs | mira/extractor.py:505-506 | the count of a rectangle is the number of its linked pairs |
| LinkCounts.RegionIsCount | mira/extractor.py:510-511 | the difference of four entries is the number of linked pairs of a region |
| Subtraction.CellHas | mira/extractor.py:195-227 | a chart cell has exactly the sequences of words and phrases that tile its stretch with its number of holes |
| Subtraction.CellOnce | mira/extractor.py:195-227 | no sequence comes twice when the phrases are distinct |
| Subtraction.SubtractionChart.Fill | mira/extractor.py:195-227 | the loops fill every stretch up to the length asked for |
| RuleMaking.ReadingIsSource | mira/extractor.py:229-236 | a reading stands for the words of its stretch |
| RuleMaking.MakeRule | mira/extractor.py:252-323 | a rule is made exactly if the holes lie within the phrase without overlap and the limits on rules hold; putting its holes back restores both sides, with each variable once on each side |
| RuleExtraction.ReadingIsReady | mira/extractor.py:229-236 | a reading of a cell has as many holes as the cell says, all within the sentence |
| ReadingLimits.ReadingIs | mira/extractor.py:213-227 | a reading is any sequence of words and phrases, end to end over its stretch, with no more pieces than allowed, no hole that is too short, after another hole where that is forbidden, or with a prefix label after another piece where that is |
| RuleExtraction.AllAndOnce | mira/extractor.py:179-250 | the rules made are those of the sequences of words and phrases that read a phrase within the limits and of which a rule can be made, each once |
| RuleExtraction.SubtractPhrases | mira/extractor.py:179-250 | every sequence of words and phrases that reads a phrase within the limits, and of which a rule can be made, gives a rule, nothing else does, and every rule restores both sides of its phrase |
| Heaps.Heap.Push | guppy/heap.py:123-137 | the heap order is kept and the item added |
| Heaps.Heap.Pop | guppy/heap.py:139-160 | a smallest item is taken and the heap order kept |
| LazyProducts.ChildrenArePreceded | guppy/lazy.py:179-188 | each nonzero tuple of positions has one predecessor under the successor rule |
| LazyProducts.Ancestor | guppy/lazy.py:167-206 | some waiting tuple costs no more than any tuple still to come |
| LazyProducts.RaiseOne | guppy/lazy.py:199-205 | a successor is new to the heap and to the output |
| LazyProducts.ProductHeap.Next | guppy/lazy.py:190-205 | products come in nondecreasing order, each tuple once, and the end means that all have come |
| LazyMerges.MergeHeap.Next | guppy/lazy.py:251-270 | the merge takes the next item of one list, a least one of all that are left |
| SharedTrees.PairKeeps | greedy_binarizer/greedy_split_bin.cpp:40-56 | joining two stored trees keeps the table closed, with exactly the children marked as used |
| SharedTrees.CutIsUnique | greedy_binarizer/greedy_split_bin.cpp:163-183 | there is only one way to divide a sequence into words and stretches of tags |
| SharedTrees.RulesAreNeeded | greedy_binarizer/greedy_split_bin.cpp:289-382 | a virtual symbol has a rule exactly if it appears in the output |
| SharedTrees.LinesDerive | greedy_binarizer/greedy_split_bin.cpp:289-382 | each binarized rule derives its original right-hand side and nothing else |
| GreedyBinarizer.Binarizer.Split | greedy_binarizer/greedy_split_bin.cpp:80-93 | the last place with both halves stored is chosen, else the last with either, else the last |
| GreedyBinarizer.Binarizer.JoinTrees | greedy_binarizer/greedy_split_bin.cpp:40-56 | a sequence's tree is stored once and its children are marked |
| GreedyBinarizer.Binarizer.NtBin | greedy_binarizer/greedy_split_bin.cpp:58-104 | the sequence's tree is stored, nothing stored before changes, and all new trees but this one are used |
| GreedyBinarizer.Binarizer.BinBin | greedy_binarizer/greedy_split_bin.cpp:106-161 | the same, splitting only between stretches |
| GreedyBinarizer.Binarizer.LexNtRanges | greedy_binarizer/greedy_split_bin.cpp:163-183 | words stand alone and tags in longest stretches |
| GreedyBinarizer.Binarizer.PrintVirtuals | greedy_binarizer/greedy_split_bin.cpp:344-357 | one rule is put out for each used tree with two children |
| GreedyBinarizer.Binarizer.Run | greedy_binarizer/greedy_split_bin.cpp:359-382 | over any nonempty right-hand sides, each line derives exactly its right-hand side and each virtual symbol that appears has exactly one rule |
| SentQueue.PlayIsOk | mert/sentserver.c:43-159 | under every interleaving the lines sent are those flushed and those queued, and every running line has the client that holds it |
| SentQueue.OneHolder | mert/sentserver.c:43-101 | a running line has exactly one holder |
| SentQueue.OutputIsAnswers | mert/sentserver.c:123-159 | the output is the answers to the first lines in order, and the server ends only with all lines answered |
| SentQueue.OutputOnlyGrows | mert/sentserver.c:133-152 | what has been written stays written |
| SentQueue.AskingHelps | mert/sentserver.c:43-92 | a client is sent away only when no line is left to give, and then the server ends or another client has the first line |
| SentQueue.NobodyBusy | mert/sentserver.c:43-101 | when no client has a line, whoever asks gets the first unanswered line, the next one, or the end |
| SentServer.Server.QueueGet | mert/sentserver.c:43-92 | the linked list gives the first line given back, else the next line, else sends the client away |
| SentServer.Server.QueueAbort | mert/sentserver.c:94-101 | the line of a client that died can be given again |
| SentServer.Server.QueueFinish | mert/sentserver.c:123-159 | a reply is stored and the answered lines at the front are written and freed, without touching a line that a client holds |
| SentServer.Server.Run | mert/sentserver.c:204-254 | the linked-list server makes exactly the run of the model for any sequence of client moves |
| ParallelMap.Master.Run | mira/parallel.py:8-63 | for any order of replies the results come in input order, every input is sent once, every worker dies once, and the master ends |
| ParallelMap.SendWorkOk | mira/parallel.py:27-44 | handing out an input keeps the numbers handed out the disjoint union of those put out, kept and being worked on |
| QueueCat.Monitor.SomeoneIsAwake | max_count_feature/nbcat.cpp:17-46 | no reachable state has both threads asleep, or one asleep and the other at its end |
| QueueCat.Monitor.WrittenIsPrefix | max_count_feature/nbcat.cpp:17-64 | the lines written are always the first of those read |
| QueueCat.Monitor.PutInp | max_count_feature/nbcat.cpp:17-24 | a line is added within the capacity, or the reader sleeps |
| QueueCat.Monitor.GetInp | max_count_feature/nbcat.cpp:33-46 | the first line is taken and a waiting reader woken, or the writer sleeps or ends |
| QueueCat.Monitor.Run | max_count_feature/nbcat.cpp:48-64 | under every interleaving both threads end with the output equal to the input |

## Left out

- ITG binarizer: labels are structural identities, not concatenated strings (concatenation is not injective); label strings, pointer features, the positions read through `cleft` and `cright`, flattening, left-right backoff, duplicate rules and rule parsing are not modelled, nor is the emission strategy of itg-binarizer/binal.lzlz.cc.
- K-best lists: no ambiguity limit; a heap is a set from which some least candidate is taken; derivations that use one item in two ways are not told apart by item, as the toolchain's are.
- Inside and outside costs, expected features, random derivations and rescoring of forests.
- Forest text: the costs and rule names are text; ties among deductions are printed in order of position; words to delete are none; text in which an OR lists something else than deductions, or in which `#n` names a deduction, is refused here where the toolchain builds an ill-typed forest; XML and JSON output.
- MERT: exact reals, no minimum interval, no `positive` or fixed dimension, no Powell search, no normalisation; sorting is an insertion sort, and the results hold for every order of changes at one point.
- Large-margin optimiser: the separation oracle chooses from a finite list for each instance; cached violations other than within a pass; the second optimiser in mira/mira.py.
- MaxMargin.QuadraticProgram.Optimize: requires hopes that leave no negative weight (the exact condition is `Affordable`), since with one the assertion of a later step may fail.
- Decoder: unary rules and the goal bin, grammars of several dot charts, rule bins that grow after they have been read, the inside of language models (what a rule adds to the cost and which item comes of it are functions given); the queue is a multiset of which some worst entry is taken; a span's bin is created when it is filled, with what it is seeded with given.
- ChartTrees.UnlimitedIsExact: only for edges that cost nothing, since edges are not charged throughout (`ChartCubes.AllChargedIff`).
- Extractor: labels from trees, removal of overlaps, feature scores and their normalisation, word alignments kept in rules, and the later parsing.
- guppy: lazy lists as caches (a list is its values), and the merge of a list of lists.
- Trie-sharing binarizer: the trie is a map from sequences to trees, so the order of the emitted rules is left open; the strings that name virtual symbols; the two trees of a split may be built in either order.
- Protocols: sockets, message passing and threads are atomic steps; a worker of the parallel map that fails; wakeups without a reason; the end of the input stays the end.
- The values of BLEU, feature vectors beyond exact products, and reading and writing of files.
