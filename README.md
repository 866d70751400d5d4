# PDF-Weight envelopes, modelled in Dafny

The PDF-Weight scripts read a tree of simulated single-lepton events and plot how the yield of
each analysis bin varies over 100 PDF replica weights. All five scripts classify events into 14
physical bins from their jet count (`njets`) and b-tagged jet count (`nbm`). The two `mj_bin`
scripts also split each bin into three `mj12` sub-bins. After that the scripts differ:

- **Yield-sum ("CG") scripts** (`CG_mj_bin_v3`, `CG_mj_bin_v2`, `CG_v3`): one pass adds every
  accepted event's weights into a fixed array of sums, in place. Then, per bin, a sorted copy of
  the replica sums gives the 16th and 84th smallest values. Those two values, and every replica,
  are divided by the nominal sum, with a zero nominal replaced by 1.0.
- **Per-event ("BJ") scripts** (`BJ_v3`, `BJ_v4`): every accepted event appends values to a
  growable per-bin list, while a running minimum and maximum, started from the sentinels +1e9 and
  -1e9, fix the display range.
  - `BJ_v3` appends `sys_pdf[0]` and `sys_pdf[1]`.
  - `BJ_v4` appends the sum of the first at most 100 weights, divided by the constant 100. It
    then sorts every list and draws each value as a line: blue for sorted positions
    `(int)(N*0.16)` and `(int)(N*0.84)` (clamped to N-1), cyan for all others.

The model stops where the scripts have produced their numeric per-bin series. The event tree is an
input `seq<Event>`. Weights, sums and ratios are `real`.

Modules:

- `Events`: the event record.
- `Classifier`: the bin, pad and `mj12` helpers, shared by every script. They are repeated
  verbatim in each file.
- `Order`: sortedness, a functional insertion sort used as the reference, the in-place array sort
  standing for `std::sort`, and the sentinel-bounded minimum and maximum.
- `Envelopes`: order statistics 15 and 83, and the zero-safe divisor.
- `Bins`: the per-bin lists and the display range of the BJ scripts. The accepted-bin and payload
  functions are parameters.
- One module per script: `CgMjBin`, `CgMjBinV2`, `CgV3`, `BjV3`, `BjV4`.

How the scripts are modelled:

- The CG v3 accumulators are `array3`/`array2` values, updated by methods whose `ensures` tie
  each cell to a function of the event prefix (`YieldSum`).
- Each sort works on an array copy. It is proved equal to `SortedSeq` of the input, so results are
  stated on values.
- A guard that cannot fire appears as an `assert` that it cannot fire. Examples are `bIdx == -1`
  after a classified bin, and the `padNum < 1 || padNum > 15` skip of the `mj_bin` scripts.

## Model

| member | source | states |
|---|---|---|
| Classifier.JetCategory | plot_pdf_variations_CG_mj_bin_v3.cpp:70-75 | -1 exactly when njets < 4; otherwise category c covers 4+2c..5+2c jets, and category 2 covers 8 or more |
| Classifier.BinNumber | plot_pdf_variations_CG_mj_bin_v3.cpp:69-87 | -1 exactly when njets < 4 or nbm < 0; every other result is one of the 14 table ids and never 34 |
| Classifier.IndexFrom | plot_pdf_variations_CG_mj_bin_v3.cpp:61-66 | linear search from position `from`: -1 iff the id is absent from the rest of the table, else a position holding it |
| Classifier.BinIndex | plot_pdf_variations_CG_mj_bin_v3.cpp:61-66 | -1 iff the id is not in `binNumbers`, else an index in 0..13 holding it |
| Classifier.GetIdx | plot_pdf_variations_CG_mj_bin_v3.cpp:61-66 | the search loop returns -1 iff the id is absent, else the unique index holding it |
| Classifier.PadNumber | plot_pdf_variations_CG_mj_bin_v3.cpp:91-98 | -1 iff the id is not one of the 14 bins; otherwise a pad in 1..15 other than 13 |
| Classifier.MjBinIndex | plot_pdf_variations_CG_mj_bin_v3.cpp:101-106 | -1 iff mj12 < 500; otherwise m with edge m <= mj12 < edge m+1 for [500,800), [800,1100), [1100,inf) |
| Classifier.TableIsDistinct | plot_pdf_variations_CG_mj_bin_v3.cpp:44-50 | the 14 table ids are pairwise distinct |
| Classifier.BinIndexRoundTrip | plot_pdf_variations_CG_mj_bin_v3.cpp:61-66 | looking up table entry i gives back i |
| Classifier.MergeIntoBin31 | plot_pdf_variations_CG_mj_bin_v3.cpp:80-82 | 4-5 jets with nbm >= 4 give bin 31, the same id as nbm == 3 |
| Classifier.BinNumberOnto | plot_pdf_variations_CG_mj_bin_v3.cpp:69-87 | every table id is produced by some (njets, nbm) |
| Classifier.BinNumberSeparatesCategories | plot_pdf_variations_CG_mj_bin_v3.cpp:69-87 | two inputs with the same bin id share the jet category and b-tag row, except the merged 4-5 jet, 3-and-more b-tag population |
| Classifier.PadNumberInjective | plot_pdf_variations_CG_mj_bin_v3.cpp:91-98 | distinct bin ids go to distinct pads |
| Classifier.PadGrid | plot_pdf_variations_CG_mj_bin_v3.cpp:89-98 | the pad is row-major in the 3 x 5 grid (3 * b-tag row + jet category + 1), except that the merged population lands on pad 10 |
| Classifier.MjIntervalsPartition | plot_pdf_variations_CG_mj_bin_v3.cpp:101-106 | the mj12 index is m exactly when mj12 lies in interval m, so the intervals are disjoint and cover [500, inf) |
| Order.Insert | plot_pdf_variations_CG_mj_bin_v3.cpp:230 | inserting into a sorted sequence gives a sorted sequence one longer, with the element added to its multiset |
| Order.SortedSeq | plot_pdf_variations_CG_mj_bin_v3.cpp:230 | the reference sort returns a sorted permutation of its input |
| Order.SortedHeadIsLeast | plot_pdf_variations_CG_mj_bin_v3.cpp:230 | the head of a sorted sequence is at most any of its elements |
| Order.SortedUnique | plot_pdf_variations_CG_mj_bin_v3.cpp:230 | two sorted sequences with the same multiset are equal, so any correct sort gives the same order statistics |
| Order.SortedSeqOfSorted | plot_pdf_variations_CG_mj_bin_v3.cpp:230 | sorting a sorted sequence leaves it unchanged |
| Order.SortInPlace | plot_pdf_variations_CG_mj_bin_v3.cpp:230 | the in-place sort leaves the array sorted, a permutation of its old contents, and equal to `SortedSeq` of them |
| Order.InsertLast | plot_pdf_variations_CG_mj_bin_v3.cpp:230 | sinking element i into a sorted prefix gives a sorted prefix of length i+1, permutes the array and leaves the positions after i unchanged |
| Order.SwapAdjacent | plot_pdf_variations_CG_mj_bin_v3.cpp:230 | exchanges positions j-1 and j and keeps the multiset |
| Order.BoundedMinMaxUnique | plot_pdf_variations_BJ_v3.cpp:122-123 | the sentinel-bounded minimum and maximum of a value list are unique |
| Order.BoundedStep | plot_pdf_variations_BJ_v3.cpp:148-152 | the two compare-and-replace updates extend the running minimum and maximum to one more value |
| Envelopes.OrderStatistics | plot_pdf_variations_CG_mj_bin_v3.cpp:230-233 | the 16th smallest is at most the 84th smallest, and both are elements of the sample |
| Envelopes.Divisor | plot_pdf_variations_CG_mj_bin_v3.cpp:218-219 | never zero: the nominal sum when it is nonzero, else 1.0 |
| Envelopes.Normalised | plot_pdf_variations_CG_mj_bin_v3.cpp:223-238 | nominal 1.0, as many ratios as values, and multiplying each bound and each ratio back by the divisor gives the sum it came from |
| CgMjBin.EventCell | plot_pdf_variations_CG_mj_bin_v3.cpp:156-176 | an event is skipped iff nleps != 1, it has fewer than 100 weights, or its bin or mj12 is unclassifiable; otherwise its cell is the table index of its bin and its mj12 index |
| CgMjBin.Contribution | plot_pdf_variations_CG_mj_bin_v3.cpp:170-175 | an event adds weight k to sum k of exactly the cell it reaches (k < 100); anything nonzero comes from that cell and slot |
| CgMjBin.YieldSum | plot_pdf_variations_CG_mj_bin_v3.cpp:156-176 | a cell that no event reaches sums to 0 |
| CgMjBin.YieldRow | plot_pdf_variations_CG_mj_bin_v3.cpp:146-150 | the 100 sums of one cell after a pass over the events |
| CgMjBin.EnvelopeOf | plot_pdf_variations_CG_mj_bin_v3.cpp:215-238 | nominal 1.0, 100 ratios, and each bound and ratio times the divisor gives back the 16th smallest, 84th smallest and k-th sum |
| CgMjBin.AddEvent | plot_pdf_variations_CG_mj_bin_v3.cpp:157-175 | one event adds weight k to sum k of its own cell, for k in 0..99, and changes no other cell |
| CgMjBin.Accumulate | plot_pdf_variations_CG_mj_bin_v3.cpp:146-176 | after the event loop every cell holds the yield sum of the events it accepted |
| CgMjBin.Ratios | plot_pdf_variations_CG_mj_bin_v3.cpp:223-226 | replica ratio k is sum k over the divisor, in unsorted order |
| CgMjBin.CellEnvelope | plot_pdf_variations_CG_mj_bin_v3.cpp:211-239 | copy, ratios, sort and picks give `EnvelopeOf` the cell's sums, with low <= high when the divisor is positive |
| CgMjBin.BinEnvelopes | plot_pdf_variations_CG_mj_bin_v3.cpp:211-239 | the three mj cells of a bin each get their envelope |
| CgMjBin.BinEnvelopesOf | plot_pdf_variations_CG_mj_bin_v3.cpp:211-239 | a bin has three envelopes, one per mj cell |
| CgMjBin.Run | plot_pdf_variations_CG_mj_bin_v3.cpp:156-239 | the whole computation gives, for each of the 14 bins, the envelopes of its yield sums |
| CgMjBin.YieldSumConcat | plot_pdf_variations_CG_mj_bin_v3.cpp:156-176 | accumulating over a + c equals the sum of the passes over a and over c |
| CgMjBin.EventStep | plot_pdf_variations_CG_mj_bin_v3.cpp:170-175 | an accepted event adds weight k to its own cell only; every other cell is unchanged |
| CgMjBin.EnvelopeOrdered | plot_pdf_variations_CG_mj_bin_v3.cpp:230-238 | low <= high whenever the divisor is positive |
| CgMjBin.EnvelopeBoundsAreRatios | plot_pdf_variations_CG_mj_bin_v3.cpp:223-238 | both bounds equal one of the cell's 100 replica ratios |
| CgMjBin.EnvelopeOfAscending | plot_pdf_variations_CG_mj_bin_v3.cpp:230-238 | for ascending sums the bounds are sums 15 and 83 over the divisor |
| CgMjBin.EnvelopeOfOneToHundred | plot_pdf_variations_CG_mj_bin_v3.cpp:230-238 | sums 1..100 give low 16 and high 84 |
| CgMjBin.EmptyCellEnvelope | plot_pdf_variations_CG_mj_bin_v3.cpp:218-238 | an all-zero cell gets nominal 1 and zero bounds and ratios |
| CgMjBin.UntouchedCellEnvelope | plot_pdf_variations_CG_mj_bin_v3.cpp:146-238 | a cell that no event reaches gets nominal 1 and zero bounds and ratios |
| CgMjBin.ConstantCellEnvelope | plot_pdf_variations_CG_mj_bin_v3.cpp:218-238 | a cell whose 100 sums all equal a nonzero c has every ratio and both bounds 1 |
| CgMjBin.SingleEventCell | plot_pdf_variations_CG_mj_bin_v3.cpp:69-106 | one lepton, 6 jets, 2 b-tags and mj12 600 go to bin 29, its first mj cell |
| CgMjBin.SingleEventRow | plot_pdf_variations_CG_mj_bin_v3.cpp:170-175 | after a single accepted event, its own cell holds its first 100 weights |
| CgMjBin.SingleEventEnvelope | plot_pdf_variations_CG_mj_bin_v3.cpp:156-238 | a single event with 100 equal nonzero weights gives a flat envelope at 1 in its own cell |
| CgMjBin.SingleEventScenario | plot_pdf_variations_CG_mj_bin_v3.cpp:156-238 | a concrete event of weight 10 gives nominal, bounds and ratios all 1 in bin 29, mj 500-800 |
| CgMjBin.NonSingleLeptonIgnored | plot_pdf_variations_CG_mj_bin_v3.cpp:159 | an event with nleps != 1 changes no sum |
| CgMjBinV2.Accumulate | plot_pdf_variations_CG_mj_bin_v2.cpp:172-193 | the event loop fills each cell of `data` with its yield sum |
| CgMjBinV2.CellEnvelope | plot_pdf_variations_CG_mj_bin_v2.cpp:231-248 | the envelope of all 100 sorted entries at positions 15 and 83 over the non-zero divisor, with low <= high when the divisor is positive |
| CgMjBinV2.PadThirteenUnused | plot_pdf_variations_CG_mj_bin_v2.cpp:83-112 | no bin maps to pad 13; the merged 4-5 jet, 4-or-more b-tag population appears on pad 10 |
| CgV3.AccumulateEventAsWritten | plot_pdf_variations_CG_v3.cpp:107-133 | the k <= 100 loop on a 100-entry row fails: `at(100)` throws with exactly 100 weights, and with more weights the write to entry 100 is out of range, which is undefined behaviour in C++ (the model stops there, as a checked access would) |
| CgV3.ReplicaYieldsAsWritten | plot_pdf_variations_CG_v3.cpp:152-160 | the k = 1..100 collection reads entries 1..99 and then faults on entry 100 |
| CgV3.EventBin | plot_pdf_variations_CG_v3.cpp:113-133 | an event is skipped iff nleps != 1, it has fewer than 101 weights (corrected guard), or its bin is unclassifiable; otherwise its row is its bin's table index |
| CgV3.Contribution | plot_pdf_variations_CG_v3.cpp:129-133 | an event adds weight k to sum k of exactly the row it reaches (k <= 100); anything nonzero comes from that row and slot |
| CgV3.YieldSum | plot_pdf_variations_CG_v3.cpp:113-134 | a row that no event reaches sums to 0 |
| CgV3.YieldRow | plot_pdf_variations_CG_v3.cpp:107 | a bin's 101 sums (corrected row size) after a pass over the events |
| CgV3.AddEvent | plot_pdf_variations_CG_v3.cpp:114-133 | one event adds weights 0..100 to its own row and changes no other row |
| CgV3.Accumulate | plot_pdf_variations_CG_v3.cpp:107-134 | after the loop every row holds its bin's yield sums |
| CgV3.BinYields | plot_pdf_variations_CG_v3.cpp:150-166 | the collected yields are sums 1..100 in order, and down and up are their 16th and 84th smallest, with down <= up |
| CgV3.Process | plot_pdf_variations_CG_v3.cpp:149-172 | for every bin, the nominal, down, up and raw replica curves (curve k holds replica k+1, unsorted) |
| CgV3.ProcessBin | plot_pdf_variations_CG_v3.cpp:150-171 | one iteration fills entry b of nominal, down and up and column b of the replica curves, keeping the earlier bins |
| CgV3.FillColumn | plot_pdf_variations_CG_v3.cpp:159 | writes one bin's replica values into column b and leaves the other columns alone |
| CgV3.Normalise | plot_pdf_variations_CG_v3.cpp:175-186 | nominal becomes 1.0; down, up and every replica are divided by the old nominal, or by 1.0 when it was zero |
| CgV3.ScaleColumn | plot_pdf_variations_CG_v3.cpp:183-185 | divides column b of the replica curves and nothing else |
| CgV3.ResultOf | plot_pdf_variations_CG_v3.cpp:150-186 | nominal 1.0, 100 replica values, and each bound and replica k-1 times the divisor gives back the 16th smallest, 84th smallest and sum k |
| CgV3.Run | plot_pdf_variations_CG_v3.cpp:113-186 | the corrected script's results for every bin equal `ResultOf` of the bin's yield sums |
| CgV3.RowsAreYieldRows | plot_pdf_variations_CG_v3.cpp:113-134 | an accumulator holding the yield sums has the yield rows as its rows |
| CgV3.ResultOrdered | plot_pdf_variations_CG_v3.cpp:163-181 | the normalised down is at most the normalised up whenever the divisor is positive |
| CgV3.ResultBoundsAreRatios | plot_pdf_variations_CG_v3.cpp:163-184 | both normalised bounds equal one of the bin's 100 normalised replica values |
| CgV3.EmptyBinResult | plot_pdf_variations_CG_v3.cpp:149-186 | an all-zero row gets nominal 1.0 and every other value 0 |
| CgV3.UntouchedBinResult | plot_pdf_variations_CG_v3.cpp:149-186 | a bin that no event reaches gets nominal 1.0 and every other value 0 |
| CgV3.NonSingleLeptonIgnored | plot_pdf_variations_CG_v3.cpp:118 | an event with nleps != 1 changes no sum |
| Bins.BinLists | plot_pdf_variations_BJ_v3.cpp:119-153 | the loop's per-bin lists are 14 lists |
| Bins.EmptyLists | plot_pdf_variations_BJ_v3.cpp:119 | `bin_data(nBins)` starts as 14 empty lists |
| Bins.AcceptedStep | plot_pdf_variations_BJ_v3.cpp:144-145 | an accepted event appends its payload to its own list, leaves the other lists alone, and adds the payload to the values seen |
| Bins.SkippedStep | plot_pdf_variations_BJ_v3.cpp:131-138 | a skipped event changes no list and no value seen |
| Bins.TotalLengthAppend | plot_pdf_variations_BJ_v3.cpp:144-145 | appending to one list grows the total count by the appended length |
| Bins.TotalLengthOfEmpty | plot_pdf_variations_BJ_v3.cpp:119 | the starting lists hold no values |
| Bins.StoredCount | plot_pdf_variations_BJ_v3.cpp:144-152 | the lists together hold as many values as the running min and max saw |
| Bins.FlattenAppend | plot_pdf_variations_BJ_v3.cpp:144-145 | appending to one list adds exactly the appended values to the multiset of all listed values |
| Bins.StoredValues | plot_pdf_variations_BJ_v3.cpp:144-152 | the lists together hold exactly the values the running min and max saw, each as often (equal multisets) |
| Bins.BinValueSeen | plot_pdf_variations_BJ_v3.cpp:144-152 | every value in a bin's list is one the running min and max saw |
| Bins.DisplayRange | plot_pdf_variations_BJ_v3.cpp:156-159 | an inverted range is replaced by the defaults; otherwise it is kept, so low <= high in both cases |
| Bins.InvertedIffEmpty | plot_pdf_variations_BJ_v3.cpp:155-159 | with the +1e9/-1e9 sentinels the range is inverted exactly when nothing was stored |
| Bins.RangeCovers | plot_pdf_variations_BJ_v3.cpp:148-159 | the final range contains every stored value |
| BjV3.AcceptedBin | plot_pdf_variations_BJ_v3.cpp:131-138 | an event is skipped iff `sys_pdf` has fewer than 2 entries, nleps != 1, or its bin is unclassifiable; otherwise its list is its bin's table index |
| BjV3.Collect | plot_pdf_variations_BJ_v3.cpp:119-153 | the loop's lists are `BinLists`, and y_min and y_max are the sentinel-bounded minimum and maximum of all stored values |
| BjV3.YBinCount | plot_pdf_variations_BJ_v3.cpp:163-167 | the y bin count is the ceiling when that is at least 1, and exactly 1 otherwise |
| BjV3.Run | plot_pdf_variations_BJ_v3.cpp:119-167 | lists as collected; range [0, 2] when nothing was stored, otherwise the running minimum and maximum of the stored values; every stored value inside the range; `YBinCount` of the ceiling of the range as the y bin count |
| BjV3.TwoValuesPerEvent | plot_pdf_variations_BJ_v3.cpp:144-145 | the lists hold exactly twice the number of accepted events |
| BjV3.OneEventStep | plot_pdf_variations_BJ_v3.cpp:129-145 | an accepted event appends its up and down values to its own list; other lists and skipped events change nothing |
| BjV4.AcceptedBin | plot_pdf_variations_BJ_v4.cpp:113-119 | an event is skipped iff its weights are empty, nleps != 1, or its bin is unclassifiable |
| BjV4.Limit | plot_pdf_variations_BJ_v4.cpp:122 | the number of weights averaged is min(size, 100) |
| BjV4.AverageOf | plot_pdf_variations_BJ_v4.cpp:121-125 | the average times 100 is the sum of the first min(size, 100) weights |
| BjV4.OneEventStep | plot_pdf_variations_BJ_v4.cpp:111-126 | an accepted event appends its average to its own bin's list; other bins and skipped events change nothing |
| BjV4.EventAverage | plot_pdf_variations_BJ_v4.cpp:121-125 | the summing loop computes `AverageOf` the weights |
| BjV4.Collect | plot_pdf_variations_BJ_v4.cpp:103-130 | the lists are `BinLists` of the averages, and y_min/y_max are their sentinel-bounded minimum and maximum |
| BjV4.Lines | plot_pdf_variations_BJ_v4.cpp:167-182 | the lines of one bin all lie in that bin, and there are no more of them than the positions scanned |
| BjV4.AllLinesStep | plot_pdf_variations_BJ_v4.cpp:153-183 | the lines of bins 0..b extend those of 0..b-1 by bin b's lines, blue and cyan alike |
| BjV4.AppendBinLines | plot_pdf_variations_BJ_v4.cpp:167-182 | the partition loop appends each sorted value to the blue or the cyan list, in order |
| BjV4.SortValues | plot_pdf_variations_BJ_v4.cpp:159 | the sorted list is a sorted permutation of the bin's values |
| BjV4.DrawBin | plot_pdf_variations_BJ_v4.cpp:154-182 | sorts one bin's list and appends its blue and cyan lines; an empty bin adds nothing |
| BjV4.DrawStep | plot_pdf_variations_BJ_v4.cpp:153-183 | one bin iteration extends the sorted lists and the line lists by that bin |
| BjV4.DrawLines | plot_pdf_variations_BJ_v4.cpp:153-183 | every list ends up sorted, and the blue and cyan lists are the lines of all bins in bin order |
| BjV4.Run | plot_pdf_variations_BJ_v4.cpp:103-183 | sorted lists; the [0, 1] fallback when nothing was stored, otherwise the running minimum and maximum of the stored values; every value inside the range; and the blue/cyan lines of all bins |
| BjV4.WeightSumConstant | plot_pdf_variations_BJ_v4.cpp:123 | summing n equal weights c gives n * c |
| BjV4.AverageIgnoresTail | plot_pdf_variations_BJ_v4.cpp:122-125 | weights past the 100th do not change the average |
| BjV4.WeightSumPrefix | plot_pdf_variations_BJ_v4.cpp:123 | the sum of the first n weights ignores anything after them |
| BjV4.AverageOfConstant | plot_pdf_variations_BJ_v4.cpp:121-125 | at least 100 equal weights c average to c |
| BjV4.AverageOfShortConstant | plot_pdf_variations_BJ_v4.cpp:121-125 | fewer than 100 equal weights still divide by 100: the average is c * size / 100 |
| BjV4.OneValuePerEvent | plot_pdf_variations_BJ_v4.cpp:126 | the lists hold exactly one value per accepted event |
| BjV4.LowPick | plot_pdf_variations_BJ_v4.cpp:162 | the largest p with 100p <= 16N, and below N for N >= 1 |
| BjV4.HighPick | plot_pdf_variations_BJ_v4.cpp:163-164 | -1 for N = 0; otherwise the largest p with 100p <= 84N, which is already below N |
| BjV4.IsBlue | plot_pdf_variations_BJ_v4.cpp:173 | a blue position of a non-empty bin lies in 0..N-1 |
| BjV4.PicksOfTen | plot_pdf_variations_BJ_v4.cpp:162-173 | ten values: idx_16 is 1, idx_84 is 8, and exactly positions 1 and 8 are blue |
| BjV4.PercentileBounds | plot_pdf_variations_BJ_v4.cpp:162-164 | for N >= 1, 0 <= idx_16 <= idx_84 < N, so the clamp never fires |
| BjV4.LinesPartition | plot_pdf_variations_BJ_v4.cpp:167-182 | each scanned position goes to exactly one of the blue and cyan lists |
| BjV4.BlueLinesPrefix | plot_pdf_variations_BJ_v4.cpp:167-176 | the blue lines among the first i positions are the percentile picks below i |
| BjV4.BlueLinesOfBin | plot_pdf_variations_BJ_v4.cpp:162-182 | a non-empty bin draws exactly its idx_16 and idx_84 values in blue (one line if they coincide), and all others in cyan |
| BjV4.EveryValueDrawnOnce | plot_pdf_variations_BJ_v4.cpp:153-183 | across all bins, the blue and cyan lines together number the stored values |

The classifier members model helpers that are repeated verbatim in every script:

- plot_pdf_variations_CG_mj_bin_v2.cpp:36-120
- plot_pdf_variations_CG_v3.cpp:32-67
- plot_pdf_variations_BJ_v3.cpp:38-73
- plot_pdf_variations_BJ_v4.cpp:32-67

The two BJ scripts share `Bins`: `BJ_v4` holds `bin_data` at lines 103-105 and its fallback at
line 132.

## Left out

- Reading the tree (`TFile`, `SetBranchAddress`, `GetEntry`), the argument checks and all console
  output: the event sequence is the input.
- Everything drawn: histograms, `SetBinContent` into histograms, `TH2D::Fill` in `BJ_v3` (lines
  177-183), canvases, pads, legends, `TLine` objects, axis ranges, the axis padding of `BJ_v4`
  (lines 140-141), and saving. The model ends with the numeric per-bin series. `BjV4.Line` records
  the bin and value of each line, and which list it joins.
- Memory handling (`trash_bin`, `delete`).
- Floating-point rounding: weights are `float` and sums `double` in the scripts, but `real` here.
  The same goes for NaN values of `mj12`, which every interval test rejects in C++.
- BjV3.YBinCount: `(int)ceil(range / 0.01)` on doubles is not modelled. `BjV3.Run` receives it as the
  function parameter `ceil`, and the count is stated in terms of it.
- BjV4.LowPick: `(int)(N * 0.16)` and `(int)(N * 0.84)` on doubles are modelled as the integer
  quotients `N*16/100` and `N*84/100`, which may differ from the double products by rounding.
- Order.SortInPlace: `std::sort` is modelled by an insertion sort. Only its result (the unique
  sorted permutation) is claimed, not its algorithm or cost.
- Histogram bins are 1-based in the scripts (`SetBinContent(b+1, …)`). The model uses 0-based
  sequence and array positions.
- `BJ_v4` divides each event's sum of at most 100 weights by the constant 100.0
  (plot_pdf_variations_BJ_v4.cpp:125), and no script divides by `weight[0]`; the model does the
  same.
- In `CG_mj_bin_v3` and `CG_mj_bin_v2`, an event with between 1 and 99 weights passes every
  `continue`, but the size guard then adds nothing. `CgMjBin.EventCell` reports such an event as
  skipped, which is the same as far as the sums are concerned.
- CgV3.Run: this is the corrected pipeline with 101-entry rows and a guard of at least 101
  weights. The scripts do not say whether the intended fix was instead the `k < 100` scheme of
  the `mj_bin` scripts.

## Findings

| source | as written | input that shows it | evidently intended | confidence | as-written member | corrected member |
|---|---|---|---|---|---|---|
| plot_pdf_variations_CG_v3.cpp:107, 129-133 | rows of `bin_replica_sums` have 100 entries, and the accumulation loop runs k = 0..100 after a `size() >= 100` guard | any single-lepton event in a classified bin with exactly 100 weights makes `weight_vec->at(100)` throw; with 101 or more weights, entry 100 of a 100-entry row is written | rows of 101 entries (nominal plus 100 replicas) and a guard of at least 101 weights | not executed | CgV3.AccumulateEventAsWritten | CgV3.AddEvent |
| plot_pdf_variations_CG_v3.cpp:107, 154-156 | the replica loop reads k = 1..100 from a 100-entry row | every bin: after entries 1..99 are read, entry 100 is out of range | the 100 replica sums at entries 1..100 of a 101-entry row | not executed | CgV3.ReplicaYieldsAsWritten | CgV3.BinYields |
