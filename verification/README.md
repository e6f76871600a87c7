# CoreMark: a verified model

This project models the CoreMark port under `tests/programs/custom/coremark` and proves what the
benchmark relies on: what every iteration of a run starts from and for which inputs that is always the
same data, that the values it reports depend on nothing but its inputs, and that the four workloads compute
what they are meant to compute.

The program keeps a linked list, a text and three matrices in one block of memory. `iterate` calls
`core_bench_list` twice an iteration. That function searches and rearranges the list, sorts it by data,
removes an element and puts it back, and sorts the list by index. Comparing two elements by data may run
the text benchmark or the matrix benchmark, and writes the outcome back into the element that is being
compared. The file promises that the list is "back to original state" at the end; `iterate` depends on it,
because it never updates `res->list`.

What holds of that promise (`Restore`, `Iterations`, `InitialRun`):

- The records and record pointers of the list come back in every call, for every seed and every list that is
  sorted by `idx` with low bytes equal to their backups, as all lists of a run are.
- The order comes back in a given call if and only if searches and sort by data have left elements with
  equal `idx` in the order they were in (`Restore.RestoredIff`).
- The order comes back in every call that `iterate` may make, with any `seed3`, if and only if all `idx` values
  differ: otherwise one, two, three or four searches are enough to lose it. For the list that initialisation
  builds, of any size and for any seed, this is a condition on size and seed that no list of more than 321
  elements meets (`InitialRun.InitialRestoredIff`, `ListIndex.IdxDistinctIff`).
- Inputs that fail: with seed 4 in a block of 666 bytes every second call of a run with `seed3` 1 loses the
  order it found; with seed 7 the header shares its `idx`, and a call can leave elements in front of
  `res->list`, where later calls do not find them.
- Only elements with the header's `idx` can get lost in this way. For every size and seed, any number of calls
  keeps all others and all records, and always leaves the three nodes that the next call reads
  (`InitialRun.InitialRunKeeps`).
- With equal seed bytes, a run of any length damages the text in its first call or never, and it does so if
  and only if some element asks for a stride that visits a byte equal to a comma xor-ed with the seed. Seed
  25 does. Whatever the seeds, both scans always end inside the text.
- The standard settings keep list, records and text over any number of iterations.

What the reported values are: the register of a run is the code, in the sense of `Crc.CrcIsTheRemainder`, of
an explicit log of all calculated and returned values (`RunLog.RegisterIsCode`), and each of these values is
given in turn: of a call (`CallValue.CallValueIs`), of the text benchmark (`StateBench.BenchCrcIsCode` with
`Grammar.TokenMeaning`), of the matrix benchmark (`MatrixSums.TestWords`, `MatrixSums.SumCounts`), and of the
other items (`Items.PlainValue`).

The blocks for list, matrices and text follow each other, but the third matrix may end in the block of the
text: core_init_matrix counts 8N^2 bytes and then aligns the first matrix. With the memory at an address
divisible by 4 this happens exactly for blocks of 8N^2 + 1 bytes, such as 649, a third of 1947; for the other
addresses `MatrixInit.FitsInside` gives the sizes. Then the first item of the matrix benchmark overwrites the
beginning of the text (`Benchmark.SixHundredFortyNine`; the bytes are those of a little-endian word). The
model keeps text and matrices apart, so the theorems about runs in `Benchmark` ask for a block size with which
they are.

How the model is built:

- Heap code stays heap code. List nodes, list records and the results structure are classes; text and
  matrices are arrays; the loops of the C program are loops with invariants. Each method is proved equal to
  a function on values (`Merge`, `Pass`, `Sort`, `SearchAll`, `BenchList`, `Calls`, `Scan`, `Fill`, ...),
  and the theorems are proved about these functions.
- Machine words are integers with explicit wrap-around (`Words`).
- A comparison function with side effects is a value of type `Comparator`. The sort is proved correct for
  every comparator that is `Lawful`, and both comparators of the program are proved lawful.
- A definition of the form `forall k :: Look(topic, k) ==> P`, where `Look` is always true, says just `P`;
  it keeps the verifier from unfolding `P` where it is not needed.

Modules: `Words` (machine words), `Chains` (an induction principle), `Crc`, `Scanner`, `Grammar`,
`StateBench`, `StateInit` (state machine), `Matrix`, `MatrixInit`, `MatrixSums` (what the matrix kernels
compute, without loops), `Records`, `Items`, `Sorting`, `SortProof` (the sort on values), `Results`,
`LinkedList`, `MergeSort`, `ListOps`, `ListBench` (the list on the heap), `Restore` (what a call restores),
`CallValue` (what a call returns), `ListIndex`, `ListInit`, `CoreMark` (the run loop), `RunLog` (what the
register of a run is the code of), `TextRun`, `Iterations` (what every call of a run starts from), `Reports`,
`Renaming` (results do not depend on where nodes lie), `InitialRun` (the same for the list and text of a
run), `Benchmark` (main).

Where the code and its comments or names disagree, the model follows the code:

- Equal seeds are not enough for the corruption of the text to be undone: a byte equal to a comma xor-ed
  with the seed becomes a comma and is then skipped. `StateBench.UndoneIff` gives the exact condition for one
  stride and `InitialRun.TextKeptIff` for a whole run; `StateInit.EqualSeedsMayDamage` and
  `Benchmark.SeedTwentyFiveDamages` show the text of seed 25 damaged, at stride 0x22, which its ninth item
  asks for.
- The list is not brought back to its original order for every seed, as said above.
- The products of the matrix benchmark stay inside 32 bits up to dimension 128, which is the dimension of
  blocks of up to 133128 bytes (`Benchmark.RunMatrixExact`). Beyond that the sums are modelled with
  wrap-around.
- `-87e+832`, one of the texts meant as scientific numbers, is not accepted by the state machine, because
  an integer may not be followed by `e`.
- A scientific number that turns out invalid increments the counter of the invalid state, not its own.
- The loops at the end of `core_bench_list` feed the first element's data once for every element they pass.
- `core_list_mergesort` writes through `tail` before it tests for the empty list, so the list must not be
  empty.
- `core_bench_list` reads `info.data16` before it is set if `seed3` is not positive and `finder_idx` is
  negative; the parameter `stack` stands for that value.

## Model

| member | source | states |
|---|---|---|
| Crc.Crcu8 | tests/programs/custom/coremark/core_util.c:164-188 | the shift and xor loop computes eight turns of the register |
| Crc.Crcu16 | tests/programs/custom/coremark/core_util.c:189-195 | low byte first, then high byte |
| Crc.Crcu32 | tests/programs/custom/coremark/core_util.c:196-202 | the two halves of a 32-bit word, low half first |
| Crc.CrcIsTheRemainder | tests/programs/custom/coremark/core_util.c:164-195 | for every sequence of words and every initial value, the register bits are the remainder of dividing the message polynomial by x^16+x^15+x^2+1, and no other remainder exists |
| Crc.CrcOfXor | tests/programs/custom/coremark/core_util.c:189-195 | crcu16(v, c) is crcu16(v xor c, 0) |
| Crc.CrcInjectiveInData | tests/programs/custom/coremark/core_util.c:189-195 | for a fixed register, different words give different codes |
| Crc.CrcInjectiveInRegister | tests/programs/custom/coremark/core_util.c:189-195 | for a fixed word, different registers stay different |
| Crc.CrcDetectsOneWord | tests/programs/custom/coremark/core_util.c:189-207 | changing one word of a message of any length changes its code |
| Crc.CrcResidue | tests/programs/custom/coremark/core_util.c:189-195 | a message followed by a word has code 0 exactly when the word is the message's own code |
| Scanner.Step | tests/programs/custom/coremark/core_state.c:230-326 | one symbol in one state: the next state, and exactly which counters are incremented |
| Scanner.CoreStateTransition | tests/programs/custom/coremark/core_state.c:216-330 | on a text with a NUL ahead the loop ends inside the text and returns end, state and counters of the first token |
| Scanner.ScanStops | tests/programs/custom/coremark/core_state.c:222-229 | a scan never passes a NUL |
| Grammar.RunDecides | tests/programs/custom/coremark/core_state.c:216-330 | the automaton is in a state after reading a string if and only if the string belongs to that state's grammar (integer, decimal, scientific and their prefixes) |
| Grammar.RunIsViable | tests/programs/custom/coremark/core_state.c:216-330 | the automaton is not in the invalid state exactly when the string can be completed to a scientific number |
| Grammar.ScientificHasPoint | tests/programs/custom/coremark/core_state.c:269-292 | every scientific number has a point, so an integer followed by an exponent is invalid |
| Grammar.TokenMeaning | tests/programs/custom/coremark/core_state.c:205-330 | the scanner stops just past the first byte that makes the prefix hopeless, else past the first comma or at the NUL, in the state that describes the text read; and it has incremented exactly the counters of the states that a proper beginning of the text, but not the text, belongs to, with the exception for invalid tokens that the code makes |
| Grammar.TokensPartition | tests/programs/custom/coremark/core_state.c:66-75 | repeated calls cover the text up to its first NUL without gaps |
| Grammar.TokensBalanced | tests/programs/custom/coremark/core_state.c:230-326 | conservation between the counters of transitions and of final states over any number of tokens |
| StateBench.Corrupt | tests/programs/custom/coremark/core_state.c:78-83 | every step-th byte that is not a comma is xor-ed, all others are unchanged |
| StateBench.UndoneIff | tests/programs/custom/coremark/core_state.c:77-103 | two corruptions leave the block unchanged if and only if every visited byte is restored, for any two seeds |
| StateBench.UndoneIffSameSeed | tests/programs/custom/coremark/core_state.c:97-103 | with equal seed bytes s: if and only if s is 0 or no visited byte equals comma xor s |
| StateBench.ScanText | tests/programs/custom/coremark/core_state.c:66-75 | the scan loop terminates and counts exactly the tokens of the text |
| StateBench.CoreBenchState | tests/programs/custom/coremark/core_state.c:45-111 | the block ends as two corruptions leave it, and the value codes the counters of both scans |
| StateBench.BenchCrcIsCode | tests/programs/custom/coremark/core_state.c:104-109 | the value is the code of 32 words: for each state in order the low and the high half of the number of tokens that ended in it and of its transition counter, over both scans |
| StateBench.OneCounterDetected | tests/programs/custom/coremark/core_state.c:104-109 | two texts whose counters differ in exactly one of these words have different values |
| StateBench.BenchBalanced | tests/programs/custom/coremark/core_state.c:61-111 | the counters of both scans together are in balance: starts, finals and the flow into the exponent states |
| StateInit.CoreInitState | tests/programs/custom/coremark/core_state.c:139-195 | the loop writes the patterns of the successive seeds with commas as far as they fit, and zeros behind them |
| StateInit.InitialTextPadded | tests/programs/custom/coremark/core_state.c:148-191 | for size 2 and more the text ends in two NULs |
| StateInit.PaddedStaysTerminated | tests/programs/custom/coremark/core_state.c:77-95 | with a stride of two or more a NUL survives the corruption, so that both scans stay inside the block |
| StateInit.InitialTextSafe | tests/programs/custom/coremark/core_state.c:148-191 | every initial text of size 2 or more has a NUL at a position that no multiple of 17 reaches |
| StateInit.SafeStays | tests/programs/custom/coremark/core_state.c:77-103 | for any seeds and any stride divisible by 17, as all strides of the list items are, that NUL survives the corruption: both scans of every call of a run end inside the text |
| StateInit.InitialTextUndone | tests/programs/custom/coremark/core_state.c:77-103 | on every initial text the corruption with equal seed bytes is undone, if comma xor seed is no byte of the texts |
| StateInit.KnownSeedsQualify | tests/programs/custom/coremark/core_portme.c:45-58 | the seed bytes of the validation and profile runs qualify |
| StateInit.PatternScans | tests/programs/custom/coremark/core_state.c:113-195 | in front of a comma the pattern of every seed is scanned as its kind, and to the comma unless it is invalid: bits 0-2 of the seed choose integer, decimal, scientific number or error, and of the scientific numbers one in four is none |
| StateInit.TextScans | tests/programs/custom/coremark/core_state.c:139-195 | the initial text, pattern by pattern: as long as they fit, the patterns of the successive seeds stand in it behind each other, each in front of a comma, and each is scanned as its kind says; for every size and seed |
| StateInit.Symbols | tests/programs/custom/coremark/core_state.c:198-276 | the characters that the scanner tells apart |
| StateInit.EqualSeedsMayDamage | tests/programs/custom/coremark/core_state.c:97-103 | for seed 25 and every size from 100 on, corrupting and undoing at stride 0x22 changes the initial text |
| StateInit.PointlessPatternIsInvalid | tests/programs/custom/coremark/core_state.c:120-123 | the text -87e+832 is scanned as invalid |
| Matrix.MatrixMulConst | tests/programs/custom/coremark/core_matrix.c:269-280 | every element of C is the 32-bit product of the element of A and the constant |
| Matrix.MatrixAddConst | tests/programs/custom/coremark/core_matrix.c:285-296 | every element of A is shifted with 16-bit wrap-around |
| Matrix.MatrixMulVect | tests/programs/custom/coremark/core_matrix.c:303-315 | the first N elements of C are the products of the rows of A with the vector, modulo 2^32, and the rest of C is unchanged |
| Matrix.MatrixMulMatrix | tests/programs/custom/coremark/core_matrix.c:322-360 | the flattened triple loop, with or without bit extraction, computes the product modulo 2^32 |
| Matrix.ProductCell | tests/programs/custom/coremark/core_matrix.c:322-337 | element (i, j) of the flattened product is the sum over k of A[i, k] times B[k, j], as a signed 32-bit word |
| Matrix.MatrixSum | tests/programs/custom/coremark/core_matrix.c:238-263 | the loops compute the fold over the elements with wrapping accumulator and result |
| Matrix.SumOfMatrixBounds | tests/programs/custom/coremark/core_matrix.c:238-263 | for N up to 57 the result lies in 0..10 N^2 and does not wrap |
| MatrixSums.SumCounts | tests/programs/custom/coremark/core_matrix.c:238-263 | the result is, as a short, ten times the number of positions where the sum since the last such position exceeds the clip, plus the number of other positions whose element exceeds the one before |
| MatrixSums.TenEach | tests/programs/custom/coremark/core_matrix.c:238-263 | with a negative clip, elements that are not negative count ten each |
| MatrixSums.OnlyAscents | tests/programs/custom/coremark/core_matrix.c:238-263 | if no sum exceeds the clip, the result is the number of ascents |
| MatrixSums.ClipIs | tests/programs/custom/coremark/core_matrix.c:49 | the clip for a constant is its lower twelve bits minus 4096 |
| MatrixSums.TermFields | tests/programs/custom/coremark/core_matrix.c:344-360 | bit extraction multiplies bits 2-5 and bits 5-11 of the bit pattern of the product |
| MatrixSums.ProductWithDiagonal | tests/programs/custom/coremark/core_matrix.c:269-337 | multiplying by a diagonal matrix from either side is multiplying by the constant, and by the identity gives back the matrix |
| MatrixSums.VectorPicksColumn | tests/programs/custom/coremark/core_matrix.c:303-315 | a unit vector picks a column |
| MatrixSums.TestWords | tests/programs/custom/coremark/core_matrix.c:130-163 | in a run matrix_test codes four words of which the first and the last are 10 N^2 modulo 2^16, for every seed and byte constant |
| Matrix.ShiftedBack | tests/programs/custom/coremark/core_matrix.c:136-161 | adding a constant and then its negation restores A for every constant, including -32768 |
| Matrix.MatrixTest | tests/programs/custom/coremark/core_matrix.c:130-163 | A ends as it was, B is untouched, C holds the product with bit extraction, and the result codes the sums of the four products |
| MatrixInit.SeedIsFactorial | tests/programs/custom/coremark/core_matrix.c:205-212 | the running seed is the initial one times k!, modulo 2^16 |
| MatrixInit.ElementsAre | tests/programs/custom/coremark/core_matrix.c:201-214 | every element in closed form: B is seed k! + k modulo 2^16 and A the low byte of seed k! + 2k |
| MatrixInit.ElementsForgetSeed | tests/programs/custom/coremark/core_matrix.c:201-214 | from the eighteenth element on, whatever the seed and however large the matrix, B is k as a signed short and A is 2k modulo 256 |
| MatrixInit.MatricesForgetSeed | tests/programs/custom/coremark/core_matrix.c:201-214 | two initialisations, of any dimension, differ at most in the first 17 elements |
| MatrixInit.SeedNoOverflow | tests/programs/custom/coremark/core_matrix.c:205 | order times seed stays inside 32 bits for every element of every dimension |
| MatrixInit.ElementABounds | tests/programs/custom/coremark/core_matrix.c:209-211 | every element of A lies in 0..255 |
| MatrixInit.Dimension | tests/programs/custom/coremark/core_matrix.c:192-197 | the search loop ends, without wrapping, with a dimension that fits |
| MatrixInit.FitsUnique | tests/programs/custom/coremark/core_matrix.c:192-197 | only one dimension fits |
| MatrixInit.AlignMemIsNext | tests/programs/custom/coremark/core_portme.h:86 | alignment gives the next multiple of four |
| MatrixInit.Layout | tests/programs/custom/coremark/core_matrix.c:198-218 | A, B and C are aligned, follow each other without overlap, and end inside the block exactly when the shift for alignment leaves room |
| MatrixInit.FitsInside | tests/programs/custom/coremark/core_matrix.c:198-218 | in the second of several blocks of one size, C ends inside its block if and only if the size is not 8N^2 + 1 (start of the memory 0 or 1 modulo 4) or 8N^2 + 2 (3 modulo 4) |
| MatrixInit.LastCell | tests/programs/custom/coremark/core_matrix.c:130-163 | for every seed, N up to 34 and byte constant, matrix_test leaves a last element of C whose upper half is zero |
| MatrixInit.CoreInitMatrix | tests/programs/custom/coremark/core_matrix.c:181-225 | dimension and contents of the matrices, seed 0 counting as 1 |
| MatrixInit.InitialRanges | tests/programs/custom/coremark/core_matrix.c:201-214 | A starts in 0..255 and B in the range of signed shorts |
| MatrixInit.ScaleNoOverflow | tests/programs/custom/coremark/core_matrix.c:269-280 | for a byte constant the products with the constant stay inside 32 bits |
| MatrixInit.DotNoOverflow | tests/programs/custom/coremark/core_matrix.c:322-337 | for N up to 128 every partial sum of the product stays inside 32 bits |
| MatrixInit.VectorNoOverflow | tests/programs/custom/coremark/core_matrix.c:303-315 | the same for the product with a vector |
| MatrixInit.ExtractNoOverflow | tests/programs/custom/coremark/core_matrix.c:344-360 | with bit extraction every partial sum lies in 0..1905 k |
| MatrixInit.ShiftedRange | tests/programs/custom/coremark/core_matrix.c:285-296 | for a byte constant nothing wraps in A |
| MatrixInit.SumsFit | tests/programs/custom/coremark/core_matrix.c:269-360 | for every seed, N up to 128 and byte constant, every partial sum of all four kernels on the matrices of a run fits in 32 bits |
| MatrixInit.MatrixTestExact | tests/programs/custom/coremark/core_matrix.c:130-163 | so for N up to 128 the coded value is that of the mathematical products |
| MatrixInit.DimensionAtMost128 | tests/programs/custom/coremark/core_matrix.c:192-197 | N is at most 128 exactly for blocks of at most 133128 bytes |
| Items.CalcCaches | tests/programs/custom/coremark/core_list_join.c:69-114 | after one call of calc_func the item is cached: a second call returns the same and writes nothing, and the upper byte never changes |
| Items.PlainValue | tests/programs/custom/coremark/core_list_join.c:100-104 | an item of type 2 to 7 is cached with its own lower seven bits, and its whole word is coded |
| Items.TextValue | tests/programs/custom/coremark/core_list_join.c:82-93 | an item of type 0 is given the code of the counters of both scans at its own stride, corrupted with seed1 and then with seed2; the text stays if and only if every visited byte comes back |
| Items.CmpComplexLawful | tests/programs/custom/coremark/core_list_join.c:120-126 | cmp_complex, with all its effects, is a lawful comparator, which keeps cached values and caches items of type 2 to 7 with their own bits |
| Items.CmpIdxLawful | tests/programs/custom/coremark/core_list_join.c:133-142 | cmp_idx with NULL, which rewrites both items, is a lawful comparator |
| Items.CmpIdxOnlyLawful | tests/programs/custom/coremark/core_list_join.c:133-142 | cmp_idx with a results structure writes nothing and is a lawful comparator |
| Items.RegeneratedUnique | tests/programs/custom/coremark/core_list_join.c:136-140 | an item regenerated from its backup byte is the original one |
| Results.CoreBenchMatrix | tests/programs/custom/coremark/core_matrix.c:92-104 | codes the result of matrix_test, leaves A as it was and the product with bit extraction in C |
| Results.Calculate | tests/programs/custom/coremark/core_list_join.c:82-104 | for any seeds, the switch runs the selected benchmark and stores the first nonzero result; matrices are left as they were and the text as two corruptions leave it |
| Results.CalcFunc | tests/programs/custom/coremark/core_list_join.c:69-114 | for any seeds: returns the cached seven bits, calculating and caching them if needed, with its effects on the item, the registers and the text |
| LinkedList.CallCmp | tests/programs/custom/coremark/core_list_join.c:120-142 | a comparison through the function pointer, for any seeds: both records, the registers, the text and the sign of the result |
| Sorting.MergePermutes | tests/programs/custom/coremark/core_list_join.c:541-580 | merging two runs permutes them, with at most one comparison an element |
| Sorting.PassPermutes | tests/programs/custom/coremark/core_list_join.c:514-581 | a pass permutes the list, with at most n comparisons |
| SortProof.MergeRuns | tests/programs/custom/coremark/core_list_join.c:541-580 | merging two runs whose items may still be rewritten by the comparison gives a sorted, stable run of settled items |
| SortProof.PassRuns | tests/programs/custom/coremark/core_list_join.c:514-591 | one pass doubles the length of the runs |
| SortProof.SortIsRight | tests/programs/custom/coremark/core_list_join.c:478-595 | for every lawful comparator: a sorted, stable permutation by the final keys; no item changes once settled; and with two nodes or more every item has been compared |
| SortProof.SortElsewhere | tests/programs/custom/coremark/core_list_join.c:499-595 | the sort changes no item of a node outside the list it sorts |
| SortProof.SortCost | tests/programs/custom/coremark/core_list_join.c:505-591 | the sort on values compares at most n times in each of the passes that Passes counts |
| SortProof.PassesAreLog | tests/programs/custom/coremark/core_list_join.c:505-591 | Passes is max(1, ceil(log2 n)); MergeSort.CoreListMergesort counts its turns by it |
| SortProof.RestoredFromAnyOrder | tests/programs/custom/coremark/core_list_join.c:221-222 | a stable sort brings back a sorted order from every rearrangement whatever if and only if the keys are distinct |
| MergeSort.MergeOne | tests/programs/custom/coremark/core_list_join.c:541-578 | one turn of the inner loop keeps the heap a merged list and two rests, and the goal of the merge |
| MergeSort.StepAlong | tests/programs/custom/coremark/core_list_join.c:523-531 | the walk along the first run finds its length and the start of the second |
| MergeSort.SortPass | tests/programs/custom/coremark/core_list_join.c:507-587 | one pass on the heap relinks the nodes as the pass on values orders them, and tells whether it made more than one merge |
| MergeSort.CoreListMergesort | tests/programs/custom/coremark/core_list_join.c:499-595 | the sort relinks the nodes in place, terminates, and leaves order, records and registers exactly as the sort on values says; it makes exactly max(1, ceil(log2 n)) passes with at most n comparisons each, and insize is 1 or below n in every pass |
| ListOps.CoreListFind | tests/programs/custom/coremark/core_list_join.c:434-449 | the first element that matches by idx, or by low byte for a negative idx, else null |
| ListOps.CoreListReverse | tests/programs/custom/coremark/core_list_join.c:464-476 | the list reversed in place, header included |
| ListOps.MoveNext | tests/programs/custom/coremark/core_list_join.c:189-195 | the element behind the one found moves behind the head |
| ListOps.CoreListRemove | tests/programs/custom/coremark/core_list_join.c:376-389 | the list without its third node, the records of the second and third exchanged |
| ListOps.CoreListUndoRemove | tests/programs/custom/coremark/core_list_join.c:407-419 | links and record pointers are those before the removal |
| ListBench.SearchAll | tests/programs/custom/coremark/core_list_join.c:172-202 | however many searches there are, they only rearrange the list |
| ListBench.SearchPhase | tests/programs/custom/coremark/core_list_join.c:164-203 | order, last search key and value after all searches |
| ListBench.RemoveAndCode | tests/programs/custom/coremark/core_list_join.c:207-220 | remove, code the rest from the element found on, and put it back: the list and its record pointers are unchanged |
| ListBench.SortByDataIsRight | tests/programs/custom/coremark/core_list_join.c:69-126 | the sort whose comparison writes to the records: sorted and stable by the values cached in the end, all cached with two nodes or more, items of type 2 to 7 with their own lower bits, cached values and backup bytes never changed |
| ListBench.PlainInOrder | tests/programs/custom/coremark/core_list_join.c:69-126 | items of type 2 to 7 end up in order of the low bytes they had before, whatever the benchmarks return for the others |
| ListBench.CoreBenchList | tests/programs/custom/coremark/core_list_join.c:151-235 | for any seeds and any list of three nodes or more: value, order, records, registers and text are those of the function on values, and the record pointers are unchanged |
| CallValue.SearchesWorth | tests/programs/custom/coremark/core_list_join.c:172-203 | the searches contribute the sum of their gains: 4 for a hit, and 1 more if bits 0 and 9 of the data found are set; for a miss bit 8 of the data behind the new head, minus 1; and hits and misses together are the number of searches modulo 2^16 |
| CallValue.EvenHits | tests/programs/custom/coremark/core_list_join.c:172-203 | hits on even data are worth 4 each |
| CallValue.ClearMisses | tests/programs/custom/coremark/core_list_join.c:172-203 | misses with bit 8 clear cost 1 each |
| CallValue.CallValueIs | tests/programs/custom/coremark/core_list_join.c:203-234 | the value of a call is the code, from the sum of the gains on, of an explicit list of words: the data of the first element before the last sort, once for every element from the one found on, and the data of the first element after it, once for each of the others |
| Restore.RestoredIff | tests/programs/custom/coremark/core_list_join.c:156 | every call restores every record and keeps the list sorted; it restores the order if and only if elements with equal idx have kept their order up to the last sort |
| Restore.StableUnique | tests/programs/custom/coremark/core_list_join.c:221-222 | a sorted list is determined by its elements and the order of its ties |
| Restore.DistinctRestores | tests/programs/custom/coremark/core_list_join.c:156 | with distinct idx values the order is restored for all arguments |
| Restore.NoSearchRestores | tests/programs/custom/coremark/core_list_join.c:156 | a call without searches and without sort by data restores every order |
| Restore.RestoredAfterMisses | tests/programs/custom/coremark/core_list_join.c:172-186 | when all searches miss, the order is restored if and only if their number is even or the idx values differ |
| Restore.TieLost | tests/programs/custom/coremark/core_list_join.c:172-202 | whatever the data, one, two, three or four searches by data change the order of any two elements |
| Restore.TieNotRestored | tests/programs/custom/coremark/core_list_join.c:156 | so if two elements share an idx, some call with finder_idx -1 and seed3 from 1 to 4 does not restore the order, from any state of the other benchmarks |
| Restore.AlwaysRestoredIff | tests/programs/custom/coremark/core_list_join.c:156 | the calls that iterate may make, with finder_idx 1 and -1, restore the order for every seed3 if and only if the idx values differ; then all calls do |
| Restore.HeaderStays | tests/programs/custom/coremark/core_list_join.c:221-222 | if no element shares the header's idx, the header stays the first node |
| Restore.HeaderLost | tests/programs/custom/coremark/core_list_join.c:156 | if one does, an odd number of misses brings another node in front of the header |
| ListIndex.ListFits | tests/programs/custom/coremark/core_list_join.c:254-260 | headers and data items fit into the block for 32-bit and 64-bit pointers |
| ListIndex.InitialItemFacts | tests/programs/custom/coremark/core_list_join.c:266-289 | every initial item is its own backup, and only header and tail count as cached |
| ListIndex.ItemKind | tests/programs/custom/coremark/core_list_join.c:279-289 | the i-th item asks for operation i modulo 8, and its input is 0x11 times the lower four bits of seed xor i, whatever the seed |
| ListIndex.IdxDistinctIff | tests/programs/custom/coremark/core_list_join.c:293-309 | the idx values differ if and only if the size is at most 322 and no mixed one falls among the first fifth, for all sizes and seeds |
| ListIndex.LargeListsRepeat | tests/programs/custom/coremark/core_list_join.c:301-307 | positions 256 apart share an idx when the position is even and bit 8 of it is clear |
| ListIndex.SimpleGoodSeeds | tests/programs/custom/coremark/core_list_join.c:301-307 | seed 0, and every seed with one of the bits 8 to 13, gives distinct idx values up to size 258 |
| ListInit.CoreListInsertNew | tests/programs/custom/coremark/core_list_join.c:335-360 | takes the next header and data item and links them behind the insertion point, or does nothing when room runs out |
| ListInit.InsertItems | tests/programs/custom/coremark/core_list_join.c:279-289 | after the loop all headers but the last form a list in the opposite order of insertion, each with its own data item |
| ListInit.NumberItems | tests/programs/custom/coremark/core_list_join.c:290-309 | the walk numbers every element but header and tail |
| ListInit.CoreListInit | tests/programs/custom/coremark/core_list_join.c:250-319 | the list of all headers but the last, with the initial records, stably sorted by idx |
| ListInit.EndsOfTheList | tests/programs/custom/coremark/core_list_join.c:266-278 | exactly size-1 nodes of the block, the fake header with data 0x8080 and idx 0 first and the fake tail with data 0xffff and idx 0x7fff last |
| ListInit.InitialKeysDistinct | tests/programs/custom/coremark/core_list_join.c:293-309 | the idx values on the heap differ if and only if size and seed meet the condition |
| InitialRun.InitialRestoredIff | tests/programs/custom/coremark/core_list_join.c:156 | the list that initialisation builds, of any size and with any seed, is restored by every call that iterate may make if and only if its idx values differ |
| InitialRun.InitialRunKeeps | tests/programs/custom/coremark/core_main.c:63-71 | for every size, seed, seed3 and number of calls: all records are the initial ones, the list seen from res->list is sorted and has at least three nodes, what it lacks has the header's idx, and nothing is lacking if no element shares that |
| InitialRun.InitialRunProceeds | tests/programs/custom/coremark/core_main.c:63-71 | for every size and seed no call runs out of nodes |
| InitialRun.EveryMissRestoresIff | tests/programs/custom/coremark/core_main.c:65-66 | in a run with seed3 1 and a seed that is no multiple of 8, each call with finder_idx -1, wherever the run stands, restores the order it found if and only if the idx values in that list differ; and, if no element of the initial list shares the header's idx, if and only if those of the initial list differ |
| InitialRun.SeedFourLosesOrder | tests/programs/custom/coremark/core_list_join.c:301-309 | an input that fails: seed 4 in 666 bytes, where positions 3 and 7 share the idx 3 |
| InitialRun.NodesKeptIff | tests/programs/custom/coremark/core_main.c:65-66 | a call with one search by data leaves all nodes reachable from res->list if and only if no other element has the header's idx |
| InitialRun.SeedSevenLosesNodes | tests/programs/custom/coremark/core_list_join.c:301-309 | an input that fails: seed 7 in 666 bytes, where position 7 has idx 0 |
| InitialRun.MostSeedsLead | tests/programs/custom/coremark/core_list_join.c:301-309 | only a seed that ends in three ones can give another element the header's idx, up to size 5 * 0x7fff |
| InitialRun.TextKeptIff | tests/programs/custom/coremark/core_main.c:63-71 | with equal seed bytes the text after any positive number of calls is the initial one if and only if no item's stride visits a byte equal to comma xor seed |
| InitialRun.QuietSeedIsHarmless | tests/programs/custom/coremark/core_state.c:97-103 | a condition on the seed byte alone under which there is no such item |
| InitialRun.SeedTwentyFiveHarms | tests/programs/custom/coremark/core_state.c:97-103 | for seed 25 and blocks from 280 bytes on there is one |
| InitialRun.IterationsRepeat | tests/programs/custom/coremark/core_main.c:63-71 | distinct idx values, equal seed bytes and no such item: every call starts from the original list, records and text |
| InitialRun.InitialLogLength | tests/programs/custom/coremark/core_main.c:63-71 | unless another element has the header's idx, every iteration codes size-1 words: each item once, and two call values |
| InitialRun.FirstSortOrders | tests/programs/custom/coremark/core_list_join.c:204-206 | after the first sort by data the elements of type 2 to 7 stand in order of their initial low bytes |
| CoreMark.HalfIteration | tests/programs/custom/coremark/core_main.c:65-66 | for any list of three nodes or more: one call of core_bench_list and the code of its value, and the list as it is seen from res->list afterwards |
| CoreMark.Iterate | tests/programs/custom/coremark/core_main.c:51-73 | as long as every call finds the three nodes it reads, for any seeds: the run goes through the states of the function on values; list, records, text and registers are those after twice as many calls as iterations, and the list value is that of the first iteration |
| RunLog.RegisterIsCode | tests/programs/custom/coremark/core_main.c:51-73 | the register of a run is the code of an explicit log: the value of every item when it is first looked at, and the value of every call, in order; the matrix and state values are the first in the log that are not zero |
| RunLog.LogGrows | tests/programs/custom/coremark/core_main.c:63-71 | a call only adds to the log, and its own value last |
| RunLog.OneValueDetected | tests/programs/custom/coremark/core_main.c:63-71 | no single value of a run can change without changing the register |
| RunLog.CalculatedOnce | tests/programs/custom/coremark/core_list_join.c:69-114 | the sort by data calculates every item of its list that is not cached exactly once |
| TextRun.SortDamages | tests/programs/custom/coremark/core_list_join.c:82-93 | with equal seed bytes the sort by data puts a comma exactly where some uncached item of the text benchmark visits a byte equal to comma xor seed |
| TextRun.SortDamagesOnce | tests/programs/custom/coremark/core_list_join.c:82-93 | once this is so, sorting any part of the list leaves the text as it is |
| Iterations.RunKeeps | tests/programs/custom/coremark/core_main.c:63-71 | for any list with two elements that have a larger idx than the header: over any number of calls all records are kept, the list stays sorted with the same header first, and only elements with the header's idx can get lost |
| Iterations.RunProceeds | tests/programs/custom/coremark/core_main.c:63-71 | so no call runs out of nodes |
| Iterations.RunRestoresList | tests/programs/custom/coremark/core_main.c:63-71 | with distinct idx values every call starts from exactly the original list |
| Iterations.RunDamages | tests/programs/custom/coremark/core_main.c:63-71 | with equal seed bytes every call after the first starts from the same text, with all the damage the first call did, even if elements get lost |
| Iterations.RunKeepsTextIff | tests/programs/custom/coremark/core_main.c:63-71 | the text of a run of one call or more is the original one if and only if no item visits a bad byte |
| Iterations.RunRepeats | tests/programs/custom/coremark/core_main.c:63-71 | list, records and text before every call are the original ones |
| Renaming.Reproducible | tests/programs/custom/coremark/core_main.c:226-239 | two runs with the same block size and seeds, whatever the seeds, have the same registers and the same text after any number of calls, wherever their list nodes lie: search, sort, removal and coding commute with renaming the nodes |
| Renaming.SortAlike | tests/programs/custom/coremark/core_list_join.c:499-595 | the sort, with the effects of its comparator, commutes with renaming the nodes |
| Reports.ReportsSettle | tests/programs/custom/coremark/core_main.c:63-71 | the list value that is reported is the register after two calls, for every number of iterations, and the matrix and state values never change once they are not zero |
| Benchmark.MatrixSeedIs | tests/programs/custom/coremark/core_main.c:230-232 | the two seeds combine to seed1 + 2^16 seed2, or to seed1 alone when it is negative |
| Benchmark.DefaultSeedsAre | tests/programs/custom/coremark/core_main.c:146-160 | the two special seed settings and no others are replaced |
| Benchmark.DefaultExecsAre | tests/programs/custom/coremark/core_main.c:142-145 | no selection means all three |
| Benchmark.Partition | tests/programs/custom/coremark/core_main.c:199-219 | the size of a block, and the start of the block of every selected algorithm |
| Benchmark.BlocksDisjoint | tests/programs/custom/coremark/core_main.c:199-219 | the blocks do not overlap and lie inside the memory |
| Benchmark.StandardRunsRepeat | tests/programs/custom/coremark/core_portme.c:45-58 | the performance, validation and profile runs on 2000 bytes meet all conditions for identical iterations, at every address |
| Benchmark.MatricesReachText | tests/programs/custom/coremark/core_matrix.c:198-218 | for blocks of 8N^2 + 1 bytes at an address divisible by 4 and N from 2 to 34, C ends two bytes inside the text, and matrix_test makes these bytes zero, of which the first is not zero in the initial text; for every seed and byte constant |
| Benchmark.SixHundredFortyNine | tests/programs/custom/coremark/core_main.c:205-219 | an input that fails: the performance seeds with 1947 bytes, where all other conditions for identical iterations hold |
| Benchmark.Setup | tests/programs/custom/coremark/core_main.c:220-239 | for any seeds, initialisation establishes what the run loop needs: the list sorted by idx with the initial records, the text, the matrices, and a terminated text |
| Benchmark.Run | tests/programs/custom/coremark/core_main.c:139-239 | a whole run from seeds to registers, for any seeds and every number of iterations, in which C does not reach the text, goes through the states of the function on values, started from the initial list and text |
| Benchmark.RunIsRepeated | tests/programs/custom/coremark/core_main.c:63-71 | under the conditions of Repeatable every call of a run starts from what initialisation left |
| Benchmark.SeedTwentyFiveDamages | tests/programs/custom/coremark/core_main.c:63-71 | an input whose iterations differ: with seeds 25 and 25 every call after the first finds another text than the initial one |
| Benchmark.RunMatrixExact | tests/programs/custom/coremark/core_list_join.c:94-101 | in blocks of up to 133128 bytes, for all seeds, every item of the matrix benchmark is given the code of the mathematical products |
| Benchmark.RunsAgree | tests/programs/custom/coremark/core_main.c:226-239 | the registers and the text of a run in which C does not reach the text are determined by block size, seeds and number of calls, wherever the memory is |

## Left out

- Results of the run on the console, timing, the tables of known values, and everything in the portable_ functions: they do not change what is computed.
- The automatic choice of the number of iterations: it depends on a clock. The model takes the number as a parameter.
- parseval and get_seed_args: not compiled with the default way of passing seeds. Seeds are parameters.
- More than one context, and the allocation of memory: the model is the static single context.
- Raw addresses: list headers and data items are objects in sequences that stand for the block, and text and matrices are arrays. On addresses, Benchmark.BlocksDisjoint and ListIndex.ListFits show that blocks and their parts do not overlap, except for the end of C, for which MatrixInit.FitsInside gives the exact condition. Addresses have 32 bits.
- Runs that do not select all three algorithms: iterate calls core_bench_list without regard to the selection, so the loop needs all three blocks. Benchmark.Partition covers every selection.
- Matrix.MatrixMulMatrix: the two functions with and without bit extraction share one method with a flag. Sums beyond 32 bits, which the language leaves undefined and which MatrixInit.SumsFit excludes up to N 128, wrap around in the model.
- Matrix.MatrixTest: the result is the bit pattern of the signed short.
- StateBench.CoreBenchState: the counters are natural numbers that are reduced modulo 2^32 when they are coded.
- ListBench.CoreBenchList: needs at least three nodes, which the code dereferences without a test.
- Benchmark.Run: needs room for four headers, and a block size with which C does not reach the text; what a run computes when it does is not modelled beyond Benchmark.MatricesReachText. Benchmark.Setup has no such condition, because C is not written during initialisation.
- InitialRun.NodesKeptIff: states one call with one search by data that misses; which other calls lose nodes depends on where the searches hit.
- InitialRun.MostSeedsLead: up to 163835 elements, above which the numbering of the first fifth wraps to negative values.
- The directed hardware tests, the other programs, and the scripts of the repository.
