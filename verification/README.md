# HugeFileProcessor, modelled in Dafny

HugeFileProcessor is a command-line tool for text files too large to load
into memory. It has four commands:

- `-shuffle` writes the lines in a random order. It counts the lines, draws
  a Fisher–Yates order array, and then emits the output batch by batch. For
  each batch it makes one forward scan of the whole file.
- `-split` routes lines to a `.test` and a `.train` file by a periodic
  fraction test, with an optional line limit.
- `-count` counts the non-blank lines.
- `-chunk` cuts the file into numbered chunk files.

The model treats a file as a `seq<string>` of its lines and a writer as the
sequence of lines it receives. A C# exception, or a loop that never ends,
becomes an `Err` of `Lines.Result`. The imperative parts stay imperative:

- the Fisher–Yates pass swaps entries of an `array<int>`;
- `ProcessBatch` fills arrays and walks a `LineReader` object whose cursor
  `position` counts the `ReadLine` calls;
- the shuffle, split, count and chunk drivers are loops over counters.

Each of these methods is proved against pure specification functions:

- `GatherOrEmpty` is the shuffled output;
- `TestLines` and `TrainLines` are the split outputs;
- `NonBlankIndices` gives the count;
- `Flatten` and `ChunkShape` give the chunk layout.

Lemmas about those functions carry the properties: permutation,
partition, round trip, counts and order.

Modules:

- `Lines`: shared types, the C# `/` and `%` operators, and the line reader.
- `Permutations`: permutations of `0..n-1`.
- `OrderArray`: `GetOrderArray`.
- `Count`: `CountLines`.
- `Batch`: `ProcessBatch`.
- `Shuffle`: `MainShuffle`.
- `Split`: `MainSplit`.
- `Chunk`: `Chunkify`.
- `Cli`: argument handling in `Main`.

The model follows the code throughout, including its sharp edges:

- Two slots of a batch may ask for the same source line. Only the first of
  them in scan order receives it; the other is written as an empty line.
- A source index past the end of the file is also written as an empty line.
- `-chunk` has no `return`, so when chunking returns normally the program
  goes on to print the usage text and exit with code 1.

Two places where the code falls short of what the program's own usage text
promises are listed under Findings. The usage text says `-shuffle` "shuffles
lines from <sourceFile>" and `-chunk` writes chunks "each having
<chunkSize> lines" (Program.cs:100-102).

## Model

| member | source | states |
|---|---|---|
| Lines.CsDiv | src/HugeFileProcessor/Program.cs:295 | C# integer division truncates toward zero: the quotient is non-negative when the operands agree in sign |
| Lines.CsRem | src/HugeFileProcessor/Program.cs:262 | C# remainder takes the dividend's sign and lies strictly within the divisor's magnitude |
| Lines.CsDivRem | src/HugeFileProcessor/Program.cs:295 | the C# quotient and remainder recombine into the dividend |
| Lines.IsWhiteSpace | src/HugeFileProcessor/Program.cs:191 | the characters `Char.IsWhiteSpace` accepts: U+0009..U+000D, U+0085, and the Unicode space, line and paragraph separators |
| Lines.IsBlank | src/HugeFileProcessor/Program.cs:191 | `string.IsNullOrWhiteSpace` on a line read from the file: every character is white space, so the empty line is blank |
| Lines.ReadAt | src/HugeFileProcessor/Program.cs:168 | `ReadLine` yields a line exactly when the cursor is inside the file, and `null` past its end |
| Lines.LineReader.ReadLine | src/HugeFileProcessor/Program.cs:168-169 | each call returns the line at the cursor (or `null`) and advances the cursor by one |
| Lines.Text | src/HugeFileProcessor/Program.cs:177 | `WriteLine(null)` writes an empty line; any other line is written as it is |
| Permutations.PermutationFacts | src/HugeFileProcessor/Program.cs:214-226 | a permutation of `0..n-1` has length n, only in-range entries, no repeated entry, and contains every index |
| Permutations.SwapKeepsPermutation | src/HugeFileProcessor/Program.cs:223-225 | exchanging two entries keeps a permutation of `0..n-1` a permutation |
| OrderArray.GetOrderArray | src/HugeFileProcessor/Program.cs:209-229 | for every sequence of draws in `[0, n-i)`, the order array has length n and is a permutation of `0..n-1`; for n <= 1 it is the identity |
| Count.CountLines | src/HugeFileProcessor/Program.cs:183-207 | the count equals the number of positions holding a line that is not empty or all white space, and never exceeds the number of raw lines |
| Count.NonBlankCountIsIndexCount | src/HugeFileProcessor/Program.cs:189-196 | counting line by line equals counting non-blank positions; the count equals the raw line count exactly when no line is blank |
| Count.NonBlankCountSnoc | src/HugeFileProcessor/Program.cs:189-195 | one more line raises the count by one exactly when that line is not blank |
| Count.CountTwice | src/HugeFileProcessor/Program.cs:183-207 | two counts of the same unchanged file agree, which follows from CountLines' contract |
| Batch.Pairs | src/HugeFileProcessor/Program.cs:148-152 | one work item per slot of the batch |
| Batch.SortByKey | src/HugeFileProcessor/Program.cs:153 | the work items come out sorted by source index and are a rearrangement of the input items |
| Batch.Insert | src/HugeFileProcessor/Program.cs:153 | inserting into a key-sorted sequence keeps it sorted and adds exactly that item |
| Batch.MultisetOfPairs | src/HugeFileProcessor/Program.cs:149-153 | after sorting, every item still targets a distinct in-range slot with that slot's source index, and every slot keeps its item |
| Batch.Cursor | src/HugeFileProcessor/Program.cs:162-169 | the reader's `lineIndex` when the scan reaches a work item is -1 or the key of the item before it, and, over sorted work items, it is at least the key of every earlier item, so the cursor never moves backwards |
| Batch.Fetched | src/HugeFileProcessor/Program.cs:164-171 | a slot receives a line only if its source index lies in the file, and then exactly that line; over sorted work items it receives one exactly when its index lies in the file and every earlier item asks for a smaller index |
| Batch.FetchedFacts | src/HugeFileProcessor/Program.cs:162-171 | a slot whose source index is in the file and asked for by no other slot receives that line; an index outside the file leaves `null`; anything read is the requested line |
| Batch.RepeatedKeyFetchedOnce | src/HugeFileProcessor/Program.cs:163-171 | of two work items asking for the same line, the later one in the scan gets `null` because the cursor is already past it |
| Batch.SlotFacts | src/HugeFileProcessor/Program.cs:163-178 | the written slot i is the requested line when the index is unique and in the file, and is empty when the index is outside the file |
| Batch.RepeatedSlots | src/HugeFileProcessor/Program.cs:163-171 | of two slots asking for the same line, at least one is left `null` |
| Batch.FirstOfKeyFetched | src/HugeFileProcessor/Program.cs:162-171 | the first work item in scan order that asks for a line of the file finds the cursor behind it and receives that line |
| Batch.SomeSlotDelivers | src/HugeFileProcessor/Program.cs:163-178 | a line of the file that some slot asks for is written to one of the slots asking for it, even when several do |
| Batch.RepeatedKeyBlock | src/HugeFileProcessor/Program.cs:163-177 | for a one-line file and two slots both asking for line 0, the block is that line and an empty line, in one order or the other |
| Batch.ScanGivesBlock | src/HugeFileProcessor/Program.cs:159-178 | the block written for the batch satisfies all the slot facts; the scan reads exactly up to the largest key |
| Batch.ReadUpTo | src/HugeFileProcessor/Program.cs:165-170 | the inner loop advances the cursor to the key only when the cursor is behind it, and returns that line; otherwise it returns `null` and reads nothing |
| Batch.Scan | src/HugeFileProcessor/Program.cs:160-173 | every work item's slot holds what the cursor walk fetches for it; the number of `ReadLine` calls is the largest key plus one, so the cursor only moves forward and no line is read twice |
| Batch.WriteLines | src/HugeFileProcessor/Program.cs:175-178 | the block has one line per slot, in slot order, with `null` written as an empty line |
| Batch.BatchLines | src/HugeFileProcessor/Program.cs:147-152 | the work-item array pairs `orderArray[batchStart + i]` with slot i |
| Batch.SortWorkItems | src/HugeFileProcessor/Program.cs:153 | the sorted work items are a sorted rearrangement whose slots are distinct and in range |
| Batch.ScanAndWrite | src/HugeFileProcessor/Program.cs:156-178 | the scan-then-write half of a batch yields a block with all the slot facts |
| Batch.ProcessBatch | src/HugeFileProcessor/Program.cs:145-181 | a negative batch width raises the array-size exception; otherwise the block written has one line per slot, with slot i holding `L[orderArray[batchStart+i]]` when that index is unique and in the file, and an empty line when it is past the end; of slots sharing an in-file index, some slot holds the line and of any two at least one is empty; the scan reads exactly up to the largest index |
| Shuffle.BatchesFrom | src/HugeFileProcessor/Program.cs:127-135 | the ranges `[batchStart, batchEnd]` the batch loop visits, with `batchEnd` clipped to `n - 1`; its properties are the lemmas below |
| Shuffle.BatchesCount | src/HugeFileProcessor/Program.cs:114 | the loop makes `ceil((n - start) / b)` batches; the first starts at `start` and the last ends at `n - 1` |
| Shuffle.BatchesInRange | src/HugeFileProcessor/Program.cs:127-135 | every batch lies in `start..n-1` and is at most b wide |
| Shuffle.BatchesContiguous | src/HugeFileProcessor/Program.cs:127-135 | every batch but the last is exactly b wide and the next batch starts right after it |
| Shuffle.BatchesDisjoint | src/HugeFileProcessor/Program.cs:127-135 | no two batches overlap |
| Shuffle.BatchesCover | src/HugeFileProcessor/Program.cs:127-135 | every output position falls in some batch |
| Shuffle.BatchesPartition | src/HugeFileProcessor/Program.cs:114-135 | for b > 0 the batches partition `0..n-1` into `ceil(n/b)` contiguous ranges of width b, with only the last clipped |
| Shuffle.GatherRespectsMultiset | src/HugeFileProcessor/Program.cs:119-140 | gathering lines by two orders that hold the same indices yields the same lines, in some order |
| Shuffle.GatherPermutation | src/HugeFileProcessor/Program.cs:119-140 | gathering by a permutation of `0..n-1`, with n at most the raw line count, yields a rearrangement of the first n raw lines |
| Shuffle.BlockOfDistinctKeys | src/HugeFileProcessor/Program.cs:145-178 | for distinct non-negative keys the block of a batch is exactly the lines those keys select |
| Shuffle.NextBatch | src/HugeFileProcessor/Program.cs:131-136 | appending a batch's block to the output so far gives the output up to the batch's end |
| Shuffle.EmitBatch | src/HugeFileProcessor/Program.cs:131-136 | one `ProcessBatch` call of the loop: a negative width raises the array-size exception; otherwise the block extends the gathered output by exactly that batch of the order |
| Shuffle.BatchStep | src/HugeFileProcessor/Program.cs:127-136 | one iteration of the batch loop extends the output and the visited batches by the next batch |
| Shuffle.ShuffleInBatches | src/HugeFileProcessor/Program.cs:114-140 | the order is a permutation; a zero batch size never terminates and a negative one raises; otherwise the output is `[L[P[0]], ..., L[P[n-1]]]` and the batches visited are those of the partition |
| Shuffle.MainShuffle | src/HugeFileProcessor/Program.cs:107-143 | the order is a permutation of the non-blank count; the output is a rearrangement of the first `count` raw lines, not of the non-blank lines |
| Shuffle.MainShuffleAllLines | src/HugeFileProcessor/Program.cs:107-143 | with the order sized by the raw line count, the output is a rearrangement of all the input lines |
| Shuffle.BlankLineHidesLastLine | src/HugeFileProcessor/Program.cs:113-136 | for the file `["", "a"]` the shuffle outputs only the blank line and loses `"a"` |
| Shuffle.TenLinesInBatchesOfThree | src/HugeFileProcessor/Program.cs:127-135 | ten lines in batches of three give four scans, of 3, 3, 3 and 1 positions |
| Shuffle.OneBatchWhenSizeIsCount | src/HugeFileProcessor/Program.cs:127-135 | a batch size equal to the line count gives a single batch covering everything |
| Split.GoesToTest | src/HugeFileProcessor/Program.cs:262 | the routing test `(lineIndex - 1) % testFracDown < testFracUp` with C#'s remainder; its meaning is given by the two lemmas below |
| Split.GoesToTestFirstPeriod | src/HugeFileProcessor/Program.cs:262 | within the first `abs(testFracDown)` lines, exactly lines `1..testFracUp` go to test |
| Split.GoesToTestPeriodic | src/HugeFileProcessor/Program.cs:262 | the routing repeats every `abs(testFracDown)` lines |
| Split.RouteStep | src/HugeFileProcessor/Program.cs:261-269 | the next line goes to exactly one output: test when `(k-1) % down < up`, else train |
| Split.SplitSizes | src/HugeFileProcessor/Program.cs:259-279 | test and train together hold exactly as many lines as were processed |
| Split.SplitRoundTrip | src/HugeFileProcessor/Program.cs:259-279 | replaying the routing test over the two outputs interleaves them back into the input, so each output keeps the original order |
| Split.NoTestLinesWhenUpNotPositive | src/HugeFileProcessor/Program.cs:256-269 | when `testFracUp <= 0` nothing is routed to the (null) test writer and train receives every line |
| Split.TestLinesCount | src/HugeFileProcessor/Program.cs:262 | for `0 <= up <= down`, test receives `(N / down) * up + min(N % down, up)` of N lines |
| Split.OneFifthOfFiveLines | src/HugeFileProcessor/Program.cs:262 | five lines split 1/5 send the first line to test and the other four, in order, to train |
| Split.ProcessedCount | src/HugeFileProcessor/Program.cs:244-247 | a negative limit processes up to `Int32.MaxValue` lines and a positive one up to the limit; because the limit is checked after writing, a limit of 0 still processes one line |
| Split.MainSplit | src/HugeFileProcessor/Program.cs:233-283 | a zero denominator throws on the first line; the test file exists exactly when `testFracUp > 0`; the outputs are the routing of the first `ProcessedCount` lines |
| Chunk.ChunksCount | src/HugeFileProcessor/Program.cs:295 | the chunk-count formula `linesCount / chunkSize + (linesCount % chunkSize > 0 ? 1 : 0)` with C#'s operators; its meaning is given by ChunksCountIsCeiling |
| Chunk.ChunksCountIsCeiling | src/HugeFileProcessor/Program.cs:295 | for a positive chunk size the chunk-count formula is `ceil(linesCount / chunkSize)` |
| Chunk.NumberOfDigits | src/HugeFileProcessor/Program.cs:296-302 | the digit loop returns the number of decimal digits of the count, 0 for a count of 0 or less |
| Chunk.OpenChunk | src/HugeFileProcessor/Program.cs:316-320 | opening a new chunk for the next line keeps the layout invariant |
| Chunk.ExtendChunk | src/HugeFileProcessor/Program.cs:315-322 | adding the next line to the open chunk keeps the layout invariant |
| Chunk.AssignToChunks | src/HugeFileProcessor/Program.cs:307-323 | the chunks concatenate back to the input; the first holds `max(C, 0)` lines and each later one `max(C + 1 - reset, 1)` lines, the last at most that |
| Chunk.Chunkify | src/HugeFileProcessor/Program.cs:286-336 | a zero chunk size with no digit count divides by zero; the derived count and digits follow the non-blank count; the chunks concatenate to the input, the first with C lines and every later one with up to C + 1 |
| Chunk.ChunkifyIntended | src/HugeFileProcessor/Program.cs:286-336 | with the counter restarted at 1, every chunk holds C lines except the last, and there are `ceil(N / C)` chunks |
| Chunk.EvenChunksCount | src/HugeFileProcessor/Program.cs:307-323 | a layout of C-line chunks over N lines has `ceil(N / C)` chunks |
| Chunk.WrittenChunksCount | src/HugeFileProcessor/Program.cs:315-321 | as written, a file longer than one chunk gives `1 + ceil((N - C) / (C + 1))` chunks |
| Chunk.SevenLinesWritten | src/HugeFileProcessor/Program.cs:315-322 | as written, 7 lines in chunks of 3 give two files, of 3 and 4 lines |
| Chunk.SevenLinesIntended | src/HugeFileProcessor/Program.cs:102 | with the counter restarted at 1, 7 lines in chunks of 3 give files of 3, 3 and 1 lines |
| Cli.ToLower | src/HugeFileProcessor/Program.cs:50 | lower-casing keeps the length and maps every character |
| Cli.ToLowerIdempotent | src/HugeFileProcessor/Program.cs:50 | lower-casing twice is lower-casing once |
| Cli.SplitOn | src/HugeFileProcessor/Program.cs:62 | `Split('/')` always gives at least one piece, and at least two exactly when the text contains the separator |
| Cli.SplitOnJoin | src/HugeFileProcessor/Program.cs:62 | splitting on `/` loses nothing: joining the pieces gives the text back |
| Cli.SplitOnPieces | src/HugeFileProcessor/Program.cs:62 | no piece of the split contains the separator |
| Cli.Accepts | src/HugeFileProcessor/Program.cs:53-82 | the argument counts each command accepts, its name included: 3 or 4 for `-shuffle`, `-split` and `-chunk`, 2 for `-count` |
| Cli.SelectCommand | src/HugeFileProcessor/Program.cs:48-93 | the result is the usage case exactly when the arguments are empty, or the lower-cased name is not a command, or the count is not one the command accepts; each of `-shuffle`, `-count` and `-chunk` is chosen exactly when named with an accepted count; `-split` is chosen exactly when named with an accepted count and its fraction contains `/`, and fails on the missing denominator exactly when it does not; the source is the second argument; the shuffle batch size is the third and its target the fourth or the source plus `.shuffled`; the split fraction's numerator and denominator are the first two pieces of the third argument split on `/`; the optional fourth argument of `-split` and `-chunk` is carried when present and absent otherwise |
| Cli.Dispatch | src/HugeFileProcessor/Program.cs:17-104 | an encoding is selected exactly when the first of at least two arguments is `-enc` in any case, and it is the second argument; after that prefix, once the selected command returns normally, the usage text and exit code 1 follow exactly when the remaining arguments are empty, name no command, have a count the command does not accept, or name `-chunk` |
| Cli.EncodingPrefixIsTransparent | src/HugeFileProcessor/Program.cs:22-44 | the `-enc` prefix only sets the encoding; the remaining arguments choose the same command they would alone |
| Cli.SecondEncodingPrefixIsUsage | src/HugeFileProcessor/Program.cs:22-58 | only one `-enc` prefix is removed; a second one is an unknown command |
| Cli.CommandNameIgnoresCase | src/HugeFileProcessor/Program.cs:50 | the command name matches regardless of case |
| Cli.SameNameSameCommand | src/HugeFileProcessor/Program.cs:50 | the command depends on the first argument only through its lower-cased form |
| Cli.ShuffleDefaultTarget | src/HugeFileProcessor/Program.cs:52-56 | without a target the shuffle writes to the source name plus `.shuffled` |
| Cli.ChunkEndsWithUsage | src/HugeFileProcessor/Program.cs:81-103 | `-chunk` selects chunking and, when chunking returns normally, falls through to the usage text and exit code 1 |
| Cli.SplitFractionPieces | src/HugeFileProcessor/Program.cs:59-68 | the fraction `1/10` gives numerator `1` and denominator `10` |

## Left out

- File and stream I/O: opening, reading, writing and closing files. The model takes `seq<string>` inputs and outputs. The file names are also not modelled: `Path.ChangeExtension`, the `D<n>` zero-padded chunk numbers, and the `.train`, `.test` and `.<limit>` suffixes. `NewChunkWriter` becomes "open a new chunk".
- The text encoding: `Encoding.GetEncoding` and the code-page lookup are foreign library calls. `Cli.Dispatch` only records which name was given.
- `Int32.Parse` and its exceptions. `Cli.Command` keeps numeric arguments as text, and the drivers take them as integers.
- `System.Random` and the uniformity of the shuffle. Each draw is an arbitrary value in `[0, n-i)`, and only the permutation property is proved.
- `Array.Sort` internals. The sort is stood in for by `Batch.SortByKey`, and only its contract is used: sorted by key and a rearrangement. The scan proofs therefore hold for any order of equal keys.
- Console output, timing, throughput and ETA figures. The floating-point `Math.Ceiling` at line 114 is replaced by integer ceiling division in `Shuffle.BatchesCount`.
- `RunGC` and `IsRunningOnMono`: they are runtime housekeeping with no effect on any output.
- Count.CountLines: does not model 32-bit wrap-around of `linesCount` (Program.cs:188, 195). Past 2^31-1 non-blank lines the C# counter turns negative. `-count` would then print a negative number, `GetOrderArray` would raise on `new int[negative]`, and `Chunkify` would derive its counts from the negative value. The model's count is an unbounded `nat`.
- Shuffle.ShuffleInBatches: does not model 32-bit wrap-around of `batchStart += batchSizeLines` and `batchStart + batchSizeLines - 1`; counters in the model are unbounded integers. These sums overflow for files of more than 2^30 lines, for batch sizes near `Int32.MaxValue`, and for a batch size of `Int32.MinValue`. In that last case, with a one-line file, the first `batchEnd` wraps to `Int32.MaxValue` and is clipped to the last line (Program.cs:131-135), so the whole shuffle is written; the next batch then raises at `new KeyValuePair<int, int>[...]` (Program.cs:148). The model instead returns `Err(NegativeArraySize)` before writing anything.
- Split.MainSplit: does not model wrap-around of `lineIndex` past `Int32.MaxValue`. With a negative limit the loop stops at `Int32.MaxValue` lines, as in the code, before any wrap can happen.
- Cli.ToLower: only ASCII letters are lower-cased. Culture-sensitive and non-ASCII case mapping is not modelled.
- Cli.Dispatch: exceptions raised inside a command are not carried into the `Invocation`. For example `-chunk f 0` divides by zero at Program.cs:295, which `Chunk.Chunkify` returns as `Err(DivideByZero)`, so the usage text is never reached. `usageOnReturn` says only what follows once the command returns normally.
- Cli.Dispatch: `FractionWithoutSlash` marks the `IndexOutOfRangeException` from a fraction without `/`. The exception itself and the other argument exceptions are not modelled further.
- `ProcessBatch` keeps `writeLines` as an array. The written block is returned as a sequence rather than streamed to a shared writer.

## Findings

| source | as written | input that shows it | evidently intended | confidence | as-written member | corrected member |
|---|---|---|---|---|---|---|
| src/HugeFileProcessor/Program.cs:113-136 | the order array is sized by `CountLines`, which skips blank lines, but `ProcessBatch` re-reads raw lines, so the shuffle emits a rearrangement of the first `count` raw lines | the file `["", "a"]`: the count is 1, so the output is `[""]` and `"a"` is lost | every input line appears in the output exactly once | high, proved about the model, not executed | Shuffle.MainShuffle, Shuffle.BlankLineHidesLastLine | Shuffle.MainShuffleAllLines |
| src/HugeFileProcessor/Program.cs:316-318 | after opening a new chunk the counter is reset to 0, and the line just written is not counted, so every chunk after the first holds `chunkSize + 1` lines | 7 lines with `chunkSize` 3 give files of 3 and 4 lines | every chunk holds `chunkSize` lines except the last, which gives 3, 3 and 1 | high, proved about the model, not executed | Chunk.Chunkify, Chunk.SevenLinesWritten, Chunk.WrittenChunksCount | Chunk.ChunkifyIntended, Chunk.SevenLinesIntended, Chunk.EvenChunksCount |
