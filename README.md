# Advent of Code 2024 solutions, modelled in Dafny

This project models a set of Rust solutions to the 2024 Advent of Code
puzzles. Each source file becomes one Dafny module: `Day01` … `Day25` for the
daily solvers, and for the day-24 circuit repair tools `CircuitTypes`
(gates and wire pairs), `CircuitParse` (the circuit grammar), `Correctness`
(the memoised wire evaluator and the two adder checks), `PairsAndSwaps`,
`Search` (the bounded depth-first repair search) and `CircuitRepair` (wire
naming, dependency cones and hitting sets). Shared modules hold what several
days use: `Wrappers` (Option), `Text` (decimal numbers, splitting, joining
and string order), `Grids`, `Sets` and `Graphs` (connected components).

Code that updates state step by step in the source is modelled as methods
with loops and invariants, proved against specification functions: the
disk compaction of day 9, the warehouse robot of day 15 (a class over an
array of cells), the register machine of day 17 (a class with register
fields), the robots of day 14, the region search of day 12, the guard walk
of day 6, the track labelling of day 20, the graph searches of days 10 and
23 and the wire evaluator of day 24. Pure code is modelled as functions and
lemmas. A source panic (`unwrap` on bad input, an index out of range) is
modelled as an absent result (`None`), and every `Part` member states when
an answer exists.

## Model

| member | source | states |
|---|---|---|
| `Day01.DigitRun` | src/solutions/day01.rs:8 | the run taken by `digit1` is all digits and stops at the first non-digit |
| `Day01.BlankRun` | src/solutions/day01.rs:8 | the run taken by `space1` is all spaces and tabs and stops at the first other character |
| `Day01.Number` | src/parse.rs:6-8 | a number read as `i32` lies in `0..=i32::MAX` and consumes at least one character; no digits or overflow is an error |
| `Day01.NumberOf` | src/parse.rs:6-8 | a digit run followed by a non-digit reads as its decimal value and leaves the rest |
| `Day01.ParseLineOf` | src/solutions/day01.rs:8 | `number gap number tail` reads as the two values, for any non-empty blank gap |
| `Day01.ParseLineRoundTrip` | src/solutions/day01.rs:8 | two numbers written in decimal with a blank gap read back as themselves |
| `Day01.Parse` | src/solutions/day01.rs:3-10 | the unzipped columns have one entry per line; a malformed line is an error rather than a panic |
| `Day01.Insert` | src/solutions/day01.rs:16-17 | inserting into a sorted column keeps it sorted and adds exactly that element |
| `Day01.Sort` | src/solutions/day01.rs:16-17 | `sort_unstable` yields a sorted permutation of the column |
| `Day01.SortedUnique` | src/solutions/day01.rs:16-17 | two sorted permutations of the same column are equal, so the unstable sort's result is determined |
| `Day01.SortedPairwise` | src/solutions/day01.rs:16-17 | in a sorted column no element exceeds a later one |
| `Day01.TotalDistanceReorder` | src/solutions/day01.rs:13-23 | part 1's total distance depends only on the multisets of the two columns, not on the line order |
| `Day01.DistanceBounds` | src/solutions/day01.rs:19-22 | the sum of absolute differences is non-negative and zero for equal columns |
| `Day01.TotalDistanceBounds` | src/solutions/day01.rs:13-23 | the total distance is never negative, and zero when both columns hold the same ids in any order |
| `Day01.Part1` | src/solutions/day01.rs:12-23 | part 1 answers exactly when every line parses; the answer is never negative and is zero when the columns hold the same ids |
| `Day01.CountMultiset` | src/solutions/day01.rs:30 | the filter-count of `b == a` is the multiplicity of `a` in the right column |
| `Day01.SimilarityAppend` | src/solutions/day01.rs:29-31 | the similarity sum splits over a concatenation of left columns |
| `Day01.SimilarityLeft` | src/solutions/day01.rs:26-32 | reordering the left column leaves the similarity unchanged |
| `Day01.SimilarityRight` | src/solutions/day01.rs:26-32 | only how often each id occurs on the right matters |
| `Day01.SimilarityReorder` | src/solutions/day01.rs:26-32 | part 2's similarity depends only on the multisets of both columns |
| `Day01.ExampleDistance` | src/solutions/day01.rs:12-23 | the example input's total distance is 11 |
| `Day01.ExampleSimilarity` | src/solutions/day01.rs:25-32 | the example input's similarity score is 31 |
| `Day01.SimilarityDisjoint` | src/solutions/day01.rs:29-31 | a left column none of whose ids occurs on the right scores zero |
| `Day01.Part2` | src/solutions/day01.rs:25-32 | part 2 answers exactly when every line parses, and answers zero when no left id occurs on the right |
| `Day02.ValidListGradual` | src/solutions/day02.rs:19-29 | a list valid for a direction moves strictly that way between any two positions, by at most 3 per step |
| `Day02.SafeMeans` | src/solutions/day02.rs:12-15 | a report is safe iff every adjacent pair differs by 1 to 3 and all differences share the first pair's sign |
| `Day02.ValidPair` | src/solutions/day02.rs:19-23 | a step is valid exactly when it rises by 1 to 3 for direction 1, or falls by 1 to 3 for direction -1; direction 0 allows no step |
| `Day02.ValidList` | src/solutions/day02.rs:25-29 | a report of fewer than two levels has no window and is valid in any direction; a longer valid report has a first valid step, so its direction is 1 or -1 |
| `Day02.Without` | src/solutions/day02.rs:39-45 | the report without the level at `exclude` is one shorter and keeps the other levels in order; `exclude == len` removes nothing |
| `Day02.SafeFromMeans` | src/solutions/day02.rs:38-48 | the `any` over exclusions from `from` on holds iff some exclusion in that range gives a safe report |
| `Day02.DampenedMeans` | src/solutions/day02.rs:35-48 | a report passes part 2 iff it is safe or removing exactly one level makes it safe |
| `Day02.SafeIsDampened` | src/solutions/day02.rs:35-48 | every report counted by part 1 is counted by part 2 |
| `Day02.Reports` | src/solutions/day02.rs:1-6 | every parsed report has one list per line with at least the levels the part indexes; a bad number or short report is an error |
| `Day02.CountSafe` | src/solutions/day02.rs:9-17 | part 1's count is at most the number of reports |
| `Day02.CountDampened` | src/solutions/day02.rs:32-51 | part 2's count is at most the number of reports |
| `Day02.Part1` | src/solutions/day02.rs:8-17 | part 1 counts at most one report per line |
| `Day02.Part2` | src/solutions/day02.rs:31-51 | part 2 counts at most one report per line |
| `Day02.CountSafeAtMostDampened` | src/solutions/day02.rs:9-51 | dampening never lowers the count |
| `Day02.ReportsMinimum` | src/solutions/day02.rs:1-6 | input that part 2 accepts is accepted by part 1 with the same reports |
| `Day02.Part1AtMostPart2` | src/solutions/day02.rs:9-51 | when part 2 answers, part 1 answers too and its count is no larger |
| `Day02.ExampleSafe` | src/solutions/day02.rs:53-62 | of the six example reports exactly the first and last are safe, giving part 1's expected 2 |
| `Day04.MatchShape` | src/solutions/day04.rs:13-24 | a counted (cell, direction) has all four cells inside the grid, starts on `X`, and never uses direction (0,0); off-grid and wrapped positions never match |
| `Day04.WordBackwards` | src/solutions/day04.rs:16-22 | `XMAS` read forwards from a cell is `SAMX` read back from the far end in the opposite direction, so both orientations are found |
| `Day04.Corners` | src/solutions/day04.rs:38-41 | the four diagonal neighbours, in the order (−1,−1), (−1,1), (1,1), (1,−1) |
| `Day04.IsCrossMeans` | src/solutions/day04.rs:32-47 | the two-M-two-S test with equal adjacent corners holds exactly when both diagonals through the `A` read `MAS` one way or the other |
| `Day04.AnyMatch` | src/solutions/day04.rs:11-25 | the set of matches is non-empty exactly when `XMAS` reads from some cell in some direction, and then some cell holds `X` |
| `Day04.Part1` | src/solutions/day04.rs:11-25 | part 1 is non-zero exactly when `XMAS` reads from some cell in one of the eight directions, and only on a grid holding an `X` |
| `Day04.AnyCross` | src/solutions/day04.rs:27-49 | the set of crosses is non-empty exactly when some `A` has both diagonals reading `MAS` one way or the other |
| `Day04.Part2` | src/solutions/day04.rs:27-49 | part 2 is non-zero exactly when some `A` has both of its diagonals reading `MAS`, either way round |
| `Day05.ParseRuleRoundTrip` | src/solutions/day05.rs:10-16 | a rule written as `before|after` reads back as that pair |
| `Day05.ParsePrint` | src/solutions/day05.rs:21-25 | a parsed print holds at least one page |
| `Day05.ParsePrintRoundTrip` | src/solutions/day05.rs:21-25 | pages written with commas read back as the same pages |
| `Day05.Separator` | src/solutions/day05.rs:4 | `split("\n\n")` cuts at the first blank line that has a line on each side, and there is no cut iff no such line exists |
| `Day05.TextLines` | src/solutions/day05.rs:19-20 | `lines` on a piece gives its lines, less a final empty one |
| `Day05.Sections` | src/solutions/day05.rs:4-6 | the two pieces exist iff the input has a cut; together they are shorter than the input, and only their first line can be blank |
| `Day05.SectionsRoundTrip` | src/solutions/day05.rs:4-6 | two non-empty sections without blank lines, written with one blank line between them, read back as those sections |
| `Day05.ThreeNewlines` | src/solutions/day05.rs:4-26 | three newlines in a row start the prints with an empty line, and the input then fails to parse, where the source panics |
| `Day05.ParseRules` | src/solutions/day05.rs:8-17 | rules parse iff every line does, one rule per line in order |
| `Day05.ParsePrints` | src/solutions/day05.rs:19-26 | prints parse iff every line does, one print per line in order |
| `Day05.Parse` | src/solutions/day05.rs:3-29 | every parsed print is non-empty; a missing section or malformed line is an error rather than a panic |
| `Day05.Position` | src/solutions/day05.rs:39-40 | `position` finds the first index holding the page, and fails iff the page is absent |
| `Day05.PositionDistinct` | src/solutions/day05.rs:39-40 | in a print without repeated pages the page at `i` is found at `i` |
| `Day05.CorrectMeans` | src/solutions/day05.rs:36-47 | a print without repeats is correct iff no rule names a later page before an earlier one |
| `Day05.CorrectPrefix` | src/solutions/day05.rs:36-47 | checking one more rule keeps a print correct iff that rule is not violated |
| `Day05.CheckRule` | src/solutions/day05.rs:37-46 | one pass of the inner loop clears exactly the flags of the prints the rule is broken by |
| `Day05.CorrectPrints` | src/solutions/day05.rs:35-47 | after the nested loops each flag says whether its print is correct under all rules |
| `Day05.FlaggedCorrect` | src/solutions/day05.rs:49-54 | summing the middles of flagged prints is summing the middles of correct prints |
| `Day05.Part1` | src/solutions/day05.rs:32-55 | part 1 is the sum of the middle pages of the correct prints |
| `Day05.CompareMeans` | src/solutions/day05.rs:80-90 | `Less` and `Greater` come only from a rule in that direction, and `Equal` iff no rule relates the two pages |
| `Day05.CompareFlip` | src/solutions/day05.rs:80-90 | swapping the pages turns `Greater` into `Less` and back |
| `Day05.InsertBack` | src/solutions/day05.rs:80 | one insertion step adds one page and ends with it or with the old last page |
| `Day05.InsertBackPermutation` | src/solutions/day05.rs:80 | an insertion step adds exactly the inserted page |
| `Day05.InsertBackSorted` | src/solutions/day05.rs:80 | an insertion step keeps the pages in comparator order |
| `Day05.SortByRules` | src/solutions/day05.rs:80-90 | sorting keeps the print's length |
| `Day05.SortByRulesPermutation` | src/solutions/day05.rs:80-90 | sorting is a permutation of the print |
| `Day05.SortByRulesSorted` | src/solutions/day05.rs:80-90 | after sorting no neighbouring pages compare `Greater` |
| `Day05.SortByRulesSortedInput` | src/solutions/day05.rs:80-90 | a print already in comparator order is left as it is |
| `Day05.SortCorrect` | src/solutions/day05.rs:57-95 | a correct print without repeats is unchanged by the sort, so only incorrect prints change |
| `Day05.InsertAt` | src/solutions/day05.rs:80 | the in-place step moves `a[i]` back over the earlier pages that should follow it and leaves the rest alone |
| `Day05.SortPrint` | src/solutions/day05.rs:80-90 | the in-place sort leaves the array equal to the sorted print |
| `Day05.SortedMiddle` | src/solutions/day05.rs:79-93 | the middle page of the print once sorted |
| `Day05.SumSortedMiddles` | src/solutions/day05.rs:75-94 | the sum over incorrect prints of the middle page after sorting |
| `Day05.Part2` | src/solutions/day05.rs:58-95 | part 2 is the sum of the sorted middles of the incorrect prints |
| `Day06.TurnOrder` | src/solutions/day06.rs:38 | turning `(vx, vy)` into `(−vy, vx)` goes up, right, down, left and back, and keeps a unit axis heading |
| `Day06.TurnsFour` | src/solutions/day06.rs:38 | four quarter turns face the same way again |
| `Day06.TickShape` | src/solutions/day06.rs:31-43 | one round keeps a unit heading, and a step lands on the map |
| `Day06.WalkShape` | src/solutions/day06.rs:29-43 | the guard keeps a unit heading and, once it has stepped, never stands outside the map |
| `Day06.EnteredFree` | src/solutions/day06.rs:39-42 | every cell recorded in `hit` is on the map and not an obstacle |
| `Day06.WalkAdd` | src/solutions/day06.rs:31-43 | walking `a + b` rounds is walking `a` rounds then `b` more |
| `Day06.GoingBefore` | src/solutions/day06.rs:31-35 | a walk still inside the loop condition was inside it at every earlier round |
| `Day06.RepeatIsEndless` | src/solutions/day06.rs:89-91 | a (position, heading) state that recurs while the walk goes on means the walk never ends |
| `Day06.Scan` | src/solutions/day06.rs:10-22 | obstacles are exactly the `#` cells; the start is the last `^` in reading order, or (0, 0) with none |
| `Day06.StartUnique` | src/solutions/day06.rs:10-22 | the lines fix one start |
| `Day06.ReadLab` | src/solutions/day06.rs:10-27 | the map and its start; an empty input (where `unwrap` panics) gives nothing |
| `Day06.Patrol` | src/solutions/day06.rs:29-45 | the loop ends after `rounds` rounds, never earlier, with `hit` the cells entered; with no end within `fuel` rounds nothing is returned |
| `Day06.Part1` | src/solutions/day06.rs:6-46 | part 1 is the number of distinct cells entered by a walk that ends |
| `Day06.Trapped` | src/solutions/day06.rs:80-101 | `Leaves` only when the walk ends; a repeated state, or four turns on the spot, only when it never ends |
| `Day06.Advance` | src/solutions/day06.rs:89-98 | one round keeps the walk's record sound, and either records a new state or adds a turn, within the finite set of states |
| `Day06.PatrolTurn` | src/solutions/day06.rs:93-94 | a turn at an obstacle keeps the record and counts one more turn on the spot |
| `Day06.PatrolStep` | src/solutions/day06.rs:95-98 | a step records the state stepped from and moves on |
| `Day06.Spin` | src/solutions/day06.rs:84-101 | a fourth turn in a row brings back the last step's state: the walk is endless and the cell boxed in |
| `Day06.SpinBoxed` | src/solutions/day06.rs:93-94 | obstacles in all four headings box the cell in |
| `Day06.CountTraps` | src/solutions/day06.rs:72-105 | the count is the number of cells whose extra obstacle makes the walk endless; a spin, where the source never returns, gives nothing |
| `Day06.CountedNext` | src/solutions/day06.rs:75-102 | testing one more cell adds it to the found set iff it traps the guard |
| `Day06.CountedAll` | src/solutions/day06.rs:74-103 | after every column and row the found set is exactly the trapping cells |
| `Day06.Part2` | src/solutions/day06.rs:49-106 | part 2 is the number of trapping cells for the map's start |
| `Day07.ParseU64` | src/parse.rs:6-8 | a number is read iff the text is a non-empty run of digits whose value fits in `u64`, and it is that value |
| `Day07.ParseU64s` | src/solutions/day07.rs:12 | the operand list reads iff every piece does, one value per piece in order |
| `Day07.ParseLine` | src/solutions/day07.rs:8-20 | a parsed line has at least one operand (`separated_list1`) |
| `Day07.ParseLineRoundTrip` | src/solutions/day07.rs:8-20 | `result: a b c` written in decimal reads back as the result and the operands |
| `Day07.ColonSplit` | src/solutions/day07.rs:11 | the `": "` separator splits the line into the result text and the operand text |
| `Day07.OperandsRoundTrip` | src/solutions/day07.rs:12 | operands written with single spaces read back, and their text holds no colon |
| `Day07.ILog10Digits` | src/solutions/day07.rs:56 | `ilog10(b) + 1` is the number of decimal digits of a positive `b` |
| `Day07.ConcatenateDigits` | src/solutions/day07.rs:50-57 | `a || b` is the number spelled by the digits of `a` followed by those of `b` |
| `Day07.ConcatenateAgrees` | src/solutions/day07.rs:51-57 | the source's `concatenate` agrees with digit concatenation for every non-zero right operand |
| `Day07.ConcatenateZero` | src/solutions/day07.rs:52-54 | the source gives `12 || 0 == 12`, where digit concatenation gives 120 |
| `Day07.ReachesMeans` | src/solutions/day07.rs:28-38 | the depth-first search succeeds iff some left-to-right choice of offered operators over all operands yields the result |
| `Day07.ReachesChoice` | src/solutions/day07.rs:28-38 | a reachable result comes with a witness choice of operators |
| `Day07.ReachesBy` | src/solutions/day07.rs:28-38 | any choice of offered operators that evaluates to the result makes it reachable |
| `Day07.ReachesMonotone` | src/solutions/day07.rs:45-62 | offering more operators never loses a line |
| `Day07.CalibrationMonotone` | src/solutions/day07.rs:22-43 | the sum of solvable results never shrinks when more operators are offered |
| `Day07.ParseLines` | src/solutions/day07.rs:23-26 | every line parses to its own equation, each with at least one operand |
| `Day07.Solve` | src/solutions/day07.rs:22-43 | the calibration exists exactly when every line parses, where the source panics otherwise |
| `Day07.Part1` | src/solutions/day07.rs:45-48 | part 1 answers exactly when every line parses |
| `Day07.Part2` | src/solutions/day07.rs:59-62 | part 2, with digit concatenation, answers exactly when every line parses |
| `Day07.Part2AsWritten` | src/solutions/day07.rs:59-62 | part 2 with the source's `concatenate` answers exactly when every line parses |
| `Day07.ReachesAsWritten` | src/solutions/day07.rs:51-62 | where no operand after the first is zero, the source's operators reach exactly the targets digit concatenation reaches |
| `Day07.CorrectedReachesAsWritten` | src/solutions/day07.rs:51-62 | with no zero operand after the first, every target reached with digit concatenation is reached by the source's operators |
| `Day07.AsWrittenReachesFewer` | src/solutions/day07.rs:51-62 | every target the source's operators reach is reached with digit concatenation, since `concatenate(a, 0)` is `a + 0` |
| `Day07.CalibrationAsWritten` | src/solutions/day07.rs:22-62 | the source's part 2 sum never exceeds the corrected one |
| `Day07.Part2AsWrittenAtMost` | src/solutions/day07.rs:59-62 | the source's part 2 answers on the same input as the corrected one and never counts more |
| `Day07.Part1AtMostPart2` | src/solutions/day07.rs:45-62 | both parts accept the same input, and part 2's answer is at least part 1's |
| `Day07.Example190` | src/solutions/day07.rs:66 | `190: 10 19` is solvable with `+` and `*` |
| `Day07.Example3267` | src/solutions/day07.rs:67 | `3267: 81 40 27` is solvable with `+` and `*` |
| `Day07.Example292` | src/solutions/day07.rs:74 | `292: 11 6 16 20` is solvable with `+` and `*` |
| `Day07.Example156` | src/solutions/day07.rs:69 | `156: 15 6` needs `||`: unsolvable in part 1, solvable in part 2 |
| `Day07.ZeroOperand` | src/solutions/day07.rs:51-62 | `10: 1 0` holds with digit concatenation but not with the source's `concatenate`, so the source's part 2 leaves it out |
| `Day08.RowPositionsMeans` | src/solutions/day08.rs:8-15 | one row lists exactly the columns before `k` that hold the frequency, all on that row |
| `Day08.PositionsMeans` | src/solutions/day08.rs:5-19 | the positions listed for a frequency are exactly the cells holding it |
| `Day08.RowPositionsOrdered` | src/solutions/day08.rs:8-15 | within a row positions are pushed in increasing column order |
| `Day08.PositionsOrdered` | src/solutions/day08.rs:5-19 | no position is listed twice for a frequency |
| `Day08.RowStep` | src/solutions/day08.rs:8-15 | reading one more character appends its position iff it is that frequency |
| `Day08.ReadCell` | src/solutions/day08.rs:9-14 | one character read: a `.` is skipped, an antenna is pushed onto its frequency's list |
| `Day08.NextLine` | src/solutions/day08.rs:7-8 | after a whole line the next line starts with nothing of its own |
| `Day08.AllLines` | src/solutions/day08.rs:7-16 | after every line the map holds exactly every antenna grouped by frequency |
| `Day08.Parse` | src/solutions/day08.rs:5-19 | the parsed map is every non-`.` cell grouped by character, in reading order |
| `Day08.RowDone` | src/solutions/day08.rs:30-35 | finishing antenna `i`'s pairs adds exactly its row of antinodes |
| `Day08.AddGroup` | src/solutions/day08.rs:30-35 | one frequency adds `2a − b` and `2b − a` for every pair `a` before `b` in its list |
| `Day08.CountAntinodes` | src/solutions/day08.rs:27-46 | the count is the number of distinct antinodes inside `[0, width) × [0, height)` |
| `Day08.Part1` | src/solutions/day08.rs:22-47 | part 1 with width the first line's length and height the line count; no lines is an error |
| `Day08.AntinodeFrom` | src/solutions/day08.rs:29-36 | every listed antinode comes from two different antennas of one frequency |
| `Day08.AntinodeListed` | src/solutions/day08.rs:29-36 | every antinode of two different antennas of one frequency is listed |
| `Day08.AntinodesMean` | src/solutions/day08.rs:29-36 | the listed set is exactly the antinodes of same-frequency pairs, each unordered pair giving both |
| `Day09.DiskMap` | src/solutions/day09.rs:4 | the input is trimmed of surrounding whitespace; the map exists exactly when every remaining character is at least `0` (and ASCII), and then holds one size per character, its code minus that of `0` |
| `Day09.DiskMapDigits` | src/solutions/day09.rs:4 | a map of digits reads as the digits' values, and a trailing newline changes nothing |
| `Day09.Repeat` | src/solutions/day09.rs:12-19 | a run of `n` pushes of the same block has length `n` |
| `Day09.RepeatAt` | src/solutions/day09.rs:12-19 | every element of a run is the pushed block |
| `Day09.BlocksLength` | src/solutions/day09.rs:6-23 | the layout holds as many blocks as the digits add up to |
| `Day09.BlocksIds` | src/solutions/day09.rs:6-23 | file ids in the layout start at the first id, stay below one id per file and never decrease left to right |
| `Day09.Layout` | src/solutions/day09.rs:6-23 | the pushing loop builds exactly the file/free-space block layout of the map |
| `Day09.PushRun` | src/solutions/day09.rs:12-19 | pushing `n` copies appends a run of `n` of that block and nothing else |
| `Day09.ChecksumAppend` | src/solutions/day09.rs:42-46 | the checksum of two concatenated stretches is the sum of their checksums, the second counted from its offset |
| `Day09.ChecksumFree` | src/solutions/day09.rs:45 | free blocks add nothing to the checksum |
| `Day09.FirstFree` | src/solutions/day09.rs:31-34 | the search result is the first free block in range, or lies outside the range when every block in it is occupied |
| `Day09.Visit` | src/solutions/day09.rs:26-39 | a visit changes nothing at a free block, and keeps the number of blocks |
| `Day09.CompactAll` | src/solutions/day09.rs:25-40 | visiting the positions from the end down to 0 keeps the number of blocks |
| `Day09.VisitKeeps` | src/solutions/day09.rs:26-39 | one visit keeps the blocks, keeps everything below the new search start occupied and everything from the visited position on compact |
| `Day09.CompactAllSound` | src/solutions/day09.rs:25-40 | from a state with those invariants, the remaining visits keep the blocks and end with no free block before a file block |
| `Day09.Compacted` | src/solutions/day09.rs:25-40 | the source's compaction of a whole disk is a permutation of its blocks with no free block before a file block |
| `Day09.VisitMoves` | src/solutions/day09.rs:26-39 | a visit either changes nothing or moves the visited file block into the first free block from the search start on, below the visited position, freeing its old place, and the search restarts there |
| `Day09.CompactBlocks` | src/solutions/day09.rs:25-40 | the array ends as the source's compaction of its old contents, a permutation with no free block before a file block |
| `Day09.MoveBlock` | src/solutions/day09.rs:26-39 | one pass of the outer loop changes the array and the search start exactly as one visit does |
| `Day09.Exchange` | src/solutions/day09.rs:37 | the swap exchanges exactly the two blocks and keeps the multiset |
| `Day09.CompactSwap` | src/solutions/day09.rs:36-37 | swapping a file block into the first free block keeps everything below it filled and everything from the visited position on compact |
| `Day09.FreeSlot` | src/solutions/day09.rs:31-34 | the scanning loop returns the first free block in range, as `FirstFree` defines it |
| `Day09.Part1` | src/solutions/day09.rs:2-47 | an answer exists exactly when the disk map reads, and it is the checksum of the layout after the source's compaction |
| `Day09.ExpandSpans` | src/solutions/day09.rs:51-67 | the span list of part 2 stands for exactly the block layout of part 1 |
| `Day09.SpanLayout` | src/solutions/day09.rs:51-67 | the pushing loop builds exactly one span per digit, files and free space alternating, with ids counting up |
| `Day09.FreeFile` | src/solutions/day09.rs:83 | turning a file span free keeps the total size and removes exactly that file |
| `Day09.ShrinkFree` | src/solutions/day09.rs:84 | shrinking a free span changes the total size by the difference and no file |
| `Day09.InsertSpan` | src/solutions/day09.rs:85 | inserting a span adds its size and its file |
| `Day09.MoveFile` | src/solutions/day09.rs:83-85 | one file move adds one span, keeps the total size and keeps the multiset of (id, size) files |
| `Day09.FirstFit` | src/solutions/day09.rs:74-81 | the result is the first free span in range with room for the file, or the range's end when there is none |
| `Day09.VisitFile` | src/solutions/day09.rs:70-87 | a visit adds at most one span, and keeps the total size and every file with its size |
| `Day09.MoveFiles` | src/solutions/day09.rs:69-88 | visiting the original positions from the end down to 0 keeps the total size and every file with its size |
| `Day09.VisitFileMoves` | src/solutions/day09.rs:74-86 | a visit that changes the list moves a file into the leftmost free span before it with room for it: the span shrinks by the file's size, the file sits just before it, and its old place becomes free space of the same size |
| `Day09.FitSlot` | src/solutions/day09.rs:74-81 | the scanning loop returns the first free span with room, as `FirstFit` defines it |
| `Day09.CompactFiles` | src/solutions/day09.rs:69-88 | the loop leaves exactly the list the source's file moves produce |
| `Day09.FileChecksum` | src/solutions/day09.rs:99-102 | the inner loop adds the checksum of a run of `size` blocks of that file from position `i` |
| `Day09.SpanChecksum` | src/solutions/day09.rs:90-105 | the span checksum loop equals the block checksum of the expanded spans |
| `Day09.Part2` | src/solutions/day09.rs:50-106 | an answer exists exactly when the disk map reads, and it is the checksum of the blocks after the source's file moves |
| `Day10.HeightValue` | src/solutions/day10.rs:11 | a character at or above `0` becomes its code minus that of `0`: a digit its value, and any other character a height of 10 or more |
| `Day10.HeightsOf` | src/solutions/day10.rs:8-12 | each character becomes its height, cell by cell, keeping the grid's shape |
| `Day10.Parse` | src/solutions/day10.rs:6-14 | a height map exists exactly when the lines fill a grid and every character is ASCII at or above `0`; then every height is below 80 |
| `Day10.ParseDigits` | src/solutions/day10.rs:6-14 | rectangular lines of digits are read, row for row, as the values they spell |
| `Day10.ColonAndDot` | src/solutions/day10.rs:8-12 | `:` is read as height 10, as the byte subtraction gives, and a `.`, whose byte lies below `0`, fails |
| `Day10.HeightAt` | src/solutions/day10.rs:42 | a height is found exactly for a position inside the map |
| `Day10.CellsHeight` | src/solutions/day10.rs:42 | the map's cells are exactly the positions with a height |
| `Day10.Trailheads` | src/solutions/day10.rs:19-22 | the trailheads are exactly the cells of height 0 |
| `Day10.UpsAll` | src/solutions/day10.rs:40-47 | the four directions yield exactly the neighbours inside the map one higher than the cell |
| `Day10.Climbs` | src/solutions/day10.rs:40-47 | the loop collects exactly the in-map neighbours one step higher |
| `Day10.NinesAdd` | src/solutions/day10.rs:36-38 | visiting a new cell adds one to the count exactly when its height is 9 |
| `Day10.HikeTop` | src/solutions/day10.rs:30-48 | one pop keeps the search invariant (visited cells reachable, score = visited nines), and either shrinks the stack or visits the popped cell, a new one |
| `Day10.Score` | src/solutions/day10.rs:26-50 | the search returns the number of height-9 cells reachable by climbing trails from the trailhead |
| `Day10.TotalScores` | src/solutions/day10.rs:19-52 | the sum over trailheads equals the total of their scores |
| `Day10.Part1` | src/solutions/day10.rs:17-53 | a map that parses gives the total score of all trailheads; one that does not gives no answer |
| `Day10.Explore` | src/solutions/day10.rs:65-82 | the recursive exploration returns the cell's rating |
| `Day10.RatingCountsTrails` | src/solutions/day10.rs:65-82 | a rating is the number of distinct trails, step-by-one climbs ending at height 9, from the cell, and the listed walks are exactly those trails |
| `Day10.RatingTrails` | src/solutions/day10.rs:65-82 | the rating equals the number of trails listed from the cell |
| `Day10.TrailsSound` | src/solutions/day10.rs:72-79 | every listed walk is a trail starting at the cell |
| `Day10.TrailsComplete` | src/solutions/day10.rs:72-79 | every trail is listed from its first cell |
| `Day10.TrailsDistinct` | src/solutions/day10.rs:72-79 | no trail is listed twice |
| `Day10.TotalRatings` | src/solutions/day10.rs:58-87 | the sum over trailheads equals the total of their ratings |
| `Day10.Part2` | src/solutions/day10.rs:56-88 | a map that parses gives the total rating of all trailheads; one that does not gives no answer |
| `Day11.Digits` | src/solutions/day11.rs:19 | every stone has at least one decimal digit (the source's float logarithm, read exactly) |
| `Day11.Halves` | src/solutions/day11.rs:18-26 | a split exists exactly when the stone has an even number of digits |
| `Day11.HalvesDigits` | src/solutions/day11.rs:23-24 | dividing by 10 to the half digit count gives the numbers the left and right halves of the digits spell |
| `Day11.DivModUnique` | src/solutions/day11.rs:24 | `num / power` and `num % power` are the only quotient and remainder of that shape |
| `Day11.Children` | src/solutions/day11.rs:30-36 | one stone becomes one or two stones in a blink |
| `Day11.Count` | src/solutions/day11.rs:9-40 | every stone is still at least one stone after any number of blinks |
| `Day11.Blink` | src/solutions/day11.rs:30-36 | a blink at most doubles the line and never shortens it |
| `Day11.ZeroBlink` | src/solutions/day11.rs:30-31 | a 0 counts as a 1 one blink later |
| `Day11.SplitBlink` | src/solutions/day11.rs:32-33 | a stone with an even digit count counts as its two halves one blink later |
| `Day11.GrowBlink` | src/solutions/day11.rs:34-35 | any other stone counts as itself times 2024 one blink later |
| `Day11.TotalAppend` | src/solutions/day11.rs:44 | the count of a line is the sum of the counts of its parts |
| `Day11.BlinkTotal` | src/solutions/day11.rs:28-36 | counting stone by stone agrees with blinking the whole line once and counting the rest |
| `Day11.TotalSimulate` | src/solutions/day11.rs:4-45 | counting stone by stone gives the length of the line the blinks actually produce |
| `Day11.Remember` | src/solutions/day11.rs:38 | recording a correct count keeps every memo entry correct |
| `Day11.Explore` | src/solutions/day11.rs:9-40 | the memoised recursion returns the number of stones after the remaining blinks, and leaves a memo that only grew and holds only correct counts |
| `Day11.CountStones` | src/solutions/day11.rs:42-44 | one shared memo over the line gives the sum of the stones' counts |
| `Day11.ParseU64` | src/solutions/day11.rs:7 | a word parses exactly when, after an optional `+`, it is decimal digits worth at most 2^64 − 1 |
| `Day11.PlusSign` | src/solutions/day11.rs:7 | `+7` reads as 7 and `-7` is an error |
| `Day11.ParseStones` | src/solutions/day11.rs:5-7 | the input parses exactly when every whitespace-separated word is a `u64`, and then gives one stone per word, in order |
| `Day11.ParseStonesRoundTrip` | src/solutions/day11.rs:5-7 | `u64` stones written with single spaces read back as the same stones |
| `Day11.Solve` | src/solutions/day11.rs:4-45 | a line that parses gives the length of the line after that many blinks; one that does not gives no answer |
| `Day11.Part1` | src/solutions/day11.rs:47-50 | the answer is the length of the line after 25 blinks |
| `Day11.Part2` | src/solutions/day11.rs:52-55 | the answer is the length of the line after 75 blinks |
| `Day11.ExampleBlink` | src/solutions/day11.rs:57 | the example's `125 17` becomes `253000 1 7` in one blink |
| `Day12.AdjacentSymmetric` | src/solutions/day12.rs:55-60 | orthogonal neighbourhood is symmetric |
| `Day12.TouchingSymmetric` | src/solutions/day12.rs:96-104 | two fence pieces touch each other both ways |
| `Day12.RegionHas` | src/solutions/day12.rs:19-41 | a region holds its own cell and only cells of the same plant inside the grid |
| `Day12.RegionSym` | src/solutions/day12.rs:19-41 | two cells are in each other's region both ways, and then their regions are the same |
| `Day12.EdgesAdd` | src/solutions/day12.rs:31-37 | a new cell adds its own fence pieces, none of which were counted before |
| `Day12.Around` | src/solutions/day12.rs:55-60 | the four generated positions are exactly the orthogonal neighbours |
| `Day12.AllSteps` | src/solutions/day12.rs:31-37 | the four steps find exactly the same-plant neighbours and the cell's whole fence |
| `Day12.Look` | src/solutions/day12.rs:31-37 | part 1's neighbour loop queues exactly the same-plant neighbours and counts the cell's fence pieces |
| `Day12.LookEdges` | src/solutions/day12.rs:81-87 | part 2's neighbour loop queues exactly the same-plant neighbours and records the cell's fence pieces with their directions |
| `Day12.RegionApart` | src/solutions/day12.rs:43-51 | a cell not yet visited belongs to a region no earlier search visited |
| `Day12.ExploreReach` | src/solutions/day12.rs:24-37 | reaching a new cell keeps the search invariant, adds its fence to the region's and counts one more cell of the region |
| `Day12.ExploreTop` | src/solutions/day12.rs:24-38 | one pop keeps the search invariant and the area and perimeter counts, and either shrinks the stack or reaches a new cell |
| `Day12.ExploreDone` | src/solutions/day12.rs:24-38 | when the stack is empty the search has reached exactly the region |
| `Day12.ExploreRegion` | src/solutions/day12.rs:19-41 | the depth-first search visits exactly the region and returns its area and its number of fence pieces |
| `Day12.ExploreFront` | src/solutions/day12.rs:74-88 | one pop from the front keeps the search invariant, the area and the fence recorded so far |
| `Day12.FrontToBack` | src/solutions/day12.rs:74 | taking from the front of the queue is, for the search, taking from the back of a rotated stack |
| `Day12.ExploreSides` | src/solutions/day12.rs:68-108 | the breadth-first search visits exactly the region and returns its area and the number of straight sides of its fence |
| `Day12.SideFacing` | src/solutions/day12.rs:96-104 | every piece of one side faces the same direction |
| `Day12.FloodStep` | src/solutions/day12.rs:96-104 | removing a piece that is still there removes a piece of the same side and keeps the flood invariant |
| `Day12.FloodDone` | src/solutions/day12.rs:96-104 | when the stack is empty exactly the side has been removed |
| `Day12.RemoveSide` | src/solutions/day12.rs:93-104 | the inner loop removes exactly the side of the first piece from the fence |
| `Day12.CountSides` | src/solutions/day12.rs:90-105 | the outer loop counts the sides: the classes of touching fence pieces |
| `Day12.LeaderUnique` | src/solutions/day12.rs:43-51 | only the first cell of a region in reading order is unvisited when the scan reaches it |
| `Day12.LeaderExists` | src/solutions/day12.rs:43-51 | every region has a first cell in reading order |
| `Day12.ScanLeader` | src/solutions/day12.rs:45-49 | an unvisited cell is its region's first cell and the whole region is unvisited |
| `Day12.ScanSkip` | src/solutions/day12.rs:45-46 | a visited cell is not its region's first cell |
| `Day12.PriceLeader` | src/solutions/day12.rs:47-49 | exploring an unvisited cell adds exactly its region's price |
| `Day12.Part1Total` | src/solutions/day12.rs:43-52 | the scan prices every region exactly once, by area times perimeter |
| `Day12.Part2Total` | src/solutions/day12.rs:110-119 | the scan prices every region exactly once, by area times number of sides |
| `Day12Input.Part1` | src/solutions/day12.rs:13-53 | a grid gives the total price by perimeter; input that is not a grid gives no answer |
| `Day12Input.Part2` | src/solutions/day12.rs:62-120 | a grid gives the total price by sides; input that is not a grid gives no answer |
| `Day14.DigitRun` | src/solutions/day14.rs:144-146 | the run is the longest prefix of digits: all digits, and the next character is not one |
| `Day14.Natural` | src/solutions/day14.rs:144-146 | a parsed run of digits is an `i64` between 0 and its maximum and consumes at least one character |
| `Day14.Number` | src/solutions/day14.rs:148-150 | a parsed number, with or without a minus sign, lies within the `i64` range and consumes input |
| `Day14.NaturalDecimal` | src/solutions/day14.rs:144-146 | a number's decimal digits read back as that number, leaving what follows |
| `Day14.NumberShow` | src/solutions/day14.rs:148-150 | a number written out, negative ones with a minus sign, reads back as that number |
| `Day14.PairShow` | src/solutions/day14.rs:152-156 | two numbers written with a comma between them read back as that pair |
| `Day14.ParseRobotLine` | src/solutions/day14.rs:139-165 | a robot written as `p=x,y v=dx,dy` reads back as the same robot |
| `Day14.Parse` | src/solutions/day14.rs:135-137 | the input parses exactly when every line is a robot, and then gives one robot per line, in order |
| `Day14.Wrap` | src/solutions/day14.rs:25 | a coordinate after `steps` seconds wraps, like `rem_euclid`, into `[0, size)` |
| `Day14.Moved` | src/solutions/day14.rs:23-26 | a robot's position after any number of seconds is on the floor |
| `Day14.ModAdd` | src/solutions/day14.rs:25 | wrapping an intermediate sum does not change the final wrapped value |
| `Day14.MovedTwice` | src/solutions/day14.rs:23-26 | advancing `a` seconds and then `b` seconds ends where advancing `a + b` seconds does |
| `Day14.Robot.Advance` | src/solutions/day14.rs:23-26 | advancing changes the position to the wrapped position after `steps` seconds and keeps the velocity |
| `Day14.QuadrantOf` | src/solutions/day14.rs:38-43 | a position has no quadrant exactly when it lies on the middle row or column |
| `Day14.CountsPartition` | src/solutions/day14.rs:38-46 | every robot is counted in exactly one quadrant or skipped on a middle line |
| `Day14.SafetyFactor` | src/solutions/day14.rs:49 | the product over the quadrants that hold a robot is at least 1 |
| `Day14.Finals` | src/solutions/day14.rs:34-36 | there is one final position per robot |
| `Day14.TallyStep` | src/solutions/day14.rs:38-46 | adding one robot keeps the tally equal to the per-quadrant counts, with only quadrants that hold a robot present |
| `Day14.Solve` | src/solutions/day14.rs:29-50 | the answer is the product of the robot counts of the occupied quadrants after `steps` seconds |
| `Day14.Part1` | src/solutions/day14.rs:52-55 | parsed input gives the safety factor on a 101 × 103 floor after 100 seconds; input that does not parse gives no answer |
| `Day15.FromChar` | src/solutions/day15.rs:222-232 | exactly the four arrow characters are moves, each the stated wrapping unit step; any other character is an error |
| `Day15.WrappingAddMod` | src/solutions/day15.rs:237 | `wrapping_add` is addition modulo 2^64 |
| `Day15.Add` | src/solutions/day15.rs:234-239 | adding a move to a word position gives a word position |
| `Day15.NegWord` | src/solutions/day15.rs:248-253 | the negation `-(x as isize) as usize` is the word that wraps `x` back to 0 |
| `Day15.Sub` | src/solutions/day15.rs:241-246 | subtracting a move gives a word position |
| `Day15.AddSub` | src/solutions/day15.rs:234-253 | stepping back undoes a step, and a step undoes stepping back |
| `Day15.Partner` | src/solutions/day15.rs:68-74 | a left half's partner is one step right; a right half's partner is the cell one step right of which it lies |
| `Day15.PartnerInvolution` | src/solutions/day15.rs:68-74 | the two halves of a wide rock name each other as partners |
| `Day15.PushesInto` | src/solutions/day15.rs:58-60 | a one-cell rock pushes into the cell one step ahead; a wide rock into the cells ahead of both its halves (lines 104-106) |
| `Day15.PushesIntoStep` | src/solutions/day15.rs:104-106 | stepping back from a pushed position lands on the rock or its partner |
| `Day15.GpsPosition` | src/solutions/day15.rs:108-114 | a right half reports position (0, 0); every other rock reports its own position (lines 29-31) |
| `Day15.GpsHalves` | src/solutions/day15.rs:207-219 | a one-cell rock and a left half add x + 100 y, a right half, wall, robot or empty cell add nothing |
| `Day15.ParseCell1` | src/solutions/day15.rs:44-50 | exactly `#`, `O`, `@` and `.` are cells of the narrow map; any other character is an error |
| `Day15.ParseCell2` | src/solutions/day15.rs:87-96 | exactly those four characters become two cells each, a rock as a left and a right half, the robot followed by empty floor |
| `Day15.Cells1` | src/solutions/day15.rs:41-51 | dropping whitespace, the narrow map has no more cells than characters |
| `Day15.Cells2Length` | src/solutions/day15.rs:84-97 | the wide map has two cells per non-blank character |
| `Day15.Layout1` | src/solutions/day15.rs:38-56 | the narrow layout fills a (line count) × (first line length) shape with the x stride 1 the source gives, which only a square map satisfies |
| `Day15.Layout2` | src/solutions/day15.rs:78-102 | the wide layout fills a (twice the first line's length) × (line count) shape |
| `Day15.FlatInjective` | src/solutions/day15.rs:53 | two positions inside the width have the same flat index only when they are equal |
| `Day15.Warehouse.At` | src/solutions/day15.rs:123-125 | a tile is found exactly inside the grid, and it is the array cell at the flat index |
| `Day15.RobotFrom` | src/solutions/day15.rs:156-170 | the robot found, searching column by column as `indexed_iter` does, is inside the grid, a pair of words, and on a robot cell |
| `Day15.Warehouse.FindRobot` | src/solutions/day15.rs:156-170 | the loop finds exactly the robot `RobotFrom` names; it is inside the grid and on a robot cell, and none found means no cell holds a robot |
| `Day15.ExtendMembers` | src/solutions/day15.rs:191-197 | the extended push list holds exactly the old positions and the new ones |
| `Day15.ClosureUsize` | src/solutions/day15.rs:177-198 | every position the push list ever holds is a pair of words |
| `Day15.Warehouse.PushClosure` | src/solutions/day15.rs:177-198 | the loop ends with exactly the push list and outcome of `ClosureF` (a wall stops it, a position outside the grid or the robot itself is a panic), which never runs out of its 2 n + 2 visits; the list starts in front of the robot and holds no position twice; a wall is in it when it stops; otherwise every position is inside the grid, free of walls and robots, and every rock in it has its pushed-into cells in it |
| `Day15.Warehouse.VisitPush` | src/solutions/day15.rs:180-197 | one visit stops with the final list and outcome of `ClosureF`, or leaves a list whose remaining search ends as before and keeps the closure invariant |
| `Day15.Warehouse.PushRock` | src/solutions/day15.rs:182-197 | visiting a rock appends exactly what `ExtendF` appends, at most its two pushed-into positions, and keeps the closure invariant |
| `Day15.Warehouse.Extend` | src/solutions/day15.rs:191-197 | the loop computes `ExtendF`: appending only missing positions keeps the list duplicate-free, keeps its prefix, and ends holding both the old list and the new positions |
| `Day15.SwapBackF` | src/solutions/day15.rs:200-204 | swapping back keeps the number of cells |
| `Day15.SwapBackMultiset` | src/solutions/day15.rs:200-204 | swapping back only rearranges the cells |
| `Day15.SwapBackFrame` | src/solutions/day15.rs:200-204 | a cell that is neither pushed into nor one step behind a pushed-into cell keeps its contents |
| `Day15.Warehouse.SwapBack` | src/solutions/day15.rs:200-204 | the loop succeeds exactly when `SwapBackF` does and then leaves its cells; it permutes the cells and, when every destination is empty, moves the robot one step and empties its old cell |
| `Day15.Warehouse.SwapOne` | src/solutions/day15.rs:201-203 | one swap fails exactly when the destination is outside the grid or not empty (the source's assertion), else leaves cells whose remaining swaps end as before |
| `Day15.Warehouse.Exchange` | src/solutions/day15.rs:203 | the array afterwards is the old one with the two cells exchanged, and the multiset is kept |
| `Day15.Step` | src/solutions/day15.rs:172-205 | a move keeps the number of cells |
| `Day15.StepMultiset` | src/solutions/day15.rs:172-205 | a move only rearranges the cells |
| `Day15.StepFrame` | src/solutions/day15.rs:172-205 | a move leaves every cell that is neither pushed into nor one step behind a pushed-into cell as it was |
| `Day15.Warehouse.Apply` | src/solutions/day15.rs:172-205 | the move fails exactly when `Step` does (a panic of the source) and otherwise leaves the cells `Step` gives; it permutes the cells; a blocked move changes nothing; a completed one takes the robot from its cell to the cell one step ahead |
| `Day15.Warehouse.SumOfGps` | src/solutions/day15.rs:207-219 | the double loop computes the GPS total of the grid |
| `Day15.Simulate` | src/solutions/day15.rs:259-262 | a run of moves keeps the number of cells |
| `Day15.SimulateMultiset` | src/solutions/day15.rs:259-262 | a run of moves neither creates nor destroys a wall, rock or robot |
| `Day15.Warehouse.Run` | src/solutions/day15.rs:259-262 | the loop fails exactly when `Simulate` does and otherwise leaves its cells; it neither creates nor destroys a wall, rock or robot |
| `Day15.BlankAt` | src/solutions/day15.rs:342 | the first blank line is found: it is two newlines, and the text before it has no blank line and does not end in a newline |
| `Day15.BlankAtOf` | src/solutions/day15.rs:342 | text without a blank line, followed by one, has its blank line found right after it |
| `Day15.Sections` | src/solutions/day15.rs:341-344 | the sections exist exactly when the input has a blank line; they are the text before it and the text after it up to the next one |
| `Day15.SectionsOf` | src/solutions/day15.rs:341-344 | a map and moves written with a blank line between them read back as those two sections |
| `Day15.FirstSection` | src/solutions/day15.rs:341-344 | a map with no blank line, followed by a blank line, is read back as the first section and the rest up to the next blank line as the second |
| `Day15.Moves` | src/solutions/day15.rs:346-349 | the moves parse exactly when every non-blank character is an arrow, one valid move per such character |
| `Day15.Parse` | src/solutions/day15.rs:340-352 | a parsed puzzle has as many cells as its shape holds, only valid moves, and the moves of the second section |
| `Day15.AnswerMeans` | src/solutions/day15.rs:256-265 | an answer is the GPS total of a rearrangement of the starting cells, on a grid a word can index |
| `Day15.Solve` | src/solutions/day15.rs:256-265 | the method gives exactly `Answer`: the GPS total of the warehouse after `Simulate`, or no answer where the source panics |
| `Day15.Part1` | src/solutions/day15.rs:267-270 | the narrow map's answer is `Answer` of the parsed puzzle; input that does not parse gives no answer |
| `Day15.Part2` | src/solutions/day15.rs:272-275 | the wide map's answer is `Answer` of the parsed puzzle; input that does not parse gives no answer |
| `Day17.Value` | src/solutions/day17.rs:42-48 | a 3-bit number's value, the bits weighted by powers of two, is below 8 |
| `Day17.TryFromValue` | src/solutions/day17.rs:55-66 | conversion fails exactly from 8 up, and conversion and value undo each other |
| `Day17.Digit` | src/solutions/day17.rs:55-66 | every value below 8 converts to the 3-bit number with that value |
| `Day17.XorBound` | src/solutions/day17.rs:123-124 | exclusive or of two numbers below 2^k stays below 2^k |
| `Day17.Decode` | src/solutions/day17.rs:82-107 | opcodes 0 to 7 are adv, bxl, bst, jnz, bxc, out, bdv and cdv in that order (lines 139-143) |
| `Day17.TryNext` | src/solutions/day17.rs:181-199 | `try_next` halts exactly when the opcode or the operand lies past the program's end, and the pointer is then past the end |
| `Day17.RunFrom` | src/solutions/day17.rs:156-216 | a run finishes only with the pointer past the program's end, and outputs at most one value per instruction executed |
| `Day17.Combo` | src/solutions/day17.rs:163-172 | operands 0 to 3 stand for themselves, 4, 5 and 6 for registers A, B and C, and 7 panics |
| `Day17.Shr` | src/solutions/day17.rs:119-121 | a right shift never makes a register larger |
| `Day17.ExecuteFrame` | src/solutions/day17.rs:110-136 | only `out` outputs, the combo operand modulo 8; only `jnz` moves the pointer, to the operand, exactly when A is nonzero; only `adv` writes A and only `cdv` writes C; an instruction panics exactly on combo operand 7 or a shift of 64 or more |
| `Day17.ExecuteFits` | src/solutions/day17.rs:146-152 | no instruction takes a register out of the `u64` range |
| `Day17.Machine.ExecuteOn` | src/solutions/day17.rs:110-136 | executing changes the registers as the instruction says and leaves them alone on a panic |
| `Day17.Machine.Divide` | src/solutions/day17.rs:119-121 | `adv`, `bdv` and `cdv` write A shifted right by the combo operand into A, B or C |
| `Day17.Machine.Step` | src/solutions/day17.rs:181-199 | one step fetches opcode and operand, moving the pointer past each, halts when either is past the program's end, and executes |
| `Day17.Machine.Next` | src/solutions/day17.rs:204-216 | `next` steps until an instruction outputs or the program halts |
| `Day17.NextFrom` | src/solutions/day17.rs:204-216 | an output is found using at least one step of the fuel |
| `Day17.NextFromRun` | src/solutions/day17.rs:204-216 | a whole run is the first output `next` finds followed by the run from where it stopped |
| `Day17.SilentStep` | src/solutions/day17.rs:204-216 | an instruction that outputs nothing leaves both the next output and the whole run unchanged, one unit of fuel later |
| `Day17.Part1` | src/solutions/day17.rs:219-226 | the answer is the run's outputs joined with commas, for every run that finishes; a panic gives no answer |
| `Day17.ExampleBst` | src/solutions/day17.rs:367-376 | with C = 9 the program 2,6 sets B to 1 |
| `Day17.ExampleOut` | src/solutions/day17.rs:378-386 | with A = 10 the program 5,0,5,1,5,4 outputs 0,1,2 |
| `Day17.ExampleBxl` | src/solutions/day17.rs:398-406 | with B = 29 the program 1,7 sets B to 26 |
| `Day17.ExampleBxc` | src/solutions/day17.rs:408-418 | with B = 2024 and C = 43690 the program 4,0 sets B to 44354 |
| `Day17.BxcRun` | src/solutions/day17.rs:408-418 | for any registers B and C, running 4,0 from the start halts after one step with B set to B xor C and nothing output |
| `Day17.HalvingRun` | src/solutions/day17.rs:341-348 | from any A, the program 0,1,5,4,3,0 outputs A's successive halvings modulo 8 and stops with A at zero |
| `Day17.ExamplePart1` | src/solutions/day17.rs:359-363 | A = 729 with 0,1,5,4,3,0 outputs 4,6,3,5,6,3,5,2,1,0 |
| `Day17.ExampleHalving2024` | src/solutions/day17.rs:388-396 | A = 2024 with 0,1,5,4,3,0 outputs 4,2,5,6,7,7,7,7,3,1,0 and leaves 0 in A |
| `Day19.FromChar` | src/solutions/day19.rs:21-30 | exactly `w`, `u`, `b`, `r` and `g` are colours; any other character is an error |
| `Day19.FromCharToChar` | src/solutions/day19.rs:21-30 | each colour has exactly one letter |
| `Day19.ParsePattern` | src/solutions/day19.rs:92-96 | a pattern parses exactly when it is a non-empty run of colour letters, and then has one colour per letter |
| `Day19.Letters` | src/solutions/day19.rs:93 | `alpha1` takes the longest run of ASCII letters: every character in it is a letter and the next one is not |
| `Day19.Blanks` | src/solutions/day19.rs:100 | `multispace1` takes the longest run of spaces, tabs, carriage returns and line breaks |
| `Day19.Pat` | src/solutions/day19.rs:92-96 | a pattern step matches nothing exactly when the input does not start with a letter; otherwise it reads a non-empty run and leaves the rest, which does not start with a letter |
| `Day19.Separated` | src/solutions/day19.rs:99 | a separated list holds only non-empty patterns and never grows the unread input |
| `Day19.More` | src/solutions/day19.rs:99-101 | the list loop after its first pattern keeps the list made of non-empty patterns and never grows the unread input |
| `Day19.Parse` | src/solutions/day19.rs:91-106 | a parsed input's towels and designs are all non-empty patterns |
| `Day19.ShowPattern` | src/solutions/day19.rs:92-96 | a printed pattern followed by a non-letter is read back as that pattern, leaving the rest |
| `Day19.MoreTail` | src/solutions/day19.rs:99-101 | the list loop reads back every separator-and-pattern that was printed, and stops before what follows |
| `Day19.SeparatedListing` | src/solutions/day19.rs:99-101 | a separated list reads back exactly the patterns joined by the separator |
| `Day19.ParseSteps` | src/solutions/day19.rs:98-105 | the towels, one or more blanks, the designs and a last line break that ends the input give the parsed pair |
| `Day19.ParsePrint` | src/solutions/day19.rs:91-106 | an input printed as the towel line, a blank line and one design per line parses back to its towels and designs |
| `Day19.SingleBreak` | src/solutions/day19.rs:100 | a single line break between the towels and the designs is accepted |
| `Day19.NoTowels` | src/solutions/day19.rs:99-100 | an empty towel list, followed by several blank lines, is accepted |
| `Day19.NoDesigns` | src/solutions/day19.rs:100-105 | with no design, the blanks take every line break and the input fails |
| `Day19.WaysMeans` | src/solutions/day19.rs:33-67 | a design has a positive number of ways exactly when towels laid end to end give it |
| `Day19.WaysChoice` | src/solutions/day19.rs:46-63 | a design with some way to be made is laid by some choice of towels |
| `Day19.MakeableWays` | src/solutions/day19.rs:46-63 | any towels laid end to end give a design with at least one way |
| `Day19.WaysToMake` | src/solutions/day19.rs:33-67 | the memoised recursion returns the number of ways to make the pattern from its end, and leaves a memo that holds only correct counts |
| `Day19.CountAtMostSum` | src/solutions/day19.rs:69-89 | part 1's count never exceeds part 2's sum, nor the number of designs |
| `Day19.CountPossible` | src/solutions/day19.rs:73-77 | the count, over one shared memo, is the number of designs with a positive number of ways |
| `Day19.CountWays` | src/solutions/day19.rs:84-88 | the sum, over one shared memo, is the total number of ways over all designs |
| `Day19.Part1` | src/solutions/day19.rs:69-78 | parsed input gives the number of designs that can be made; input that does not parse gives no answer |
| `Day19.Part2` | src/solutions/day19.rs:80-89 | parsed input gives the total number of ways; input that does not parse gives no answer |
| `Day20.Neighbours` | src/solutions/day20.rs:22-29 | the four neighbours are the position plus each of the four unit steps, in order |
| `Day20.Cells` | src/solutions/day20.rs:154-156 | dropping whitespace keeps the other characters in order |
| `Day20.Last` | src/solutions/day20.rs:158-164 | the remembered start or end is the last occurrence of its letter, and none is found only when the letter is absent |
| `Day20.Position` | src/solutions/day20.rs:159 | the `i`-th cell sits at column `i % width` and row `i / width` |
| `Day20.Parse` | src/solutions/day20.rs:149-175 | a parsed race starts and ends on track cells |
| `Day20.ReadingOrder` | src/solutions/day20.rs:159 | reading order and (column, row) agree |
| `Day20.CellAt` | src/solutions/day20.rs:154-159 | the `i`-th character of a rectangle is at column `i % width` of row `i / width` |
| `Day20.ParseFinds` | src/solutions/day20.rs:149-175 | a rectangle parses exactly when it has an `S` and an `E` |
| `Day20.ParseRectangle` | src/solutions/day20.rs:149-175 | in a rectangle the track is exactly the cells that are not `#`, the start is on an `S` and the end on an `E` |
| `Day20.EnsureNeighbours` | src/solutions/day20.rs:9-20 | the debug check passes exactly when no track cell has more than two track neighbours |
| `Day20.FirstIn` | src/solutions/day20.rs:47-49 | the search returns the first neighbour that is an unlabelled track cell, and none only when there is no such neighbour |
| `Day20.WalkStep` | src/solutions/day20.rs:45-52 | labelling the first unlabelled neighbour one more keeps the walk invariant |
| `Day20.WalkStuck` | src/solutions/day20.rs:47-49 | a walk with no unlabelled neighbour before the end has no route (the source panics) |
| `Day20.WalkDone` | src/solutions/day20.rs:45 | a walk that reached the end has labelled the whole route |
| `Day20.Label` | src/solutions/day20.rs:39-53 | the labelling loop produces exactly the route's labelling, or fails exactly when there is no route |
| `Day20.StepsWalk` | src/solutions/day20.rs:45-52 | the walk's steps are distinct track cells, each next to the one before, stopping at the end |
| `Day20.RouteWalk` | src/solutions/day20.rs:39-53 | the route goes from the start to the end along the track, no cell twice, each next to the one before, the end only at the end |
| `Day20.LabelsAlongRoute` | src/solutions/day20.rs:39-53 | each route cell holds its distance from the start along the route, other track cells hold no label, and every track cell is labelled exactly when the route covers the track |
| `Day20.OnlyChoice` | src/solutions/day20.rs:9-20 | on a track passing the debug check each step after the first has a single unlabelled track neighbour to go to, so the order of the directions does not matter |
| `Day20.CountShortCheats` | src/solutions/day20.rs:55-78 | part 1's loop counts the two-step jumps between labelled cells saving at least 100, and fails exactly when some track cell is unlabelled |
| `Day20.CountJumps` | src/solutions/day20.rs:58-75 | the nested loops over two steps from one cell count its jumps saving at least 100 |
| `Day20.JumpOnRoute` | src/solutions/day20.rs:58-75 | on the route's labels a jump between two route cells counts exactly when it skips at least 100 cells, and it spans Manhattan distance 2 |
| `Day20.CountLongCheats` | src/solutions/day20.rs:107-126 | part 2's loops count the cheats of at most 20 steps saving at least 100, and fail exactly when some track cell is unlabelled |
| `Day20.CountEnds` | src/solutions/day20.rs:110-123 | the inner loop counts the qualifying ends for one start |
| `Day20.EndSaves` | src/solutions/day20.rs:111-122 | one end counts exactly when it is within 20 steps and saves at least 100 |
| `Day20.LongCheatOnRoute` | src/solutions/day20.rs:108-124 | on the route's labels a cheat counts exactly when it is at most 20 long and skips at least 100 more route cells than its length |
| `Day20.LongCheatForward` | src/solutions/day20.rs:119-120 | a counted cheat never goes from a cell to itself, and never both ways |
| `Day20.ShortWithinLong` | src/solutions/day20.rs:69-71 | a part 1 jump whose labels differ by at least 102 is also a part 2 cheat |
| `Day20.Prepare` | src/solutions/day20.rs:33-53 | reading, the debug check when set, and labelling give the prepared labels |
| `Day20.Part1` | src/solutions/day20.rs:31-79 | the answer is the number of short cheats over the labels, and none where the source panics |
| `Day20.Part2` | src/solutions/day20.rs:81-127 | the answer is the number of long cheats over the labels, and none where the source panics |
| `Day21.KeyOf` | src/solutions/day21.rs:21-27 | exactly `A` and the ten digits are keys, a digit key carrying its value; anything else is an error |
| `Day21.KeysOnPad` | src/solutions/day21.rs:13-19 | every numeric key lies on the keypad and different keys lie in different places |
| `Day21.DirKeysOnPad` | src/solutions/day21.rs:138-146 | every directional key lies on its keypad and different keys lie in different places |
| `Day21.Repeat` | src/solutions/day21.rs:149-151 | `n` repetitions of a key are `n` presses of that key |
| `Day21.MapX` | src/solutions/day21.rs:148-152 | a column move takes one press per column |
| `Day21.MapY` | src/solutions/day21.rs:154-158 | a row move takes one press per row |
| `Day21.Realizations` | src/solutions/day21.rs:30-76 | there are one or two spellings of a move, each one press per row and column crossed and ending with `A` |
| `Day21.Straight` | src/solutions/day21.rs:42-51 | a move that keeps a row or a column is spelled the same whichever order is taken |
| `Day21.TraceAppend` | src/solutions/day21.rs:99-105 | the cells passed by two press runs in turn are those of the first followed by those of the second from where it ended |
| `Day21.TraceXY` | src/solutions/day21.rs:53-58 | moving columns first passes one cell per press and ends at the target |
| `Day21.TraceYX` | src/solutions/day21.rs:60-65 | moving rows first passes one cell per press and ends at the target |
| `Day21.RealizationsReach` | src/solutions/day21.rs:30-76 | every spelling takes the arm from the origin to the target |
| `Day21.CornerSafe` | src/solutions/day21.rs:31-35 | between two keys, a move whose corner is not the gap passes only keypad cells |
| `Day21.RealizationsSafe` | src/solutions/day21.rs:67-73 | between two keys of a keypad no spelling passes over the gap |
| `Day21.CostIsCheapest` | src/solutions/day21.rs:95-110 | above the person's keypad a move costs the cheapest of its spellings one level up, and some spelling attains it |
| `Day21.CostAtLeast` | src/solutions/day21.rs:91-93 | every level costs at least the presses of the move itself |
| `Day21.PressesAtLeast` | src/solutions/day21.rs:97-107 | pressing a sequence of keys takes at least one press per key |
| `Day21.OptimalMove` | src/solutions/day21.rs:78-114 | the memoised recursion returns the fewest presses for the move at that depth and keeps every cached entry correct |
| `Day21.SequencePresses` | src/solutions/day21.rs:97-107 | pressing a spelling from `A` costs the sum of its moves' fewest presses |
| `Day21.ParseCode` | src/solutions/day21.rs:162-164 | a line parses exactly when every character is a key, one key per character |
| `Day21.PowerSumValue` | src/solutions/day21.rs:168-176 | the digits weighted by powers of ten from the right give the decimal value of the digits |
| `Day21.NumericOfDigits` | src/solutions/day21.rs:168-176 | a code of digits followed by `A` has the digits' decimal value as its number |
| `Day21.Numeric` | src/solutions/day21.rs:168-176 | a code has a number exactly when it is non-empty and every key before the last is a digit, where the source panics otherwise |
| `Day21.CodePresses` | src/solutions/day21.rs:178-186 | the loop over a code's keys, from `A` with a fresh cache, gives the fewest presses for the whole code |
| `Day21.SumAll` | src/solutions/day21.rs:166-192 | the sum exists exactly when every value does |
| `Day21.ComplexitiesAt` | src/solutions/day21.rs:167-190 | each line's complexity is its presses times its number |
| `Day21.TotalSome` | src/solutions/day21.rs:161-193 | the input has a total exactly when every line is a code with a number |
| `Day21.LineComplexity` | src/solutions/day21.rs:168-188 | one line's complexity is computed by the loop over its keys |
| `Day21.Solve` | src/solutions/day21.rs:161-193 | the answer is the sum of the lines' complexities, and none when a line is malformed |
| `Day21.Part1` | src/solutions/day21.rs:195-198 | two robots stand between the person and the numeric keypad |
| `Day21.Part2` | src/solutions/day21.rs:200-203 | twenty-five robots stand between the person and the numeric keypad |
| `Day22.MixInvolution` | src/solutions/day22.rs:8-10 | mixing the same salt in twice gives the secret back |
| `Day22.MixExample` | src/solutions/day22.rs:16-20 | mixing 15 into 42 gives 37 |
| `Day22.Prune` | src/solutions/day22.rs:12-14 | pruning leaves a value below 2^24 and leaves one already below it unchanged |
| `Day22.PruneExample` | src/solutions/day22.rs:22-24 | pruning 100000000 gives 16113920 |
| `Day22.NextSecret` | src/solutions/day22.rs:27-41 | a step from a seed in -2^57 .. 2^57 − 1 gives a secret below 2^24 |
| `Day22.NoOverflow` | src/solutions/day22.rs:27-41 | no product of a step leaves `i64`: a non-negative seed times 64 stays below 2^63, a negative one stays negative with its low bits kept; the first mix is non-negative, so the remainder by 2^24 is the low 24 bits |
| `Day22.Iterate` | src/solutions/day22.rs:43-49 | every secret the iterator yields is below 2^24 |
| `Day22.IterateLast` | src/solutions/day22.rs:43-49 | the secret after `n + 1` steps is one step after the secret after `n` |
| `Day22.Example123` | src/solutions/day22.rs:51-60 | the ten secrets after 123 are the listed ones |
| `Day22.ParseSeed` | src/solutions/day22.rs:66 | a seed parses, sign included, exactly when its value lies in -2^57 .. 2^57 − 1, and is kept as its two's complement bits |
| `Day22.SignedSeeds` | src/solutions/day22.rs:66 | `+5` reads as 5, `-5` as the bits of −5, and a lone sign is an error |
| `Day22.Negated` | src/solutions/day22.rs:66 | the bits of −n for n up to 2^57 are those of a negative `i64` whose negation is n |
| `Day22.ParseSeeds` | src/solutions/day22.rs:64-66 | the parsed seeds are one per line, each in -2^57 .. 2^57 − 1 |
| `Day22.SumOfSecrets` | src/solutions/day22.rs:67-68 | after at least one step the sum of the buyers' secrets is at most the number of buyers times 2^24 − 1 |
| `Day22.Part1` | src/solutions/day22.rs:62-69 | the answer exists exactly when every line parses, and it fits the bound above, so the `i64` sum never overflows |
| `Day22.Price` | src/solutions/day22.rs:78-81 | a price lies between −9 and 9, and is a single digit for a non-negative secret (a negative seed's remainder is negative, as Rust's `%` gives it) |
| `Day22.Prices` | src/solutions/day22.rs:77-80 | the prices are the last digits of the 2000 secrets after the seed |
| `Day22.Changes` | src/solutions/day22.rs:82-86 | each change is a price minus the one before it, the seed's own last digit coming first |
| `Day22.ChangesBound` | src/solutions/day22.rs:82-86 | every change after the first lies between −9 and 9; the first does too for a non-negative seed and lies between −9 and 18 for a negative one |
| `Day22.MakeBuyer` | src/solutions/day22.rs:76-89 | a buyer has as many changes as prices |
| `Day22.FirstWindow` | src/solutions/day22.rs:96-99 | the first occurrence of a run is found exactly when the run occurs |
| `Day22.GainFirst` | src/solutions/day22.rs:96-101 | a buyer pays for a run at its first occurrence only: the price where it first ends |
| `Day22.FirstWindowAt` | src/solutions/day22.rs:96-99 | an occurrence with none before it is the one found |
| `Day22.GainStep` | src/solutions/day22.rs:96-101 | one more window adds its final price exactly when it is the run's first occurrence |
| `Day22.AddBuyer` | src/solutions/day22.rs:94-102 | one buyer's loop adds, to every run it sees, what it pays for that run, and adds no other key |
| `Day22.BananaTotals` | src/solutions/day22.rs:92-106 | the map holds exactly the runs some buyer sees, each with the bananas all buyers pay for it |
| `Day22.BananasUnseen` | src/solutions/day22.rs:92-106 | a run no buyer sees earns nothing |
| `Day22.MaxValue` | src/solutions/day22.rs:108 | the maximum exists exactly for a non-empty map, is one of its values and is at least every value |
| `Day22.Part2` | src/solutions/day22.rs:71-109 | the answer is the most bananas any run earns, exists exactly when every line parses and some run occurs, and is attained by some run |
| `Day23.ParseLine` | src/solutions/day23.rs:15-17 | a line reads as two names exactly when it holds a `-` |
| `Day23.ParseLineJoin` | src/solutions/day23.rs:15-17 | two names without `-` joined by `-` read back as those two names |
| `Day23.Edges` | src/solutions/day23.rs:14-17 | the connections exist exactly when every line holds a `-`, and there is one per line, each that line's two names |
| `Day23.Connect` | src/solutions/day23.rs:19-20 | recording a connection adds both computers and makes each the neighbour of the other, changing no other neighbourhood |
| `Day23.ConnectionsEdges` | src/solutions/day23.rs:10-26 | the graph's computers are exactly those named in the lines, and `b` neighbours `a` exactly when some line links them |
| `Day23.ConnectionsSymmetric` | src/solutions/day23.rs:19-20 | the neighbour relation is symmetric |
| `Day23.ParseStep` | src/solutions/day23.rs:14-23 | one more well-formed line adds its connection to the graph of the lines before it |
| `Day23.Parse` | src/solutions/day23.rs:10-26 | the loop over the lines yields the computer set and neighbour map of the connections, or nothing for a malformed line |
| `Day23.Ordered3` | src/solutions/day23.rs:42-43 | three names none of which is smaller than an earlier one are in order |
| `Day23.TrioOrdered` | src/solutions/day23.rs:42-43 | a sorted trio is ordered and holds the same three names |
| `Day23.TrioSorted` | src/solutions/day23.rs:42-43 | the trio equals the general string sort of the three names |
| `Day23.TriosMeaning` | src/solutions/day23.rs:32-48 | the trios collected are exactly the ordered triples of distinct mutually connected computers with one name starting with `t` (both directions) |
| `Day23.Distinct3` | src/solutions/day23.rs:42-44 | three names are distinct exactly when they are pairwise different |
| `Day23.CliqueMembers` | src/solutions/day23.rs:72-81 | whether a set is a clique depends only on its members, not their order |
| `Day23.TrioMembers` | src/solutions/day23.rs:42-43 | a trio has length three and holds exactly its three names |
| `Day23.Triangle` | src/solutions/day23.rs:38-41 | a computer and two neighbours that are neighbours of each other form a clique of three different computers |
| `Day23.TrioShape` | src/solutions/day23.rs:38-44 | each trio inserted is an ordered triangle of distinct computers through the `t` computer |
| `Day23.TrioCounted` | src/solutions/day23.rs:33-45 | the trio of a `t` computer and two mutually connected neighbours is among those collected |
| `Day23.TrioFrom` | src/solutions/day23.rs:33-45 | an ordered triangle holding a `t` computer and its two neighbours is among those collected |
| `Day23.TrioFound` | src/solutions/day23.rs:33-45 | every ordered triangle with a `t` computer in any position is among those collected |
| `Day23.PairTrios` | src/solutions/day23.rs:40-46 | the inner loop adds exactly the trios of `node`, `a` and each neighbour `b` of `node` linked to `a` |
| `Day23.AddNodeTrios` | src/solutions/day23.rs:38-47 | the two nested loops add exactly the trios through `node` |
| `Day23.TriosOverStep` | src/solutions/day23.rs:33-37 | visiting one more computer adds its trios when its name starts with `t` and nothing otherwise |
| `Day23.CountTrios` | src/solutions/day23.rs:32-50 | the loop over all computers counts exactly the distinct trios of the graph |
| `Day23.Part1` | src/solutions/day23.rs:29-51 | an answer exists exactly when every line is well formed, and it is the number of distinct `t` triangles |
| `Day23.CommonNeighbours` | src/solutions/day23.rs:76-81 | the fold yields the neighbourhoods of all the set's computers intersected |
| `Day23.DistinctCard` | src/solutions/day23.rs:72-73 | a list of distinct computers has as many members as its length |
| `Day23.CliqueBound` | src/solutions/day23.rs:72-73 | a clique of distinct computers is no larger than the graph |
| `Day23.SortClique` | src/solutions/day23.rs:67 | sorting a set of computers keeps it a clique of distinct computers of the same size |
| `Day23.ExtendClique` | src/solutions/day23.rs:83-87 | a common neighbour of a clique is new to it and extends it to a larger clique |
| `Day23.Singletons` | src/solutions/day23.rs:59-62 | the initial queue holds only cliques and holds each neighbour of the start alone |
| `Day23.PushExtensions` | src/solutions/day23.rs:83-87 | pushing each common-neighbour extension keeps the queue made of cliques and adds one weight unit per extension |
| `Day23.Extensions` | src/solutions/day23.rs:83-87 | one extended clique per common neighbour, each a clique one computer larger |
| `Day23.ExtensionsGrow` | src/solutions/day23.rs:83-87 | adding a common neighbour to a clique gives a clique one computer larger, so the list of extensions stays made of cliques of that length |
| `Day23.TriosOverNext` | src/solutions/day23.rs:32-50 | taking one more computer into the counted set adds exactly its trios when its name starts with t |
| `Day23.WeightAppend` | src/solutions/day23.rs:83-87 | sets of one size appended to the queue raise its weight by one unit each |
| `Day23.WeightDrops` | src/solutions/day23.rs:66-87 | popping a set and pushing at most `n` one-larger sets lowers the queue's weight, so the search ends |
| `Day23.Grow` | src/solutions/day23.rs:59-88 | the search from one computer keeps the best a sorted clique of distinct computers, replaces it only by a larger one, and every set seen is no larger than the best |
| `Day23.LargestClique` | src/solutions/day23.rs:57-89 | the best found over all computers is a sorted clique of distinct computers at least as large as every set seen, and every neighbour alone was seen |
| `Day23.PasswordSplit` | src/solutions/day23.rs:91-95 | the comma-joined password splits back into the sorted names |
| `Day23.NoSelfLoopsOf` | src/solutions/day23.rs:14-23 | lines that never connect a computer to itself give a graph without self-loops |
| `Day23.Part2` | src/solutions/day23.rs:54-96 | an answer exists exactly when every line is well formed, and it is the password of a sorted clique of distinct computers, non-empty for non-empty input |
| `CircuitTypes.Compute` | src/solutions/day24/types.rs:12-18 | XOR gives the sum of the input bits mod 2, AND their carry, OR whether either is set |
| `CircuitTypes.GateCommutes` | src/solutions/day24/types.rs:12-18 | every gate gives the same output with its inputs swapped |
| `CircuitTypes.Operands` | src/solutions/day24/types.rs:29-31 | the operands are the two inputs, `a` first |
| `CircuitTypes.NewPair` | src/solutions/day24/types.rs:41-47 | the pair holds the two wires, the smaller first |
| `CircuitTypes.NewPairSymmetric` | src/solutions/day24/types.rs:41-47 | a pair is the same whichever order its wires are given in |
| `CircuitParse.Space1` | src/solutions/day24/parse.rs:26 | one or more spaces are consumed, or the parse fails |
| `CircuitParse.WireName` | src/solutions/day24/parse.rs:17-20 | a wire read is three lower-case letters or digits and the input is that name followed by the rest |
| `CircuitParse.InitialValue` | src/solutions/day24/parse.rs:22-30 | an initial-value line consumes input when it is read |
| `CircuitParse.GateKeyword` | src/solutions/day24/parse.rs:40-50 | a gate keyword consumes input when it is read |
| `CircuitParse.EquationLine` | src/solutions/day24/parse.rs:52-66 | an equation line consumes input when it is read |
| `CircuitParse.Separated` | src/solutions/day24/parse.rs:32-38 | the newline-separated list never grows the input left over |
| `CircuitParse.MapOf` | src/solutions/day24/parse.rs:35 | the map's keys are exactly the keys of the pairs collected |
| `CircuitParse.ValueRoundTrip` | src/solutions/day24/parse.rs:22-30 | the text of an initial value reads back as that value, leaving the rest |
| `CircuitParse.GateRoundTrip` | src/solutions/day24/parse.rs:40-50 | each gate's keyword reads back as that gate, OR not mistaken for a prefix of another |
| `CircuitParse.OperandAndTargetRoundTrip` | src/solutions/day24/parse.rs:52-64 | the text `b -> result` reads back as those two wires |
| `CircuitParse.EquationRoundTrip` | src/solutions/day24/parse.rs:52-66 | the text of an equation reads back as that equation and its result wire |
| `CircuitParse.SeparatedRoundTrip` | src/solutions/day24/parse.rs:32-38 | newline-joined items read back as those items, stopping before a newline not followed by an item |
| `CircuitParse.NoValueAtNewline` | src/solutions/day24/parse.rs:76 | no initial value starts at the blank line, so the value list stops there |
| `CircuitParse.TrimIdentity` | src/solutions/day24/parse.rs:80 | trimming text that neither starts nor ends with whitespace leaves it unchanged |
| `CircuitParse.ParseRender` | src/solutions/day24/parse.rs:16-81 | parsing the text of any non-empty values and equations over valid wire names gives back those values and equations as maps, a later line overriding an earlier one |
| `Correctness.EvalPathAntitone` | src/solutions/day24/part2/correctness.rs:19-21 | a value found with some wires pending is also found, the same, with fewer pending |
| `Correctness.MemoPathIrrelevant` | src/solutions/day24/part2/correctness.rs:15-17 | for a memoised wire only the memoised part of the pending set matters |
| `Correctness.ComputeWireValue` | src/solutions/day24/part2/correctness.rs:9-32 | the result is the wire's value with the pending wires ruled out; the memo only grows, stays sound and closed, a memoised wire is answered from it, a pending one fails, and a success memoises the wire and leaves the pending set as it was |
| `Correctness.ValueOfGate` | src/solutions/day24/part2/correctness.rs:23-27 | a known value of a computed wire is its gate applied to its operands' known values |
| `Correctness.CycleHasNoValue` | src/solutions/day24/part2/correctness.rs:19-20 | a wire that depends on itself through a chain of gates has no value |
| `Correctness.ProbeValues` | src/solutions/day24/part2/correctness.rs:56-68 | the probe assigns a value to both input wires of every bit up to `bit` |
| `Correctness.AdderUpToLower` | src/solutions/day24/part2/correctness.rs:44-49 | passing the check for a bit means passing it for every lower bit |
| `Correctness.AdderUpToMeans` | src/solutions/day24/part2/correctness.rs:34-85 | the check for `bit` holds exactly when every probe of every bit from 1 to `bit` gives the sum bit `x ^ y ^ carry` |
| `Correctness.Probe` | src/solutions/day24/part2/correctness.rs:56-80 | one probe succeeds exactly when the output wire has a value equal to the sum bit of the probed inputs |
| `Correctness.AdderCheckAgrees` | src/solutions/day24/part2/correctness.rs:34-85 | where every probed bit has its input pair and output, the recursive check never panics and passes exactly when every bit from 1 up adds correctly |
| `Correctness.IsAdderUpTo` | src/solutions/day24/part2/correctness.rs:34-85 | the loops over the truth table and the carry return the recursive check, including the panic (`None`) when a probed bit has no input pair or output |
| `Correctness.ProbeAll` | src/solutions/day24/part2/correctness.rs:51-84 | the loops over the truth table and both carries pass exactly when every probe of the bit gives the sum bit |
| `Correctness.IsAdderAsWritten` | src/solutions/day24/part2/correctness.rs:179-185 | the source's check runs up to bit `NUM_BITS` |
| `Correctness.AsWrittenNeverPasses` | src/solutions/day24/part2/correctness.rs:179-185 | with the `NUM_BITS` input pairs the source builds, the check as written never passes, and panics on a circuit whose lower bits all pass |
| `Correctness.IsAdder` | src/solutions/day24/part2/correctness.rs:179-185 | the corrected check runs over the bits that have input pairs, and with the wires the source builds it never panics and gives the check for bits 1 to `NUM_BITS - 1` |
| `Correctness.Assignment` | src/solutions/day24/part2/correctness.rs:93-102 | both input wires of every bit are assigned |
| `Correctness.AssignmentReadsBack` | src/solutions/day24/part2/correctness.rs:93-102 | with distinct wire names each input wire reads back the value given for it |
| `Correctness.CalculateSum` | src/solutions/day24/part2/correctness.rs:87-111 | each result is the value of that output wire under the assignment, the shared memo changing no answer |
| `Correctness.MemoForget` | src/solutions/day24/part2/correctness.rs:107 | a valid memo stays valid when the pending set is emptied for the next output |
| `Correctness.NumberBits` | src/solutions/day24/part2/correctness.rs:127-132 | bit `i` of the number built from the bits is bit `i` |
| `Correctness.Firsts` | src/solutions/day24/part2/correctness.rs:127-131 | the x bits are the first of each pair, in order |
| `Correctness.Seconds` | src/solutions/day24/part2/correctness.rs:127-131 | the y bits are the second of each pair, in order |
| `Correctness.FirstMismatch` | src/solutions/day24/part2/correctness.rs:152-173 | there is no mismatch exactly when every bit from `from` on is right; otherwise it is a wrong bit with every bit before it right |
| `Correctness.Earlier` | src/solutions/day24/part2/correctness.rs:161-165 | the result is one of the two, absent only when both are, and no later than either |
| `Correctness.SampleSum` | src/solutions/day24/part2/correctness.rs:134 | each output is the value of that output wire under the sample |
| `Correctness.Observations` | src/solutions/day24/part2/correctness.rs:121-134 | each sample's observation holds the circuit's outputs for it and the true sum |
| `Correctness.ObservedSample` | src/solutions/day24/part2/correctness.rs:134 | one evaluation of every output wire is exactly what that sample observes |
| `Correctness.EarliestNone` | src/solutions/day24/part2/correctness.rs:120-176 | no bit is reported exactly when every sample gets every output bit right |
| `Correctness.EarliestSome` | src/solutions/day24/part2/correctness.rs:120-176 | a reported bit is wrong in some sample and every lower bit is right in every sample |
| `Correctness.ScanSample` | src/solutions/day24/part2/correctness.rs:152-173 | the scan of one sample lowers the answer to that sample's first wrong bit when it is lower |
| `Correctness.FirstIncorrectBit` | src/solutions/day24/part2/correctness.rs:113-177 | the loop over the samples returns the lowest bit any sample gets wrong |
| `PairsAndSwaps.GetPairs` | src/solutions/day24/part2/pairs_and_swaps.rs:4-17 | the set holds exactly the normalised pairs of a wire from the first list and one from the second |
| `PairsAndSwaps.AddRow` | src/solutions/day24/part2/pairs_and_swaps.rs:10-13 | the inner loop adds exactly the pairs of `a` with each wire of the second list |
| `PairsAndSwaps.Swapped` | src/solutions/day24/part2/pairs_and_swaps.rs:19-28 | a swap exists exactly when both wires have equations and differ; it trades their two equations and changes no other wire |
| `PairsAndSwaps.SwappedTwice` | src/solutions/day24/part2/pairs_and_swaps.rs:19-28 | swapping the same pair twice gives back the original circuit |
| `PairsAndSwaps.SwappedOrderless` | src/solutions/day24/part2/pairs_and_swaps.rs:19-28 | the swap does not depend on which wire of the pair comes first |
| `Search.RepairChainRepairs` | src/solutions/day24/part2/search.rs:47-74 | following a chain of swaps, each of which removes every wrong bit or raises the first one, ends in a circuit the samples find no fault in |
| `Search.TrySwap` | src/solutions/day24/part2/search.rs:41-74 | a set found through a swap comes from a repair chain starting with that swap; nothing found means the swap alone leaves a wrong bit or is impossible |
| `Search.FindSwaps` | src/solutions/day24/part2/search.rs:9-79 | nothing at depth 4 or more; the empty set for a circuit with no wrong bit; a found set is the pairs of a repair chain over listed wires of at most 4 swaps in all; nothing found means no single swap of two distinct listed wires repairs the circuit |
| `CircuitRepair.LabelInjective` | src/solutions/day24/part2/mod.rs:17-19 | labels with different prefixes or bit numbers are different wire names |
| `CircuitRepair.LabelExamples` | src/solutions/day24/part2/mod.rs:17-19 | bit numbers are zero-padded to two digits: `x00`, `y07`, `z44` |
| `CircuitRepair.InputNames` | src/solutions/day24/part2/mod.rs:16-20 | bit `i` has the inputs `x{i}` and `y{i}`, for each of the `n` bits |
| `CircuitRepair.OutputNames` | src/solutions/day24/part2/mod.rs:16-25 | the outputs are `z{i}` for every bit and the carry out `z{n}` |
| `CircuitRepair.OutputNamesAsWritten` | src/solutions/day24/part2/mod.rs:16-25 | as written, the outputs are `z{i}` for every bit, then `z{n+1}` |
| `CircuitRepair.OutputNamesDistinct` | src/solutions/day24/part2/mod.rs:16-25 | the corrected outputs are pairwise distinct and include the carry out `z{n}` |
| `CircuitRepair.AsWrittenSkipsCarry` | src/solutions/day24/part2/mod.rs:24-25 | as written, the carry out `z{n}` is never listed as an output |
| `CircuitRepair.AsWrittenOneBit` | src/solutions/day24/part2/mod.rs:24-25 | as written, a one-bit adder's outputs are `z00` and `z02` |
| `CircuitRepair.InputsAndOutputsAsWritten` | src/solutions/day24/part2/mod.rs:13-28 | the loop builds the input names and the as-written output names |
| `CircuitRepair.InputsAndOutputs` | src/solutions/day24/part2/mod.rs:13-28 | the loop builds the input names and the output names ending with the carry out |
| `CircuitRepair.AllWires` | src/solutions/day24/part2/mod.rs:30-32 | a wire is collected exactly when some equation reads it |
| `CircuitRepair.SwappableWires` | src/solutions/day24/part2/mod.rs:94-99 | a wire may be swapped exactly when it is read and starts with neither `x` nor `y`, or is an output |
| `CircuitRepair.ConeHasEquations` | src/solutions/day24/part2/mod.rs:41-47 | a dependency cone holds only wires with equations, and its own wire exactly when that wire has one |
| `CircuitRepair.MandatorySubset` | src/solutions/day24/part2/mod.rs:38-51 | the stack search returns exactly the wires with equations that the output depends on |
| `CircuitRepair.SortedBySizePairwise` | src/solutions/day24/part2/mod.rs:53 | in a sorted list every subset is at least as large as every later one |
| `CircuitRepair.InsertBySize` | src/solutions/day24/part2/mod.rs:53 | inserting keeps the list sorted by decreasing size and adds exactly the new subset |
| `CircuitRepair.SortBySize` | src/solutions/day24/part2/mod.rs:53 | the result is sorted by decreasing size and a permutation of the subsets |
| `CircuitRepair.MandatorySubsets` | src/solutions/day24/part2/mod.rs:34-56 | the result is the cones of the outputs, permuted into decreasing size |
| `CircuitRepair.AddToEach` | src/solutions/day24/part2/mod.rs:76-79 | each set of the list gets the wire added, in place |
| `CircuitRepair.ExtendMember` | src/solutions/day24/part2/mod.rs:74-84 | each extended set is a later representative with a wire of the current subset added |
| `CircuitRepair.ExtendComplete` | src/solutions/day24/part2/mod.rs:74-84 | every later representative with every wire of the current subset added is produced |
| `CircuitRepair.ExtendCount` | src/solutions/day24/part2/mod.rs:74-84 | one set is produced per wire and later representative |
| `CircuitRepair.RepresentativesHit` | src/solutions/day24/part2/mod.rs:58-85 | every representative holds a wire of each non-empty subset |
| `CircuitRepair.RepresentativesWithin` | src/solutions/day24/part2/mod.rs:58-85 | a representative holds only wires of the subsets |
| `CircuitRepair.RepresentativesComplete` | src/solutions/day24/part2/mod.rs:58-85 | every way of picking one wire from each non-empty subset gives a representative |
| `CircuitRepair.RepresentativesCount` | src/solutions/day24/part2/mod.rs:58-85 | the number of representatives is the product of the sizes of the non-empty subsets |
| `Day25.Blocks` | src/solutions/day25.rs:93 | the input is cut into at least one block, none holding a blank line |
| `Day25.UnblockBlocks` | src/solutions/day25.rs:93 | putting the blank lines back between the blocks gives the input lines |
| `Day25.PatternOf` | src/solutions/day25.rs:95-99 | the pattern has the grid's rows and row lengths |
| `Day25.ParsePattern` | src/solutions/day25.rs:94-101 | a block reads as a schematic exactly when its characters fill as many rows of the first line's width as it has lines; the schematic has that shape |
| `Day25.ParsePatternCells` | src/solutions/day25.rs:95-101 | a rectangular block is read cell for cell, `#` as filled |
| `Day25.ParseAll` | src/solutions/day25.rs:92-103 | all blocks are read exactly when each is, one schematic per block in order |
| `Day25.Column` | src/solutions/day25.rs:13 | column `c` holds the cells of that column from top to bottom |
| `Day25.Height` | src/solutions/day25.rs:14-20 | a height exists exactly when the column has a cell unlike the top-left cell; it is one less than the first such row, and every cell above it matches |
| `Day25.ColumnHeight` | src/solutions/day25.rs:14-20 | the loop down the column returns the column's height |
| `Day25.HeightsOf` | src/solutions/day25.rs:10-24 | heights exist exactly when the schematic has a top-left cell and no uniform column; the kind is the top-left cell and there is one height per column |
| `Day25.PatternHeights` | src/solutions/day25.rs:13-21 | the loop over the columns returns the schematic's kind and heights |
| `Day25.Sorted` | src/solutions/day25.rs:26-34 | the schematics are sorted exactly when each has heights, and every one goes to one of the two lists |
| `Day25.SortedMembers` | src/solutions/day25.rs:26-34 | the keys are exactly the heights of schematics with an empty top-left cell and the locks of those with a filled one |
| `Day25.Sort` | src/solutions/day25.rs:26-34 | the loop pushing each schematic onto its list gives the sorted keys and locks |
| `Day25.SortedNone` | src/solutions/day25.rs:20 | a schematic without heights anywhere leaves the whole input without an answer |
| `Day25.CountFits` | src/solutions/day25.rs:38-45 | the nested loops count exactly the key and lock pairs where no lock column is higher than the key's |
| `Day25.Part1` | src/solutions/day25.rs:8-48 | an answer exists exactly when every block is well formed and has heights, and it is the number of fitting key and lock pairs |
| `Day25.LockColumn` | src/solutions/day25.rs:11-20 | in a lock column the cells filled are exactly those at or above the height |
| `Day25.KeyColumn` | src/solutions/day25.rs:11-20 | in a key column the cells filled are exactly those below the height |
| `Day25.ColumnOverlap` | src/solutions/day25.rs:41 | in one column the lock height is at most the key height exactly when no row is filled in both |
| `Day25.FitsMeansNoOverlap` | src/solutions/day25.rs:41 | for a lock and a key of equal height, the heights fit exactly when no cell is filled in both |
| `Grids.Chunks` | src/solutions/day04.rs:7 | `from_shape_vec` cuts the bytes into the given number of rows, each exactly the given width |
| `Grids.ParseGrid` | src/solutions/day04.rs:3-8 | a grid has as many rows as lines, each as wide as the first line; no first line, or a byte count that does not fill the shape, is an error |
| `Grids.ParseRectangular` | src/solutions/day04.rs:3-8 | lines of equal width are read back as exactly the grid they spell |
| `Grids.Get` | src/solutions/day04.rs:20 | `get` gives a cell's character exactly when the position is inside the grid |
| `Text.Split` | src/solutions/day23.rs:15 | `k` separators give `k + 1` pieces, none holding the separator |
| `Text.SplitJoin` | src/solutions/day23.rs:92-95 | splitting pieces joined with a separator none of them holds gives the pieces back |
| `Text.JoinSplit` | src/solutions/day23.rs:15 | joining the pieces of a split gives the text back |
| `Text.SortStrings` | src/solutions/day23.rs:91 | the result is in order and a permutation of the strings |
| `Text.SortStringsUnique` | src/solutions/day23.rs:91 | two lists sort alike exactly when they hold the same strings equally often |
| `Text.SortOrdered` | src/solutions/day23.rs:67 | sorting strings already in order changes nothing |

## Left out

- Integer widths: `usize`, `i64`, `u64`, `i32` and `u32` arithmetic is modelled with unbounded integers except where wrap-around is part of the behaviour (day 15's wrapping moves, day 17's 64-bit registers, day 22's 24-bit prune written as a mask of the low 24 bits). The model answers where the source's debug build would panic on overflow or the release build would wrap: the `i32` sums and the `a * count as i32` product of day 1, the `i32` differences of day 2, the `i32` sums of middle pages of day 5, the `u32` sums of days 10 and 12, and the truncating `len() as i32` casts of the grid size in day 6.
- Hash maps and hash sets: where the source iterates a `HashMap` or `HashSet`, the model iterates a sequence or picks an arbitrary member, and the contracts hold whatever the order.
- Parallelism: rayon in day 6 part 2 and day 7 is modelled sequentially.
- Console output (`println!`, `dbg!`, the day 14 part 2 animation) is not modelled; day 20's debug-build neighbour check is a `debug` parameter.
- Days 3, 13, 16 and 18 are not part of this model: they rest on the regex crate, floating-point matrix inversion and the pathfinding crate.
- The entry point and module glue (`src/main.rs`, `src/solutions.rs`, `src/parse.rs`) and the superseded `src/solutions/day24/failed-attempt.rs` are not part of this model.
- Day 8 part 2 is not modelled: its loop stops only at the upper bounds.
- Day 14 part 2 is not modelled: it is a terminal animation.
- Day 17 part 2 is not modelled: it is a heuristic search with debugging output. The day-17 input parser is also left out; `Day17.Part1` takes the registers and the program.
- Day 24 `part2` in `src/solutions/day24/part2/mod.rs` ends in `todo!()`; the model covers the pieces it calls (names, swappable wires, the search) but gives no answer for it.
- Correctness.FirstIncorrectBit: `get_first_incorrect_bit` draws 100 random samples on every call; the model takes the samples as a parameter.
- Search.FindSwaps and Search.TrySwap: the source draws 100 fresh samples on every call of `get_first_incorrect_bit`, once for the circuit and once for each swap tried, at every depth. The model passes one sample set to every call, so `Search.RepairChain` and the lemmas about it describe only runs in which every call draws the same samples.
- Day24 parse: the winnow combinators are modelled as the grammar they accept; `CircuitParse.ParseRender` is proved for non-empty sections of well-formed names.
- Day20.Neighbours: the order in which neighbours are tried is taken to be `[(-1,0),(0,1),(1,0),(0,-1)]`, the pathfinding crate's `DIRECTIONS_4`, whose source is not part of this model; on a start with two track neighbours the first step of the walk may differ from the source's.
- Day10.Parse: a character below `0` (such as `.` or `\r`) is an error, as in a debug build, where the byte subtraction `char - b'0'` panics; a release build would wrap it to a height above 200.
- ASCII input: the grid days (4, 6, 8, 10, 12, 15, 20 and 25) index characters where the source indexes the bytes of the input (`bytes()`, byte `len()`); the two agree on ASCII input, which the model takes every input to be.
- DiskMap: a character below `0` is an error, as in a debug build, where the byte subtraction `char - b'0'` panics; a release build would wrap it to a size above 200. A non-ASCII character is an error too, where the source would subtract from each of its UTF-8 bytes, and trimming covers ASCII whitespace only.
- Day11: the source counts digits with `f32::log10`; the model counts decimal digits exactly, which differs from the source only for numbers beyond `f32` precision.
- Day05.Part2: the comparator sort (`sort_by`) is modelled as an insertion sort with the same comparator; the result is proved a permutation with the middle page summed.
- Day06.Part1 and Day17.Part1 take a fuel bound because the source loops have no bound the model can state; the answer is given when the walk or run ends within the fuel.
- Day23.Part2: requires that no line connects a computer to itself (the source's search would not end on such a line), and proves the password is that of a sorted clique, not that the clique is the largest.
- Day15.Warehouse.Apply, Day15.Warehouse.SwapBack, Day15.Warehouse.Run, Day15.Solve, Day15.Part1 and Day15.Part2: a panic of the source (no robot, a position outside the grid, the robot in its own way, a pushed-into cell that is not empty) is `Failed`, `false` or `None`. The model does not prove that a well-formed warehouse (one robot, a border of walls, wide rocks in matching halves) never reaches such a panic: that needs an invariant on the order in which the push list is filled and on the rock halves, kept across every move, which is beyond this model. They also return `None` for a map wider or taller than 2^64 cells. `Day15.Parse` splits lines on `\n` only.
- Day05.Sections: the input is given as its lines split at `\n`, from which the two sections are rebuilt; a `\r` before a line break, which Rust's `lines` drops, is kept.
- Day22.ParseSeed: an `i64` seed of magnitude 2^57 or more parses in the source but overflows `secret * 64`, which panics in a debug build; the model gives `None` for it.
- Day19.Parse: a parse error and a letter that is not a colour (where `Color::from_char` panics) are both `None`.
- Day19: a towel is read as one or more colours, and the counting recursion is stated for non-empty towels only (an empty towel would make the source recurse forever).
- Day21: an empty code or a non-digit before the last key makes the source panic; the model gives `None`.
- Worked examples: the puzzle examples are proved for day 1 (11 and 31), day 2 (the safe reports), day 7 (the example lines), day 11 (one blink), day 17 (the unit-test traces and the part-1 example) and day 22 (mix, prune and the secrets from 123). The whole-input examples of the other days (for example 1928 and 2858 for day 9, 10092 and 9021 for day 15, 126384 for day 21, 37327623 for day 22 part 1, 7 and `co,de,ka,ta` for day 23, 3 for day 25) are not proved: evaluating the model on them is beyond what the verifier unfolds.

## Findings

| source | as written | input that shows it | evidently intended | confidence | as-written member | corrected member |
|---|---|---|---|---|---|---|
| src/solutions/day07.rs:51-57 | `concatenate(a, 0)` returns `a` | `concatenate(12, 0)` gives 12 | the digits of `a` followed by `0`, i.e. 120 | not executed | `Day07.ConcatenateAsWritten` (`Day07.ConcatenateZero`, `Day07.Part2AsWritten`, `Day07.ZeroOperand`) | `Day07.Concatenate` (`Day07.ConcatenateDigits`) |
| src/solutions/day24/part2/mod.rs:24-25 | the last output of an `n`-bit adder is named `z{n+1}` | `n = 1` gives outputs `z00`, `z02`; the carry out `z01` is never checked | the carry out `z{n}` | not executed | `CircuitRepair.OutputNamesAsWritten` (`CircuitRepair.AsWrittenSkipsCarry`, `CircuitRepair.AsWrittenOneBit`) | `CircuitRepair.OutputNames` (`CircuitRepair.OutputNamesDistinct`, `CircuitRepair.InputsAndOutputs`) |
| src/solutions/day24/part2/correctness.rs:179-185 | `is_adder` checks bits up to `NUM_BITS` | the 44 input pairs that `part2` builds (src/solutions/day24/part2/mod.rs:87-92): bit 44 indexes `inputs[44]` and panics | the check over the bits that have inputs, 1 to 43 | not executed | `Correctness.IsAdderAsWritten` (`Correctness.AsWrittenNeverPasses`) | `Correctness.IsAdder` (`Correctness.AdderCheckAgrees`) |
