# Advent of Code 2021, days 1–11, in Dafny

This project models the solutions to days 1–11 of Advent of Code 2021 from the
Rust repository `advent_of_code_2021`: one module per day (`Day1` … `Day11`,
files `day1.dfy` … `day11.dfy`). Each module holds the day's parsing, its
two `solution_impl_*` operations and the helpers they use. Two shared
modules hold the library behaviour the solutions rely on:

- `Base` (`base.dfy`): `Option`/`Result`, sums, powers, minimum and maximum
  keys, the tally of values into a count map, and sums over a map.
- `Text` (`text.dfy`): `str::split` on a string separator, splitting into
  non-empty words, `str::trim`, and `str::parse::<i64>`.

Where the Rust code changes state step by step, the model does too:

- Day 1's `SumQueue`, Day 4's `BingoBoard`, Day 6's `LanternfishAutomata`
  and Day 11's `Grid` are Dafny classes whose methods update their fields.
- The counting loops of every day are `while`/`for` loops. Each is proved
  against a specification function, and the puzzle's properties are proved
  about those functions as lemmas.

A Rust panic (`unwrap` on a bad parse, a failed `assert!`, an unexpected
character) is an explicit error result: `None` or `Err`. A loop that does
not stop in the source is also `None`, with a lemma showing why it cannot
stop.

What is proved, day by day:

- **Day 1.** Counting rises of the 3-window sums equals counting values that
  exceed the value three places earlier. The `SumQueue` window always holds
  the last three values pushed, and its sum.
- **Day 2.** Both loops compute closed forms: the total of the `forward`
  amounts, the net dive, and the aim-weighted depth. Part 2's aim is part
  1's depth.
- **Day 3.**
  - Gamma and epsilon are bitwise complements when no column is tied.
  - `partition` loses nothing.
  - Each filter ends with exactly one value from the input, and it stops
    when the values are distinct.
  - The CO2 filter as written can empty the list (see Findings).
- **Day 4.**
  - Board reading consumes exactly five non-blank lines.
  - A value's location is its last occurrence on the board.
  - `call_value` reports exactly a completed row or column.
  - The chosen board wins first (or last); on a tie the earlier board is
    kept.
- **Day 5.**
  - `range` walks from start to end.
  - Reversing a line's endpoints (as `from_string` does) keeps its points.
  - The overlap count is the number of points covered at least twice.
- **Day 6.** The counter step grows the population by the fish at 0. It
  agrees with a list-of-fish reference model, so the population is the
  length of that list after n days.
- **Day 7.** The minimum over `min..=max` is the minimum over all integers.
  The triangle cost is `1 + … + n`.
- **Day 8.**
  - The deduction is correct: on any permutation of the seven wires (with
    ASCII letters) that shows all ten digits, it maps every pattern to the
    digit it shows, and decoding an output gives the number it shows.
  - Lengths are UTF-8 byte lengths, as `str::len` counts them.
  - The last check tests the wrong digit (see Findings).
- **Day 9.**
  - A low point is strictly below every neighbour.
  - `dfs_count` adds exactly the region reachable from its start and returns
    its size.
  - The scan visits every cell once, in row-major order. Each count is 0 or
    the size of the whole basin of its cell, and a basin with a non-zero
    count shares no cell with any basin counted before it. The counts sum to
    the whole basin area.
  - The heap keeps the three largest counts, and the product does not
    depend on pop order.
- **Day 10.**
  - The first unmatched character is the earliest one that breaks the line.
  - Appending the closers of the leftover stack balances the line.
  - Completion scores are injective.
  - The median splits the sorted scores.
- **Day 11.**
  - The cascade of `increment_adjacent` is stated exactly: every cell ends
    one higher if it was raised directly, plus one per flash in its own
    block, and the flashes are the least set closed under flashing. A
    cascade has one outcome, so the order of the recursive calls does not
    change the grid.
  - A step is determined by the grid before it (`StepToUnique`), ends with
    digits only, and returns the number of flashes, which are the cells now
    at 0. The steps of three small grids are proved as examples.
  - Part 1 sums the counts of the unique run of 100 steps; part 2 returns
    the first all-zero grid of the unique chain of steps.

## Model

| member | source | states |
|---|---|---|
| Day1.CountIncreases | src/solutions/day1.rs:52-67 | the count is the number of readings strictly greater than the reading before them; the first reading never counts |
| Day1.SolvePart1 | src/solutions/day1.rs:51-68 | an answer exactly when every line parses as an integer; it is the number of readings greater than the one before |
| Day1.SolvePart2 | src/solutions/day1.rs:70-90 | an answer exactly when every line parses as an integer; it is the number of rises among the 3-window sums, which is the number of readings greater than the one three places earlier |
| Day1.SumQueue.constructor | src/solutions/day1.rs:14-20 | a new queue has the given capacity, an empty window, sum 0 and is not testable |
| Day1.SumQueue.Sum | src/solutions/day1.rs:22-24 | the kept running sum equals the sum of the values in the window |
| Day1.SumQueue.Testable | src/solutions/day1.rs:26-28 | testable exactly when more values were pushed than the capacity, i.e. once a value has left the window |
| Day1.SumQueue.AtCapacity | src/solutions/day1.rs:30-32 | at capacity exactly when at least `capacity` values have been pushed |
| Day1.SumQueue.Push | src/solutions/day1.rs:34-43 | a full window drops its oldest value before appending; testable becomes true when that happens; the window stays the last min(n, capacity) values pushed and the sum stays their sum |
| Day1.Slide | src/solutions/day1.rs:34-43 | after one more push the window is again the last min(n, capacity) values of everything pushed |
| Day1.Observe | src/solutions/day1.rs:75-86 | one loop iteration of part 2 keeps the loop state (`Window`): the queue holds the last three readings, the previous sum is its sum, and the count stays the number of rises of the 3-window sums of the readings so far |
| Day1.CountStep | src/solutions/day1.rs:82-84 | the new window sum beating the previous one adds one rise of the 3-window sums, and only then |
| Day1.WindowIncreasesSnoc | src/solutions/day1.rs:82-84 | one more reading adds a rise of the window sums exactly when the last window's sum beats the one before it |
| Day1.CountWindowIncreases | src/solutions/day1.rs:71-89 | the count is the number of rises among consecutive 3-window sums |
| Day1.WindowSumsAt | src/solutions/day1.rs:70-90 | the i-th window sum is the sum of readings i..i+w-1 |
| Day1.WindowStep | src/solutions/day1.rs:82-84 | consecutive window sums differ by the reading entering minus the reading leaving |
| Day1.WindowIncreasesAreGapIncreases | src/solutions/day1.rs:70-90 | rises of the w-window sums are exactly the readings that exceed the reading w places earlier |
| Day1.GapIncreasesCountsPositions | src/solutions/day1.rs:70-90 | the gap count is the size of the set of positions i with s[i + gap] > s[i] |
| Day2.ParseCommand | src/solutions/day2.rs:13-18 | a line is a command exactly when it splits on a space into `forward`/`down`/`up` and an integer literal; the command has that keyword and that value |
| Day2.ParseKeywordLine | src/solutions/day2.rs:13-18 | `keyword value` parses to the command of that keyword with the parsed value, for each of the three keywords |
| Day2.PositionIsTotals | src/solutions/day2.rs:12-19 | part 1's position is (sum of `forward` amounts, `down` minus `up` amounts) |
| Day2.AimIsPlainDepth | src/solutions/day2.rs:27-38 | part 2's horizontal position is part 1's, and its aim is part 1's depth |
| Day2.AimedDepthIsWeighted | src/solutions/day2.rs:31-35 | part 2's depth is the sum, over `forward` commands, of the amount times the aim at that moment |
| Day2.RunFailsOnward | src/solutions/day2.rs:17 | once a line fails to parse, the run fails whatever follows |
| Day2.StopsAt | src/solutions/day2.rs:17 | a line that fails to parse makes the whole command list fail |
| Day2.RunsFollowCommands | src/solutions/day2.rs:12-19 | the line-by-line loops succeed exactly when every line parses, and then end at the positions of the parsed command list |
| Day2.Part1Ends | src/solutions/day2.rs:12-21 | where part 1's loop ends, x is the forward total and y the net dive |
| Day2.Part2Ends | src/solutions/day2.rs:27-40 | where part 2's loop ends, x is the forward total and y the aim-weighted depth |
| Day2.SolvePart1 | src/solutions/day2.rs:10-22 | an answer exactly when every line parses, and it is forward total times net dive |
| Day2.SolvePart2 | src/solutions/day2.rs:24-41 | an answer exactly when every line parses, and it is forward total times aim-weighted depth |
| Day3.FromBits | src/solutions/day3.rs:5-15 | the number read from L bits is below 2^L |
| Day3.FromBitsBit | src/solutions/day3.rs:5-15 | bit i (most significant first) of the number read from bits bs is bs[i]: reading bits back is the identity |
| Day3.Extractor | src/solutions/day3.rs:5-15 | the result's bit i is set exactly when the rule holds for count i, and it is below 2^L |
| Day3.ToI64 | src/solutions/day3.rs:17-29 | defined exactly for strings of `0`/`1` (anything else is the panic); bit i of the value is set exactly when character i is `1` |
| Day3.MaxLength | src/solutions/day3.rs:39 | no line is longer, and on non-empty input some line has that length |
| Day3.ColumnCounts | src/solutions/day3.rs:40-51 | defined exactly when every line is binary; each column count is the right-aligned total of +1 per `1` and -1 per `0` |
| Day3.ColumnCountIsOnesMinusZeros | src/solutions/day3.rs:42-51 | a column count is the number of lines with `1` there minus the number with `0` there |
| Day3.GammaEpsilonComplement | src/solutions/day3.rs:53-54 | gamma and epsilon never share a set bit, and with no tied column they add up to 2^L - 1 |
| Day3.SolvePart1 | src/solutions/day3.rs:36-57 | an answer exactly when the input is non-empty and binary; it is gamma times epsilon |
| Day3.SelectSplits | src/solutions/day3.rs:71-72 | `partition` puts every value in exactly one of the halves: together they are a permutation of the list |
| Day3.KeepIsHalf | src/solutions/day3.rs:73-77 | oxygen keeps the set half exactly when it is at least as large as the unset half; CO2 keeps one of the halves |
| Day3.KeepNonEmpty | src/solutions/day3.rs:70-94 | a round of the oxygen filter, or of the corrected CO2 filter, never empties a non-empty list |
| Day3.OxygenStuck | src/solutions/day3.rs:70-79 | with the mask at 0 and two or more values left, a round keeps the whole list and the mask stays 0: the loop never ends |
| Day3.OxygenRatingSingle | src/solutions/day3.rs:70-81 | when the oxygen loop ends it leaves exactly one value, taken from the list |
| Day3.Co2RatingSingle | src/solutions/day3.rs:86-96 | when the corrected CO2 loop ends it leaves exactly one value, taken from the list |
| Day3.OxygenTerminates | src/solutions/day3.rs:68-79 | for distinct values that agree above bit k + 1, the oxygen loop from mask 2^k ends |
| Day3.Co2Terminates | src/solutions/day3.rs:84-94 | for distinct values that agree above bit k + 1, the corrected CO2 loop from mask 2^k ends |
| Day3.FilterOxygen | src/solutions/day3.rs:68-79 | the `while` loop computes the oxygen rating (None when it would never end) |
| Day3.FilterCo2 | src/solutions/day3.rs:84-94 | the `while` loop computes the corrected CO2 rating |
| Day3.Co2AsWrittenRoundEmpties | src/solutions/day3.rs:87-92 | when every remaining value has the tested bit set, the CO2 round as written keeps nothing |
| Day3.Co2AsWrittenEmpties | src/solutions/day3.rs:84-96 | the CO2 loop as written turns [3, 2] with mask 2 into the empty list |
| Day3.ParseNumbers | src/solutions/day3.rs:65 | defined exactly when every line is binary; each number is its line read as bits |
| Day3.ParseLines | src/solutions/day3.rs:65 | the loop over lines computes the parsed numbers |
| Day3.RatingsDefined | src/solutions/day3.rs:59-99 | for distinct lines of positive width both ratings exist and are values of input lines |
| Day3.SolvePart2 | src/solutions/day3.rs:59-99 | with the CO2 filter corrected so that it never empties the list: an answer exactly when both ratings are defined; it is the oxygen rating times the CO2 rating |
| Day4.Mark | src/solutions/day4.rs:86 | marking sets exactly the one cell and keeps every other mark |
| Day4.BingoBoard.FromDataIter | src/solutions/day4.rs:36-60 | reads non-blank lines as rows until five are taken: an error for a non-integer word, no board when the lines run out first, otherwise a board of exactly those rows, nothing called, and the position after the fifth row |
| Day4.TakeRowsCountsLines | src/solutions/day4.rs:39-54 | a read that gives rows (five for a board) consumed exactly that many non-blank lines and stopped just after the last of them |
| Day4.TakeRowsRunsOut | src/solutions/day4.rs:39-54 | a read that runs out of lines found fewer non-blank lines than it needed |
| Day4.ParseBoards | src/solutions/day4.rs:148-156 | every board read holds five rows |
| Day4.BingoBoard.GetLocations | src/solutions/day4.rs:62-72 | the loop builds the location map of the board |
| Day4.LocationsAreLastOccurrences | src/solutions/day4.rs:62-72 | a value has a location exactly when it is on the board; that cell holds the value and no later cell in row-major order does (later inserts overwrite) |
| Day4.BingoBoard.CallValue | src/solutions/day4.rs:74-117 | a value not on the board changes nothing and is no bingo; otherwise its cell is marked and the result is true exactly when its row, its column, or (with diagonals) a diagonal through it is complete |
| Day4.BingoBoard.UnmarkedSum | src/solutions/day4.rs:119-130 | the sum of the values in uncalled cells |
| Day4.MarkLowersUnmarked | src/solutions/day4.rs:119-130 | marking a cell lowers the unmarked sum by its value when it was not already marked |
| Day4.UnmarkedAtStart | src/solutions/day4.rs:119-130 | with nothing called the unmarked sum is the board's total |
| Day4.PlayBoard | src/solutions/day4.rs:205-215 | calling values in order on a fresh board stops at the first bingo; the marks are those of exactly those calls |
| Day4.FirstWinIsFirst | src/solutions/day4.rs:205-214 | the winning prefix ends in a bingo and no shorter prefix does; none when no prefix wins |
| Day4.SelectIsExtreme | src/solutions/day4.rs:209-212 | the chosen board wins and no board wins strictly earlier (part 1) or later (part 2); every earlier winning board is strictly worse, so ties keep the earlier board; nothing is chosen exactly when no board wins |
| Day4.WinnerStep | src/solutions/day4.rs:204-216 | one board of the selection loop: a board that wins strictly better than the choice so far becomes the choice, with its own score; any other board leaves the choice and the score as they were |
| Day4.Winner | src/solutions/day4.rs:198-242 | the loop over boards returns the winning call times the unmarked sum of the chosen board, or 0 when none wins |
| Day4.SolvePart1 | src/solutions/day4.rs:198-219 | a parse failure is that error; otherwise the score of the board of the parsed game that wins first |
| Day4.SolvePart2 | src/solutions/day4.rs:221-242 | a parse failure is that error; otherwise the score of the board of the parsed game that wins last |
| Day5.RangeWalks | src/solutions/day5.rs:12-30 | the corrected range has \|end - start\| (+1 inclusive) elements stepping from start toward end, starts at start, ends at end when inclusive, and never reaches end when exclusive |
| Day5.RangeSteps | src/solutions/day5.rs:12-30 | consecutive elements of a range differ by one, in the direction of end |
| Day5.RangeAgreesInclusive | src/solutions/day5.rs:12-30 | `range` as written equals the corrected range when the end is included, the only way the solutions call it |
| Day5.RangeAsWrittenSkipsStart | src/solutions/day5.rs:12-30 | as written, range(3, 1, false) is [2, 1]; the corrected one is [3, 2] |
| Day5.RangeReversed | src/solutions/day5.rs:12-30 | swapping the ends of an inclusive range reverses it |
| Day5.VerticalPoints | src/solutions/day5.rs:38-42 | a vertical line yields \|dy\| + 1 points with its x, from start to end |
| Day5.HorizontalPoints | src/solutions/day5.rs:43-47 | a horizontal line yields \|dx\| + 1 points with its y, from start to end |
| Day5.PointLine | src/solutions/day5.rs:38-42 | a line from a point to itself yields just that point |
| Day5.SlantedIgnored | src/solutions/day5.rs:48-49 | without diagonals a slanted line yields no points |
| Day5.DiagonalPoints | src/solutions/day5.rs:50-56 | with diagonals a slanted line yields the zip of both walks: min(\|dx\|, \|dy\|) + 1 points from start |
| Day5.SwappedLineSamePoints | src/solutions/day5.rs:37-65 | for axis and 45-degree lines, swapping the endpoints (as `from_string` does) reverses the points and keeps the point set |
| Day5.FromStringSwaps | src/solutions/day5.rs:59-65 | `a -> b` parses to the line from b to a, because the two points are popped in reverse |
| Day5.ParsePoint | src/solutions/day5.rs:63 | defined exactly when the comma-separated text has two integer pieces |
| Day5.PieceValue | src/utils.rs:162-164 | a piece that parses contributes its value ahead of the values of the later pieces; others are dropped |
| Day5.PointAt | src/utils.rs:158-170 | text with a single comma, whose trimmed sides parse as x and y, is the point (x, y) |
| Day5.ParsePointAfterNoBreakSpace | src/utils.rs:162 | `"\u{00A0}0,9"` parses as (0, 9): trimming removes the no-break space |
| Day5.ParseLines | src/solutions/day5.rs:80-84 | defined exactly when every line parses, and then line k is the parse of row k |
| Day5.DupsSnoc | src/solutions/day5.rs:89-95 | one more point becomes a duplicate exactly when it was already seen |
| Day5.AddPoints | src/solutions/day5.rs:89-95 | after a line's points, `seen` is every point so far and `duped` every point covered at least twice |
| Day5.CountOverlaps | src/solutions/day5.rs:86-98 | the count is the number of points covered by at least two line points |
| Day5.SolvePart1 | src/solutions/day5.rs:79-99 | an answer exactly when every line parses: the overlaps of the axis lines |
| Day5.SolvePart2 | src/solutions/day5.rs:101-121 | an answer exactly when every line parses: the overlaps including diagonals |
| Base.TallyCounts | src/solutions/day6.rs:16-25 | a value has a counter exactly when it occurs, and the counter is its multiplicity |
| Base.TallyTotal | src/solutions/day6.rs:16-25 | the counters add up to the number of values read |
| Base.TallyValues | src/solutions/day7.rs:11-25 | the entry loop builds the tally of the values |
| Day6.LanternfishAutomata.FromInput | src/solutions/day6.rs:14-28 | defined exactly when every comma-separated piece is an integer; the counters are their tally |
| Day6.LanternfishAutomata.Step | src/solutions/day6.rs:30-47 | the counters become the one-day step of the old counters |
| Day6.SteppedEntries | src/solutions/day6.rs:30-47 | after a step timer k holds the old count at k + 1, timer 6 adds the fish from 0, timer 8 holds one new fish per fish from 0, and other keys are untouched |
| Day6.ShiftedThenSpawned | src/solutions/day6.rs:32-46 | moving timers 1..8 down one place and then adding the spawning fish at 6 and 8 is the step |
| Day6.LanternfishAutomata.Size | src/solutions/day6.rs:49-51 | for any list of timers the counters stand for, the size is the length of that list: the number of fish |
| Day6.SizeAfterStep | src/solutions/day6.rs:30-51 | a step adds exactly one fish per fish whose timer was 0 |
| Day6.PopulationNeverShrinks | src/solutions/day6.rs:30-51 | with non-negative counts the population after n steps is at least the starting one |
| Day6.StepMatchesFish | src/solutions/day6.rs:30-47 | the counter step, read through the counts, is the step of the list of individual fish |
| Day6.SimulationCountsFish | src/solutions/day6.rs:59-87 | the population after n days is the length of the list of fish after n days |
| Day6.SimulationAtLeastInput | src/solutions/day6.rs:59-87 | the population after any number of days is at least the number of fish read |
| Day6.Simulate | src/solutions/day6.rs:59-72 | an answer exactly when there is one line of integers; it is the population after the given days |
| Day6.SolvePart1 | src/solutions/day6.rs:59-72 | the population after 80 days |
| Day6.SolvePart2 | src/solutions/day6.rs:74-87 | the population after 256 days |
| Day7.Counterize | src/solutions/day7.rs:8-28 | defined exactly when there is one line of comma-separated integers; the result is their tally |
| Day7.AbsDeltaSumOfCrabs | src/solutions/day7.rs:30-35 | the map sum is the sum, over crabs, of the distance to the endpoint |
| Day7.AbsDeltaSumZero | src/solutions/day7.rs:30-35 | the fuel is non-negative, and zero exactly when every crab is at the endpoint |
| Day7.TriangleIsSeries | src/solutions/day7.rs:37-39 | n (n + 1) / 2 is 1 + 2 + … + n |
| Day7.AbsDeltaTriangleSumOfCrabs | src/solutions/day7.rs:41-46 | the map sum is the sum, over crabs, of the triangle number of the distance |
| Day7.MinCost | src/solutions/day7.rs:55-57 | the minimum over lo..=hi is attained there and no value there is smaller |
| Day7.SolvePart1 | src/solutions/day7.rs:53-58 | an answer exactly when the one line parses; it is the least linear fuel over min..=max |
| Day7.SolvePart2 | src/solutions/day7.rs:60-65 | an answer exactly when the one line parses; it is the least triangular fuel over min..=max |
| Day7.Part1IsOptimal | src/solutions/day7.rs:53-58 | searching only min..=max loses nothing: no integer endpoint costs less linear fuel |
| Day7.Part2IsOptimal | src/solutions/day7.rs:60-65 | searching only min..=max loses nothing: no integer endpoint costs less triangular fuel |
| Day8.ToSet | src/solutions/day8.rs:13-15 | the set holds exactly the characters of the string |
| Day8.FromInput | src/solutions/day8.rs:18-39 | defined exactly when the line has two ` \| ` pieces and ten patterns before the bar; inputs and outputs are the space-separated pieces |
| Day8.ShowsLength | src/solutions/day8.rs:72 | under a wiring of ASCII letters, a pattern showing a digit is as many bytes long as the digit has segments |
| Day8.AcutePatternIsSeven | src/solutions/day8.rs:72-76 | the pattern `aé`, three bytes long, is taken for 7 by the first loop |
| Day8.EasyComplete | src/solutions/day8.rs:70-99 | on a display showing 1, 4, 7 and 8, the first loop records exactly those digits, each under its own pattern |
| Day8.SixFits | src/solutions/day8.rs:101-119 | among the ten digits only 6 has six segments and contains 8 minus 7 |
| Day8.NineFits | src/solutions/day8.rs:126-144 | among the digits not yet recorded, only 9 has six segments and contains 4 minus 1 |
| Day8.ZeroFits | src/solutions/day8.rs:151-160 | the only six-segment digit left is 0 |
| Day8.FiveFits | src/solutions/day8.rs:167-178 | among the digits not yet recorded only 5 has five segments and contains 4 minus 1 |
| Day8.ThreeFits | src/solutions/day8.rs:185-196 | among the digits not yet recorded only 3 has five segments and contains 1 |
| Day8.TwoFits | src/solutions/day8.rs:203-212 | the only five-segment digit left is 2 |
| Day8.Infer | src/solutions/day8.rs:109-212 | an inference loop adds only its digit and keeps every other; the digit is present afterwards exactly when it was or some pattern fits the rule |
| Day8.InferLoop | src/solutions/day8.rs:109-119 | the loop over patterns records the first pattern of the rule's byte length (`len()`) that fits, under the digit |
| Day8.DeriveMappings | src/solutions/day8.rs:41-220 | the method computes the corrected deduction, dispatching on byte lengths as `segments.len()` does |
| Day8.DeriveIsCorrect | src/solutions/day8.rs:41-220 | for any wiring showing all ten digits, the deduction succeeds and maps each pattern, and each digit's wired segments, to that digit, and nothing else |
| Day8.AsWrittenIgnoresTwo | src/solutions/day8.rs:214-217 | the final check as written only retests 3: a run that never records 2 is accepted by it and rejected by the corrected check |
| Day8.MissingTwoAccepted | src/solutions/day8.rs:203-217 | on a display showing every digit except 2, the deduction as written succeeds and the corrected one fails |
| Day8.MissingTwoExample | src/solutions/day8.rs:203-217 | the unscrambled patterns 0,1,3,3,4,5,6,7,8,9 pass the check as written and fail the corrected one |
| Day8.EasyCountShown | src/solutions/day8.rs:241-242 | under a wiring of ASCII letters, counting outputs of byte length 2, 3, 4 or 7 counts exactly the outputs that show 1, 7, 4 or 8 |
| Day8.CountEasy | src/solutions/day8.rs:238-242 | the loop counts the outputs of byte length 2, 3, 4 or 7 |
| Day8.AcuteOutputIsEasy | src/solutions/day8.rs:241 | the output `é`, two bytes long, is counted as easy |
| Day8.SolvePart1 | src/solutions/day8.rs:228-246 | an answer exactly when every line parses: the number of outputs of byte length 2, 3, 4 or 7 over all lines |
| Day8.Decode | src/solutions/day8.rs:259-262 | decoding succeeds exactly when every output's segment set is in the mapping |
| Day8.DecodeOutputs | src/solutions/day8.rs:257-262 | the loop computes the decoded number of the outputs |
| Day8.DecodeShown | src/solutions/day8.rs:256-265 | on a correctly derived display, decoding the outputs gives the number they show |
| Day8.SumLineValues | src/solutions/day8.rs:255-265 | with the final check of `derive_mappings` corrected to test for 2: the loop over lines adds up each line's decoded number, and fails as soon as one line's deduction or decoding fails |
| Day8.SolvePart2 | src/solutions/day8.rs:248-268 | with the final check of `derive_mappings` corrected to test for 2: the sum over lines of their decoded outputs; no answer when a line fails to parse or decode |
| Day9.ParseRow | src/solutions/day9.rs:18-23 | defined exactly for a row of digits; entry j is the value of digit j |
| Day9.FromData | src/solutions/day9.rs:14-26 | defined exactly when every line is digits; row i is line i parsed |
| Day9.At | src/solutions/day9.rs:28-42 | a value exactly for a row of the grid and a column of row 0, and then the height there |
| Day9.LowIffBelowNeighbours | src/solutions/day9.rs:60-65 | the four `less_than` tests hold exactly when the height is strictly below every in-grid neighbour |
| Day9.SumRisks | src/solutions/day9.rs:74-88 | the total of height + 1 over the low points |
| Day9.SolvePart1 | src/solutions/day9.rs:72-89 | an answer exactly when the lines parse as a grid with no row shorter than row 0; it is the total of height + 1 over the low points of that grid |
| Day9.Basin | src/solutions/day9.rs:45 | the cells `dfs_count` can enter: in the grid and not height 9 |
| Day9.DfsCount | src/solutions/day9.rs:44-57 | seen grows to cover every open cell reachable from the start, the start included when open; the count is how many cells were added |
| Day9.DfsCountIsRegion | src/solutions/day9.rs:44-57 | the cells added are exactly the region reachable from the start through open cells not seen before, and the count is its size |
| Day9.PopMax | src/solutions/day9.rs:105 | `pop` takes a largest count and leaves the rest |
| Day9.Trim | src/solutions/day9.rs:102-109 | draining three pops from a heap of four drops exactly its smallest count |
| Day9.TopPush | src/solutions/day9.rs:100-109 | pushing one count and trimming at four keeps the three largest counts seen |
| Day9.Keep | src/solutions/day9.rs:100-109 | the heap stays the three largest counts so far |
| Day9.MsProductRemove | src/solutions/day9.rs:113-116 | the product of the heap is the same whichever count is taken out first |
| Day9.Multiply | src/solutions/day9.rs:113-116 | popping until empty multiplies all counts in the heap |
| Day9.BasinProduct | src/solutions/day9.rs:92-118 | every grid cell is visited once, in row-major order; each count is 0 when its cell is a 9 or lies in the basin of an earlier cell, and otherwise the size of its cell's whole basin; a basin with a non-zero count is disjoint from the basin of every earlier cell; the counts add up to the basin area; the heap holds the three largest; the answer is their product |
| Day9.ScanAdvance | src/solutions/day9.rs:97-108 | one cell of the scan keeps its state: the marked cells stay the whole basins of the visited cells, each count is its cell's basin count, the heap keeps the three largest counts, and every open cell up to this one is marked |
| Day9.ScanTally | src/solutions/day9.rs:97-108 | one call keeps the marked cells basin cells summed by the counts, the heap the three largest, and every open cell up to this one marked |
| Day9.RecordStep | src/solutions/day9.rs:97-99 | one `dfs_count` from a union of whole basins adds the visited cell's whole basin, or nothing when that cell is marked or a 9, and its count is that basin's size or 0 |
| Day9.ClosedRegion | src/solutions/day9.rs:44-57 | from a union of whole basins, an unmarked cell's unseen region is its whole basin, and a marked cell's basin is already marked |
| Day9.RegionClosed | src/solutions/day9.rs:45-54 | a basin contains every open neighbour of its cells |
| Day9.ClosedGrows | src/solutions/day9.rs:44-57 | what `dfs_count` adds to a union of whole basins keeps it a union of whole basins |
| Day9.ScanStateDone | src/solutions/day9.rs:97-111 | after the last row every cell was visited and the marked cells are all the basin cells |
| Day9.CountedOnce | src/solutions/day9.rs:97-99 | a cell with a non-zero count has a basin disjoint from the basin of every cell visited before it |
| Day9.AllCountedOnce | src/solutions/day9.rs:97-99 | over a whole scan, every basin with a non-zero count is disjoint from all earlier basins |
| Day9.SolvePart2 | src/solutions/day9.rs:91-119 | an answer exactly when the lines parse as a grid with no row shorter than row 0; for that grid every cell is visited once in row-major order, each count is 0 or the size of its cell's whole basin counted for the first time, the basins counted are pairwise disjoint, the counts add up to the basin area, and the answer is the product of the three largest |
| Day10.ValueOf | src/solutions/day10.rs:7-15 | positive exactly for a closing character, 0 otherwise |
| Day10.Part2Score | src/solutions/day10.rs:17-26 | the loop computes the base-5 score of the opening characters |
| Day10.ScorePositive | src/solutions/day10.rs:17-26 | a non-empty completion scores above 0 |
| Day10.ScoreInjective | src/solutions/day10.rs:17-26 | different completion strings get different scores |
| Day10.FirstUnmatched | src/solutions/day10.rs:28-47 | a character it reports is always a closing character |
| Day10.FirstIsEarliest | src/solutions/day10.rs:28-47 | the character returned is where the stack scan first breaks, and nothing after it changes the outcome |
| Day10.FirstUnmatchedOf | src/solutions/day10.rs:28-47 | the loop computes the first unmatched character |
| Day10.AllUnmatched | src/solutions/day10.rs:49-72 | the leftovers are non-empty openers; a corrupted line has none; a panic exactly when `first_unmatched` panics |
| Day10.AllUnmatchedOf | src/solutions/day10.rs:49-72 | the loop computes the leftover openers, innermost first |
| Day10.Completes | src/solutions/day10.rs:49-72 | appending the closers of the leftover openers leaves a balanced line |
| Day10.Part1Total | src/solutions/day10.rs:79-86 | defined exactly when no line panics; never negative |
| Day10.Part1Zero | src/solutions/day10.rs:79-86 | the total is 0 exactly when no line is corrupted |
| Day10.SolvePart1 | src/solutions/day10.rs:79-86 | the loop computes the total syntax error score |
| Day10.Completions | src/solutions/day10.rs:89-95 | defined exactly when no line panics; every completion score is positive |
| Day10.SortSeq | src/solutions/day10.rs:97 | the result is sorted and a permutation of the scores |
| Day10.SortedUnique | src/solutions/day10.rs:97 | two sorted permutations of the same scores are equal, so `sort_unstable` has only one possible result |
| Day10.MedianSplits | src/solutions/day10.rs:97-98 | no score before the middle is larger and no score after it is smaller |
| Day10.Part2Answer | src/solutions/day10.rs:88-99 | an answer is one of the completion scores; there is one whenever any line is incomplete |
| Day10.SolvePart2 | src/solutions/day10.rs:88-99 | the loop computes the middle completion score |
| Day11.Bump | src/solutions/day11.rs:9-16 | one cell rises by one and every other cell is unchanged |
| Day11.Grid.Increment | src/solutions/day11.rs:9-16 | a cell in the grid rises by one and the result says whether it reached exactly 10; outside the grid nothing changes |
| Day11.Low | src/solutions/day11.rs:29-33 | the cells still below 10, the ones that can yet flash |
| Day11.Crossed | src/solutions/day11.rs:24-33 | the flashes of a stretch of raises: exactly the cells that went from below 10 to 10 or more |
| Day11.Overflowed | src/solutions/day11.rs:24-26 | the collected cells are exactly those that rose and are now at 10 or more |
| Day11.Grid.IncrementAdjacent | src/solutions/day11.rs:18-39 | the grid after the call is the cascade from the 3x3 block: each cell rose by one if it is in the block and by one more per flash in its own block, the flashes lie inside every set closed under flashing, and the returned set is exactly the cells that rose to 10 or more |
| Day11.Grid.Raise | src/solutions/day11.rs:22-33 | one neighbour of the block: the grid after it is the cascade from that one cell (nothing changes when it is off the grid), and the result is exactly the cells that rose to 10 or more |
| Day11.RaiseThen | src/solutions/day11.rs:22-33 | raising a cell and, when it reached exactly 10, cascading from its block is the cascade from that cell |
| Day11.CascadeOutside | src/solutions/day11.rs:22 | an off-grid neighbour is a cascade that changes nothing and collects nothing |
| Day11.CascadeThen | src/solutions/day11.rs:20-36 | the cascade from a set of cells followed by the cascade from one more cell is the cascade from the larger set |
| Day11.ClosedAfter | src/solutions/day11.rs:20-36 | after part of the raises, a set closed under flashing for the whole set, less what already flashed, is still closed for the next cell |
| Day11.ClosedAfterFlash | src/solutions/day11.rs:29-33 | when a cell at 9 is raised and flashes, a closed set holding it, less that cell, is closed for the raise of its block |
| Day11.CrossedSplit | src/solutions/day11.rs:20-36 | the flashes of two stretches of raises are the disjoint union of the flashes of each |
| Day11.EvolvesTrans | src/solutions/day11.rs:18-39 | raises compose: the cells overflowed over two stretches are those of each |
| Day11.LowShrinks | src/solutions/day11.rs:29-33 | each new crossing to 10 shrinks the set of cells below 10, so the cascade ends |
| Day11.CascadedLeastClosed | src/solutions/day11.rs:18-39 | the flashes of a cascade are the least set closed under flashing |
| Day11.CascadedUnique | src/solutions/day11.rs:18-39 | a cascade has one outcome, so the grid it leaves does not depend on the order of the recursive calls |
| Day11.Grid.ScanAll | src/solutions/day11.rs:55-64 | the grid after the scan is the cascade from every cell, and the collected set is exactly the cells now at 10 or more |
| Day11.ScanStep | src/solutions/day11.rs:57-62 | one cell of the scan keeps the scan invariant: every cell scanned so far has been raised with its cascade, and what was collected is what overflowed |
| Day11.Grid.ResetAll | src/solutions/day11.rs:66-70 | every collected cell is back at 0 and every other cell unchanged |
| Day11.StepResult | src/solutions/day11.rs:53-73 | the scan followed by the reset is one step: the zeros are the least set closed under flashing, every other cell rose by one plus one per flash in its block, and the count is the number of flashes |
| Day11.Grid.Step | src/solutions/day11.rs:53-73 | the new grid and the count are the step of the old grid, as stated by `StepTo` |
| Day11.StepToUnique | src/solutions/day11.rs:53-73 | a step has one outcome: the grid after it and the count it returns are determined by the grid before |
| Day11.StepDigits | src/solutions/day11.rs:53-73 | a step of a grid of digits leaves a grid of digits |
| Day11.StepQuiet | src/solutions/day11.rs:53-73 | the step of [[1]] is [[2]] with no flash |
| Day11.StepOneFlash | src/solutions/day11.rs:53-73 | the step of [[9, 1]] is [[0, 3]] with one flash |
| Day11.StepChainFlash | src/solutions/day11.rs:53-73 | the step of [[9, 8]] is [[0, 0]] with two flashes, the second set off by the first |
| Day11.AllZeroesIffAllFlashed | src/solutions/day11.rs:41-45 | on a rectangular grid, all zero exactly when every octopus is among the zeros |
| Day11.ParsedDigits | src/solutions/day11.rs:82 | a parsed grid holds digits |
| Day11.StepsSnoc | src/solutions/day11.rs:84-86 | a run of steps extended by one more step is a run of steps |
| Day11.StepsAgree | src/solutions/day11.rs:84-86 | two runs of steps of the same length from the same grid agree at every point |
| Day11.StepsUnique | src/solutions/day11.rs:84-86 | the grids and counts of a run of steps are determined by the first grid |
| Day11.SolvePart1 | src/solutions/day11.rs:81-89 | an answer exactly when the grid loads; the answer is the sum of the counts of the 100 steps from the parsed grid, a run that is unique |
| Day11.ChainSnoc | src/solutions/day11.rs:93-98 | a chain of steps extended by one more step is a chain of steps |
| Day11.ChainAgree | src/solutions/day11.rs:93-98 | two chains of steps from the same grid agree at every point |
| Day11.NoneZeroSnoc | src/solutions/day11.rs:93-98 | appending a grid keeps the earlier grids not all zero |
| Day11.SolvePart2 | src/solutions/day11.rs:91-101 | a returned step number is the first state of the chain of steps from the parsed grid that is all zero; without an answer on a loadable grid, the states are the chain of `fuel` steps from the parsed grid and none before the last is all zero; a grid with a short row answers exactly when it is all zero |
| Text.FindFrom | src/solutions/day5.rs:60 | the index is the leftmost occurrence of the separator at or after the start, and none means there is no occurrence |
| Text.Split | src/solutions/day2.rs:13 | `split` always yields at least one piece |
| Text.JoinSplit | src/solutions/day8.rs:19 | joining the pieces of a split with the separator gives back the text |
| Text.SplitPiecesAvoidSeparator | src/solutions/day8.rs:19 | no piece of a split contains the separator |
| Text.SplitInTwo | src/solutions/day5.rs:60-61 | text containing the separator exactly once splits into what comes before and what comes after it |
| Text.Words | src/solutions/day4.rs:45-50 | the words are non-empty and contain no space |
| Text.ParseInt | src/solutions/day4.rs:48 | defined exactly for an optional sign followed by digits; the sign decides the sign of the value |
| Text.ParseAll | src/solutions/day6.rs:16 | defined exactly when every piece parses; element k is piece k parsed |
| Text.Trim | src/utils.rs:162 | the result is a slice of the text with only Unicode whitespace outside it, and it starts and ends with a non-whitespace character (or is empty) |
| Text.ParseDigit | src/solutions/day4.rs:48 | a single digit parses as its value |
| Text.Utf8Len | src/solutions/day8.rs:72 | `str::len`: between one and four bytes per character, and exactly one per character when all are ASCII |
| Text.Utf8LenAcute | src/solutions/day8.rs:241 | `"é".len()` is 2 |
| Text.TrimmedDigit | src/utils.rs:162-163 | a digit after one whitespace character (any Unicode White_Space character) parses once trimmed |

## Left out

- Reading the input files, printing, timing and the `Solution` trait plumbing
  in `src/utils` are not part of this model. Each solution takes the lines
  of its input as a parameter (Day 11's part 2 also takes a step bound).
- 64-bit overflow of `i64` arithmetic is not modelled: integers are
  unbounded, and `str::parse::<i64>` accepts any length of digits.
- Panics are error results (`None`/`Err`); their messages are dropped.
- `HashMap`/`HashSet` iteration order: sets and maps are Dafny `set`/`map`.
  Day 11's reset loop picks cells in any order, which covers every order a
  `HashSet` can produce.
- `Display` implementations (Day 4, 5) are formatting only and not modelled.
- Day4.SolvePart1: requires every board of the parsed game to be 5x5
  (`Playable`). With rows of another width the source indexes `called[5][5]` out of
  range, or `unmarked_sum` reads past a row, and panics on some call orders
  only. The model requires every board to be 5x5 rather than modelling
  these partial panics.
- Day4.SolvePart2: the same 5x5 requirement as part 1.
- Day4.Winner: the same 5x5 requirement (`IsBoard`), for the same reason;
  both solutions reach the boards only through it.
- Day 4: `call_value`'s diagonal checks are modelled in
  `BingoBoard.CallValue`, but `PlayBoard` only records row and column wins,
  because both solutions pass `allow_diagonals = false`.
- Day 3: the source's endless `while` loop (mask 0 with several equal values
  left) is `None` in `OxygenRating`/`Co2Rating`. `OxygenStuck` shows why the
  loop cannot end there.
- Day 1: all lines are parsed before the count starts, where the source
  parses one line per iteration. A line that does not parse is `None`
  either way, as it panics in the source.
- Day3.SolvePart2: uses the corrected CO2 filter `Co2Keep` (see Findings).
  Where the source's filter empties the list, the source fails its
  `assert_eq!` and panics, while the model gives the answer of the corrected
  filter. `Co2AsWrittenEmpties` shows such an input.
- Day 3: `to_i64`'s shifts are not truncated to 64 bits.
- Day 5: `GetPoints` models the source for all lines. The point-set lemmas
  about swapped endpoints hold only for axis and 45-degree lines
  (`IsStraight`), the only lines the puzzle input has. For other slanted
  lines the zip of the two walks depends on the endpoint order.
- Day8.SolvePart2: uses the corrected `Derive`, whose final check tests that
  2 was recorded (see Findings). Where 2 was never recorded, the source's
  check on 3 passes and it goes on with that table, while the model has no
  answer. `MissingTwoExample` shows such a line. The same holds for
  `Day8.SumLineValues`.
- Day8.SumLineValues: the corrected final check, as for `Day8.SolvePart2`.
- Day 8: the correctness lemmas (`DeriveIsCorrect`, `EasyCountShown`,
  `DecodeShown`) take wirings whose letters are ASCII, as the puzzle's
  `a` to `g` are. With a non-ASCII letter the byte lengths the source tests
  are not the segment counts, and the deduction can go wrong in the source
  and the model alike (`AcutePatternIsSeven`).
- Day 3: `s.len()` counts bytes and the model counts characters. Only
  lines of `0` and `1` give an answer, and on those the two agree; any other
  line panics in the source and is `None` in the model.
- Day 8: the four `assert!`s after the first loop (lines 93-99) are one
  check in the model, that 1, 4, 7 and 8 were all recorded. The two maps
  `res`/`res_rev` are kept as `Tables`.
- Day9.SolvePart1: a grid with a row shorter than row 0 is `None`, where
  the source may panic. `at` checks columns against row 0 only, so a lookup
  into a shorter row past its end indexes out of range. The `&&` chain stops
  at the first failed test, so whether that lookup happens depends on the
  heights: `["111", "59"]` gives `Some(0)`, while `["191", "59"]` panics.
- Day9.SolvePart2: a grid with a row shorter than row 0 is `None`, as in
  part 1; the source may panic there when the flood fill reaches past the
  end of the shorter row.
- Day 9: `BinaryHeap` is a multiset. `pop` returns a maximum, and its
  internal layout is not modelled.
- Day 9: the four recursive calls of `dfs_count` are written as a loop over
  the four neighbours, in the same order.
- Day 10: `sort_unstable` is `SortSeq`, an insertion sort. `SortedUnique`
  shows that any sort gives the same sequence.
- Day 10: `scores[scores.len() / 2]` panics on an empty list; that panic is
  an `Err`.
- Day11.SolvePart2: the source's `for step in 0..` has no bound. The model
  takes a `fuel` bound on the number of steps and returns `None` when the
  fuel runs out. It also requires the input to parse.
- Day 11: `Grid::at_mut` is not part of the Rust files of this model. It is
  taken to be the mutable counterpart of day 9's `at`: it reaches a row of
  the grid and a column of row 0.
- Day 11: a grid with a row shorter than row 0 is `None` (`Day9.Loads`),
  where the first step of the source indexes past the end of that row
  through `at_mut` and panics. Part 2 first tests for all zeroes, so such a grid
  that is all zero answers 0, as in the source.

## Findings

| source | as written | input that shows it | evidently intended | confidence | as-written member | corrected member |
|---|---|---|---|---|---|---|
| src/solutions/day3.rs:88-92 | the CO2 filter keeps the `0` group whenever the `1` group is at least as large, even when the `0` group is empty | lines `11` and `10`: mask 2 puts both in the `1` group, so the list becomes empty and `assert_eq!(co2.len(), 1)` fails | keep the other group when one group is empty, so the list never empties | not executed | Day3.Co2AsWrittenEmpties | Day3.Co2RatingSingle |
| src/solutions/day5.rs:19-29 | with `include_end` false and start > end, `range` gives (end..start) reversed, which drops start and includes end | range(3, 1, false) gives [2, 1] | start included and end excluded, as when start < end: [3, 2] | not executed (the solutions only call it with `true`) | Day5.RangeAsWrittenSkipsStart | Day5.RangeWalks |
| src/solutions/day8.rs:214-217 | the last check tests that 3 was recorded instead of 2 | the unscrambled patterns 0,1,3,3,4,5,6,7,8,9: every stage succeeds, 2 is never recorded, and the check passes | test that 2 was recorded | not executed | Day8.MissingTwoExample | Day8.DeriveIsCorrect |
