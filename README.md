# Advent of Code 2021 in Dafny

A Dafny model of the Rust solutions to the 25 puzzles of Advent of Code
2021 (`src/day1.rs` … `src/day25.rs`). Each day file is one Dafny module
(`Day1` … `Day25`, in `day01.dfy` … `day25.dfy`); `common.dfy` holds the
module `Common` with the shared `Option` type, integer helpers, the text
helpers that stand in for `str::split`, `split_once`, `trim` and `parse`,
and a reference sort.

The puzzle input is modelled as the text already split into lines
(`seq<string>`), or as the parsed values where parsing is incidental.
Where the Rust code loops and mutates, the model is a method with loop
invariants, proved against a specification function; where it folds over
iterators, the model is a function, and lemmas relate it to an
independent reference definition. A `HashMap` used as a counter is a
`multiset`, a `HashSet` is a `set`, and iteration over either is an
arbitrary choice (`:|`), so every property is stated independently of
iteration order. Integers are unbounded; where the Rust types could
overflow, the contracts carry a precondition or say so below.

## Model

| member | source | states |
|---|---|---|
| Day1.ParseInput | src/day1.rs:1-3 | every line parses as an unsigned number, one value per line in order; otherwise `None`, naming a line that does not parse |
| Day1.CountGapsBound | src/day1.rs:13-27 | the number of increases is at most the number of adjacent pairs, and 0 when there are none |
| Day1.WindowsAreGapThree | src/day1.rs:36-58 | comparing overlapping three-measurement windows is comparing measurements three apart |
| Day1.Part1 | src/day1.rs:13-27 | `None` exactly on an empty input (the `unwrap` panic); otherwise the number of measurements larger than the one before |
| Day1.Part2 | src/day1.rs:36-58 | `None` exactly on fewer than three measurements; otherwise the number of window increases, which is the number of increases three apart |
| Day1.Example | src/day1.rs:5-12 | the puzzle example gives 7 increases and 5 window increases |
| Day2.ParseDirection | src/day2.rs:12-19 | "up", "down" and "forward" parse to their directions, and every other word fails |
| Day2.ParseCommand | src/day2.rs:22-27 | a parsed line is a direction word without a space, one space and an integer distance, and the command holds that direction and that distance |
| Day2.ParseCommandParses | src/day2.rs:22-27 | conversely, every direction word followed by a space and an integer parses, to that direction and that distance |
| Day2.ParseCommandRoundTrip | src/day2.rs:22-27 | every command written as `<direction> <distance>` parses back to itself |
| Day2.DirectionWord | src/day2.rs:12-19 | the word written for a direction parses back to that direction |
| Day2.TravelTotals | src/day2.rs:37-47 | the part 1 fold ends at depth = total down minus total up and distance = total forward, whatever the order |
| Day2.AimIsPlainDepth | src/day2.rs:56-67 | the part 2 aim follows the part 1 depth, and both parts travel the same distance |
| Day2.AimedDepthStep | src/day2.rs:56-67 | a forward move adds the current aim times its distance to the depth; up and down leave the depth alone |
| Day2.Part1 | src/day2.rs:37-47 | the product of (total down − total up) and total forward |
| Day2.Part2 | src/day2.rs:56-67 | the product of the aimed depth and total forward |
| Day2.Example | src/day2.rs:29-55 | the puzzle example gives 15 × 10 and 900 |
| Day3.Complement | src/day3.rs:48-48 | the complement has one bit per bit of its argument |
| Day3.ComplementValue | src/day3.rs:48-48 | `(!gamma) & mask(n)`: gamma and its complement share no set bit and add up to the mask of n bits |
| Day3.MaskExample | src/day3.rs:7-17 | `mask(5)` is 0b11111 |
| Day3.MaskOnes | src/day3.rs:15-17 | `mask(bits)` is the number written with `bits` one-bits |
| Day3.GammaBits | src/day3.rs:27-54 | bit k of gamma is set exactly when column k holds more ones than zeros |
| Day3.CountColumns | src/day3.rs:33-42 | after the counting loop, counter k is the number of ones minus the number of zeros in column k |
| Day3.Gamma | src/day3.rs:44-46 | the loop that shifts in one bit per counter builds the number whose bits say which counters are positive |
| Day3.Part1 | src/day3.rs:27-54 | the result is gamma (majority bits) times epsilon (minority bits, the complement of gamma) |
| Day3.FilterBit | src/day3.rs:69-89 | for the most common value the kept bit is '1' exactly when ones are at least zeros; for the least common, exactly when ones are fewer |
| Day3.Retain | src/day3.rs:91-91 | `retain` keeps exactly the entries whose column holds the bit, and no more than there were |
| Day3.Rating | src/day3.rs:66-95 | the entry the filter rounds end with is one of the original entries |
| Day3.LineBits | src/day3.rs:97-102 | one bit per character of the line |
| Day3.LineValue | src/day3.rs:97-102 | the loop over the reversed bytes computes the binary value of the line |
| Day3.ReduceList | src/day3.rs:66-104 | the method's result is the value of the entry the filter rounds end with, `None` where the source panics |
| Day3.Part2 | src/day3.rs:63-112 | defined exactly when both ratings are, and then the oxygen rating times the CO2 rating |
| Day4.Position | src/day4.rs:46-50 | `position` finds the first index holding the number, and `None` exactly when the number is never drawn |
| Day4.PositionMarked | src/day4.rs:46-50 | a number is marked after draw k exactly when its first position is at most k |
| Day4.Column | src/day4.rs:45-51 | column x holds `board[y][x]` for the five rows y |
| Day4.LineRound | src/day4.rs:40-59 | the round at which a line completes, the largest position of its numbers, is a draw index |
| Day4.LineRoundMarked | src/day4.rs:40-59 | a line is completely marked after draw k exactly when its completion round is at most k |
| Day4.RoundUpTo | src/day4.rs:40-59 | the best completion round over the first rows and columns is a draw index |
| Day4.WinRound | src/day4.rs:37-70 | the board's winning round is a draw index |
| Day4.RowDrawn | src/day4.rs:40-59 | every number of row x and of column x is drawn, so the `unwrap`s of `position` succeed |
| Day4.LineBingo | src/day4.rs:40-59 | the smaller of the row-x and column-x rounds is at most j exactly when row x or column x is complete after draw j |
| Day4.RoundUpToBingo | src/day4.rs:40-59 | the minimum over the first k lines is at most j exactly when one of the first k rows or columns is complete after draw j |
| Day4.WinRoundIsFirstBingo | src/day4.rs:37-70 | after the winning round the board has a bingo, and after no earlier draw |
| Day4.OpenPlusMarked | src/day4.rs:63-67 | every number of the board is either open or marked: the open sum plus the marked sum is the board's sum |
| Day4.RowOpenPlusMarked | src/day4.rs:63-67 | the same for one row |
| Day4.AllMarkedNothingOpen | src/day4.rs:63-67 | when every row is marked the open sum is 0 |
| Day4.RowAllMarked | src/day4.rs:63-67 | a fully marked row has no open number |
| Day4.LineRounds | src/day4.rs:41-59 | the inner loop computes the completion rounds of row x and of column x |
| Day4.ProcessBoard | src/day4.rs:37-70 | `process_board` returns the first round with a bingo and the sum of the numbers still open after it |
| Day4.ChoiceStep | src/day4.rs:82-90 | a later board replaces the kept one exactly when its round is strictly better, so ties keep the earlier board |
| Day4.Rounds | src/day4.rs:77-94 | the winning round of each board, in input order |
| Day4.Both | src/day4.rs:77-94 | `both` keeps the first board with the best (earliest or latest) winning round and scores its winning number times its open sum |
| Day4.ParseBoardLine | src/day4.rs:11-19 | a board line parses exactly when it has at least five non-empty space-separated words and the first five are numbers; the row is the values of those five words |
| Day4.BoardLineRoundTrip | src/day4.rs:11-19 | five numbers written with spaces between them parse back to the same row |
| Day4.ParseBoard | src/day4.rs:9-21 | a six-line block parses exactly when each of its five lines after the separator does; row k is the parse of line k + 1, so the board is 5×5 |
| Day4.ParseBoards | src/day4.rs:9-21 | parsed boards take six lines each, a separator and five rows |
| Day4.ParseBoardsBlocks | src/day4.rs:9-21 | the boards parse exactly when the lines fall into whole six-line blocks that each parse; board i is the board of block i and is 5×5 |
| Day4.ParseInput | src/day4.rs:24-35 | the input parses exactly when it is non-empty, every comma-separated item of the first line is a number and the remaining lines parse as boards; the drawn numbers are those items' values in order and the boards are the remaining lines' boards |
| Day5.XDiff | src/day5.rs:11-13 | the horizontal extent is the distance between the start and end x |
| Day5.YDiff | src/day5.rs:14-16 | the vertical extent is the distance between the start and end y |
| Day5.Length | src/day5.rs:17-19 | the length is the larger of the two extents |
| Day5.Offset | src/day5.rs:22-23 | `idx * diff / length` stays within the extent, is 0 at the start, the full extent at the end, and `idx` itself on a 45-degree or axis line |
| Day5.Point | src/day5.rs:21-36 | every point of a line lies in the box spanned by its ends |
| Day5.PointOnLine | src/day5.rs:21-36 | on a horizontal, vertical or 45-degree line point `idx` is `idx` unit steps from the start, and the last point is the end |
| Day5.Points | src/day5.rs:58-61 | `(0..=length).map(point)` gives length + 1 points, point i at i |
| Day5.RecordTracks | src/day5.rs:62-66 | after one more point the map still records, for each point visited, whether it was visited at least twice |
| Day5.RecordLine | src/day5.rs:58-66 | folding one line's points keeps that record for the visits extended by the line's points |
| Day5.TrueEntries | src/day5.rs:67-69 | the keys with value `true` are exactly the points visited at least twice |
| Day5.Both | src/day5.rs:55-71 | the answer is the number of points covered by at least two selected lines |
| Day5.VisitsStep | src/day5.rs:56-61 | the visits of one more line are the visits so far followed by its points, when it is selected |
| Day5.ParsePair | src/day5.rs:44-50 | a pair parses exactly when its first two comma-separated pieces are numbers, and holds their values |
| Day5.ParseLine | src/day5.rs:39-53 | a parsed line is a pair, ` -> `, a second pair and possibly more; the line runs from the first pair's point to the second pair's |
| Day5.ParseLineParses | src/day5.rs:39-53 | conversely, every two space-free pairs that parse, joined by ` -> `, give the line between their points |
| Day5.ParseLineRoundTrip | src/day5.rs:39-53 | every line written as `x1,y1 -> x2,y2` parses back to itself |
| Day6.ParseInput | src/day6.rs:3-7 | the input parses exactly when every comma-separated field of every line is a number; the timers are those fields' values, in order |
| Day6.ParseInputRoundTrip | src/day6.rs:3-7 | timers written on one line with commas between them parse back to themselves |
| Day6.Buckets | src/day6.rs:10-16 | the queue has nine counters |
| Day6.Step | src/day6.rs:18-24 | a day keeps nine counters |
| Day6.Evolve | src/day6.rs:18-24 | any number of days keeps nine counters |
| Day6.StepTotal | src/day6.rs:18-24 | a day adds exactly today's count (the fish that spawn) to the population |
| Day6.FishDayCount | src/day6.rs:18-24 | after a day of the per-fish simulation, the fish with timer k are counted from the fish with timer k + 1, plus the spawners at 6 and 8 |
| Day6.FishDayValid | src/day6.rs:18-24 | a day keeps every timer below 9 |
| Day6.StepIsFishDay | src/day6.rs:18-24 | rotating the queue is the per-fish simulation counted by timer |
| Day6.EvolveIsFishAfter | src/day6.rs:18-24 | after any number of days the queue counts the fish of the per-fish simulation by timer |
| Day6.TotalCountsFish | src/day6.rs:10-16 | the nine counters together hold every fish |
| Day6.Both | src/day6.rs:9-26 | the counter is the total of the evolved queue, which is the number of fish after the given days |
| Day6.CountSnoc | src/day6.rs:13-16 | adding one fish increases the count of its timer by one and no other |
| Day7.ParseInput | src/day7.rs:1-3 | the input parses exactly when every comma-separated field is a signed number; the positions are those fields' values, in order |
| Day7.ParseInputRoundTrip | src/day7.rs:1-3 | positions written with commas between them parse back to themselves |
| Day7.LinearCostSnoc | src/day7.rs:18-18 | one more crab adds its distance to the destination |
| Day7.LinearCostPermutation | src/day7.rs:14-18 | the linear cost does not depend on the order of the crabs, so sorting keeps it |
| Day7.LinearCostSplit | src/day7.rs:18-18 | the cost of a crab in the middle is its distance plus the cost of the others |
| Day7.MedianIsOptimal | src/day7.rs:15-18 | in sorted order the median `s[len / 2]` costs no more than any other destination |
| Day7.Part1 | src/day7.rs:13-19 | the result is no more than the linear cost to any destination, and is the cost to one of the crabs' positions |
| Day7.CostIsTriangle | src/day7.rs:35-37 | `dist * (dist + 1) / 2` is the sum of the step costs 1 + 2 + … + dist |
| Day7.TriangleMonotone | src/day7.rs:35-37 | a longer distance never costs less |
| Day7.MinFuel | src/day7.rs:41-44 | the minimum over `min..=max` is no more than any cost in that range, and is attained there |
| Day7.FuelBelow | src/day7.rs:41-44 | a meeting point below every crab costs no less than one closer to them, so nothing below `min` beats `min` |
| Day7.FuelAbove | src/day7.rs:41-44 | a meeting point above every crab costs no less than one closer to them, so nothing above `max` beats `max` |
| Day7.SortedBounds | src/day7.rs:30-33 | after sorting, the first position is the least and the last the greatest |
| Day7.Part2 | src/day7.rs:28-45 | the result is no more than the triangular cost to any destination, including those outside `min..=max`, and is attained |
| Day8.Mask | src/day8.rs:71-71 | `1 << idx` as a segment pattern with only bit `idx` set (with Day8.MaskBit) |
| Day8.OrBit | src/day8.rs:71-71 | `result \|= mask` sets a bit exactly when it was set in either operand |
| Day8.CountOnes | src/day8.rs:76-76 | a `u8`'s popcount is at most 8 and (Day8.CountOnesBelow) counts its set bits |
| Day8.LettersIn | src/day8.rs:69-73 | after the letters `a`… up to `n`, bit `idx` is set exactly when letter `idx` is among them and occurs in the input |
| Day8.StrToSegment | src/day8.rs:66-81 | the loop builds the pattern of the letters `a`–`g` that occur, and the length check fails exactly where `Segment` says |
| Day8.CountLetters | src/day8.rs:74-79 | the popcount of the pattern is the number of distinct letters of `a`–`g` in the input |
| Day8.SegmentAccepts | src/day8.rs:74-79 | the length check passes exactly when the input has no repeated character and only letters `a`–`g` |
| Day8.Find | src/day8.rs:12-16 | `find` gives the first index whose element satisfies the predicate, or none when no element does |
| Day8.WithCount | src/day8.rs:29-34 | the filter keeps exactly the patterns with the given popcount |
| Day8.Uniques | src/day8.rs:11-26 | one, four and seven are seen patterns with 2, 4 and 3 segments |
| Day8.Sixes | src/day8.rs:28-41 | zero, six and nine are seen 6-segment patterns; six with one lights all segments, nine covers four, zero is neither |
| Day8.Fives | src/day8.rs:43-56 | two, three and five are seen 5-segment patterns; three covers one, five lies within six, two is neither |
| Day8.Lookup | src/day8.rs:11-58 | the table is built from seen patterns and meets every rule `decode` applies to identify the digits |
| Day8.Digit | src/day8.rs:61-61 | `position` gives the first digit whose table entry is the pattern, and none exactly when no entry matches |
| Day8.DigitFrom | src/day8.rs:61-61 | the search from digit `d` gives the first match at or after `d`, or none when there is none |
| Day8.DecimalBound | src/day8.rs:62-62 | folding decimal digits with `state * 10 + next` stays below 10 to the number of digits |
| Day8.Digits | src/day8.rs:59-61 | each output pattern maps to its digit, and the mapping fails exactly when some pattern is not in the table |
| Day8.DigitsSnoc | src/day8.rs:59-61 | one more output pattern appends its digit |
| Day8.Decode | src/day8.rs:10-63 | a decoded four-digit display is below 10000 |
| Day8.EasyDigits | src/day8.rs:123-123 | under a table meeting the rules, a pattern has 2, 3, 4 or 7 segments exactly when it is the digit 1, 4, 7 or 8 |
| Day8.EasyCount | src/day8.rs:120-124 | the easy patterns of an output are at most its length |
| Day8.EasyCountDigits | src/day8.rs:116-129 | counting patterns with 2, 3, 4 or 7 segments counts exactly the decoded digits 1, 4, 7 and 8 |
| Day8.Part1Bound | src/day8.rs:116-129 | part 1 counts at most four digits per display |
| Day8.Part2 | src/day8.rs:143-145 | the sum of decoded displays is at most 9999 per display, and none where a display does not decode |
| Day8.SegmentsOf | src/day8.rs:86-95 | every word is converted, and the conversion fails exactly when some word fails the length check |
| Day8.TrimAll | src/day8.rs:88-93 | each word is trimmed, in order |
| Day8.ParseLine | src/day8.rs:84-98 | a parsed line has exactly four output patterns |
| Day8.ParseLineSound | src/day8.rs:84-98 | a parsed line is the text before its first `|`, every word of it read as a pattern, and the first four non-empty words after it |
| Day8.ParseLineParses | src/day8.rs:84-98 | conversely, text without `|` whose words are all patterns, a `|`, and text with at least four non-empty pattern words always parse, to those patterns and the first four outputs |
| Day8.ParseInput | src/day8.rs:83-100 | the input parses exactly when every line does; display i is line i's parse and has four output patterns |
| Day8.ReadsItself | src/day8.rs:61-61 | in a table of ten different patterns each digit's pattern reads back as that digit |
| Day8.CanonicalWiring | src/day8.rs:10-63 | the correctly wired seven-segment table meets every rule `decode` applies and reads each digit as itself |
| Day8.ExampleLine | src/day8.rs:131-141 | the one-line example's table meets the rules, its output reads 5353, and part 1 counts none of its digits |
| Day9.ParseInput | src/day9.rs:5-10 | one row of digit heights per line, each row the digits of its line, and `None` exactly when some line holds a character whose byte is below `'0'` |
| Day9.Neighbours | src/day9.rs:12-36 | at most four cells, each an in-bounds orthogonal neighbour with its height, and every in-bounds orthogonal neighbour is among them |
| Day9.RowsPositions | src/day9.rs:38-45 | the cells of the first `n` rows, each with its height, all of them, in row-major order |
| Day9.Positions | src/day9.rs:38-45 | exactly the in-bounds cells with their heights, each once, in row-major order |
| Day9.KeepLow | src/day9.rs:48-48 | the filter keeps exactly the cells all of whose neighbours are strictly higher |
| Day9.Low | src/day9.rs:47-49 | exactly the grid cells all of whose neighbours are strictly higher |
| Day9.LowExactly | src/day9.rs:47-49 | a cell is yielded exactly when every in-bounds orthogonal neighbour of it is strictly higher, stated on the grid itself |
| Day9.Risks | src/day9.rs:64-64 | one risk level, height + 1, per low point |
| Day9.Part1 | src/day9.rs:62-65 | the answer is the sum, over every cell of the grid, of height + 1 where the cell is lower than all its in-bounds orthogonal neighbours and nothing elsewhere |
| Day9.AllHigherIsLow | src/day9.rs:48-48 | `low`'s test on a cell's `neighbours` holds exactly when every in-bounds orthogonal neighbour is strictly higher |
| Day9.KeptRisk | src/day9.rs:47-49 | summing height + 1 over the cells `low` keeps is summing each cell's risk over all the cells scanned |
| Day9.RowsRisk | src/day9.rs:38-45 | the cells of the first rows carry exactly those rows' risk |
| Day9.RowStep | src/day9.rs:38-45 | adding a row's cells adds that row's risk |
| Day9.RowRiskPrefix | src/day9.rs:41-43 | a prefix of a row's cells carries that prefix's risk |
| Day9.RiskOverAppend | src/day9.rs:38-45 | the risk of two runs of cells is the sum of their risks |
| Day9.Deeper | src/day9.rs:56-56 | the queued neighbours are exactly those strictly higher than the current cell and not of height 9 |
| Day9.KeepDeeper | src/day9.rs:56-56 | the filter keeps exactly the cells higher than `d` and not 9 |
| Day9.BasinSize | src/day9.rs:51-60 | the processed positions list, without repetition, a set that starts at the low point, is reached by steps to higher non-9 neighbours and is closed under them; the result is its size |
| Day9.QueuedPop | src/day9.rs:54-54 | `pop_front` loses only the head's position from the queue |
| Day9.SearchStep | src/day9.rs:55-57 | processing a new head keeps every invariant of the search |
| Day9.LinkedStep | src/day9.rs:55-55 | a position reached by a step from a processed one keeps the listing linked |
| Day9.ReachedStep | src/day9.rs:56-56 | every queued cell stays one step from a processed position |
| Day9.ClosedStep | src/day9.rs:56-56 | every step out of a processed position ends processed or queued |
| Day9.DeeperStep | src/day9.rs:56-56 | a step out of a processed position is queued by the `extend` |
| Day9.BasinUnique | src/day9.rs:51-60 | the basin is determined by its start: any two such listings hold the same positions and have the same length |
| Day9.BasinWithin | src/day9.rs:51-60 | one basin listing lies within any other |
| Day9.InBasinAt | src/day9.rs:51-60 | each position of one listing is in the other, by induction on the linking steps |
| Day9.LargestThree | src/day9.rs:73-75 | three factors, or all sizes when there are fewer |
| Day9.LargestThreeAreLargest | src/day9.rs:73-75 | the factors are sizes from the list, and no size left out is larger than any factor |
| Day9.PrefixOfDescending | src/day9.rs:75-75 | `take(n)` of a descending list holds its largest elements |
| Day9.ReverseDescending | src/day9.rs:73-74 | reversing an ascending sort gives descending order |
| Day9.BasinSizes | src/day9.rs:70-72 | the size of the basin of every low point, in order |
| Day9.Part2 | src/day9.rs:67-76 | the basin size of every low point, and the product of the three largest |
| Day9.SizesSnoc | src/day9.rs:70-72 | one more basin search extends the list of sizes |
| Day9.ExampleLowPoint | src/day9.rs:78-82 | the four low points of the puzzle example are kept by `low` |
| Day10.Score1 | src/day10.rs:19-26 | an unexpected closer scores 3, 57, 1197 or 25137 |
| Day10.Score2 | src/day10.rs:27-34 | a missing closer scores a base-5 digit from 1 to 4 |
| Day10.Score2Injective | src/day10.rs:27-34 | two delimiters have the same completion digit exactly when they are the same delimiter |
| Day10.SyntaxScore | src/day10.rs:54-67 | a line scores 3, 57, 1197 or 25137 when corrupted and 0 exactly when it is only incomplete |
| Day10.ParseChar | src/day10.rs:39-49 | a kept character is the bracket it is read as, and only characters other than the eight brackets are dropped |
| Day10.ParseSideChar | src/day10.rs:39-49 | each of the eight brackets reads back as itself |
| Day10.ParseLine | src/day10.rs:38-50 | dropping unknown characters never lengthens a line |
| Day10.ParseRender | src/day10.rs:37-51 | parsing the text of any bracket sequence gives that sequence back |
| Day10.ScanLine | src/day10.rs:56-67 | the stack loop ends exactly as the recursive scan does: at the first closer that does not match the popped top, or with the still open delimiters |
| Day10.CheckAppend | src/day10.rs:57-66 | scanning a concatenation continues from the stack the first part leaves, unless the first part is already corrupted |
| Day10.Closers | src/day10.rs:87-90 | one closer per open delimiter |
| Day10.CheckClosers | src/day10.rs:87-90 | the closers of a stack, innermost first, close it completely |
| Day10.Completes | src/day10.rs:72-96 | an incomplete line followed by the closers its stack asks for is balanced |
| Day10.CorruptedAt | src/day10.rs:60-64 | a corrupted line is corrupted at one of its own closing brackets, whose delimiter differs from the top of the stack (or the stack is empty) just before it |
| Day10.FoldScoreSnoc | src/day10.rs:90-90 | one more delimiter multiplies the score by 5 and adds its digit |
| Day10.CompletionDigits | src/day10.rs:87-90 | the completion score is the stack read as a base-5 number, the top being the most significant digit |
| Day10.CompletionZero | src/day10.rs:91-95 | a completion score is 0 exactly for an empty stack, the lines `part2` drops |
| Day10.CompletionInjective | src/day10.rs:87-90 | different open stacks have different completion scores |
| Day10.DigitsInjective | src/day10.rs:87-90 | the base-5 reading of stacks is one-to-one |
| Day10.SyntaxScores | src/day10.rs:55-68 | one syntax score per line |
| Day10.Part1 | src/day10.rs:53-70 | the sum of the line scores: the first unexpected closer's score, 0 for a line that is not corrupted |
| Day10.Completions | src/day10.rs:73-97 | at most one completion score per line, every one positive |
| Day10.CompletionsSnoc | src/day10.rs:74-96 | one more line adds its completion score exactly when it is incomplete with a nonzero score |
| Day10.Part2 | src/day10.rs:72-100 | the middle of the sorted nonzero completion scores, and `None` exactly when there are none |
| Day11.Snapshot | src/day11.rs:3-9 | the value read off the `[[u8; 10]; 10]` array is a 10×10 grid holding its levels |
| Day11.ParseLine | src/day11.rs:6-7 | ten digit levels from the trimmed line, and `None` whenever the trimmed line is shorter than ten |
| Day11.ParseInput | src/day11.rs:3-9 | a 10×10 grid from the first ten lines, and `None` exactly when there are fewer lines or one of them fails |
| Day11.ParseRows | src/day11.rs:5-8 | the first `n` rows, each parsed from its line, and `None` exactly when one of them fails |
| Day11.Neighbours | src/day11.rs:11-28 | exactly the cells on the grid around `(x, y)`, not `(x, y)` itself, each once |
| Day11.DistinctSnoc | src/day11.rs:22-22 | pushing a new cell keeps the list free of repeats |
| Day11.Flashes | src/day11.rs:50-51 | the flashes next to a cell among the first `k` number at most `k` |
| Day11.IncrementAll | src/day11.rs:31-34 | every level goes up by one |
| Day11.ReadyUpTo | src/day11.rs:39-44 | the cells above 9 among the first `n` in row-major order |
| Day11.Ready | src/day11.rs:39-46 | exactly the cells above 9 |
| Day11.Raise | src/day11.rs:51-51 | each listed cell goes up by one and every other cell keeps its level |
| Day11.Hot | src/day11.rs:52-52 | `retain` keeps exactly the listed cells above 9 |
| Day11.FlashOne | src/day11.rs:50-53 | a flash raises exactly the cells around it by one and returns those of them now above 9 |
| Day11.Cascade | src/day11.rs:48-55 | the popped cells flash at most once each, each when it is above 9, every level rises by the flashes around it, and exactly the cells ending above 9 flashed |
| Day11.CascadeSkip | src/day11.rs:49-49 | popping a cell that already flashed keeps the invariant |
| Day11.CascadeFlash | src/day11.rs:49-53 | flashing a popped new cell keeps the invariant |
| Day11.Progress | src/day11.rs:49-49 | each new flash shrinks the set of cells yet to flash, so the loop ends |
| Day11.CascadeEnd | src/day11.rs:48-55 | with the stack empty, exactly the cells above 9 have flashed |
| Day11.FlashesPrefix | src/day11.rs:50-51 | counting over a prefix ignores later flashes |
| Day11.FlashesMono | src/day11.rs:50-51 | a longer prefix never counts fewer flashes |
| Day11.ResetFlashed | src/day11.rs:57-61 | every level above 9 drops to 0 and the others stay |
| Day11.Iterate | src/day11.rs:30-64 | one step: the octopuses that flash, each once and each because its level plus one plus the flashes around it before it exceeded 9; they end at 0, the others at that sum; the result is how many flashed |
| Day11.StepFromPhases | src/day11.rs:30-64 | the increment, the cascade and the reset together make one step |
| Day11.FlashesAround | src/day11.rs:50-51 | without repeats, the flashes counted next to a cell are the flashed octopuses around it |
| Day11.AroundAdd | src/day11.rs:50-51 | one more flashed octopus adds one next to a cell exactly when it is around it |
| Day11.SeenSnoc | src/day11.rs:49-49 | a flash sequence without repeats adds one new octopus per flash |
| Day11.AroundMono | src/day11.rs:50-51 | more flashed octopuses never fewer around a cell |
| Day11.SeenAll | src/day11.rs:49-49 | the whole sequence of flashes covers exactly the flashed octopuses |
| Day11.FlashedInOther | src/day11.rs:48-55 | whatever one order of popping flashes, any other order flashes too |
| Day11.LevelsEq | src/day11.rs:30-64 | two grids agreeing on every cell are equal |
| Day11.StepDetermined | src/day11.rs:48-55 | the stack order does not matter: two steps from the same levels flash the same octopuses, as many, and end at the same levels |
| Day11.StepBounds | src/day11.rs:30-64 | after a step from non-negative levels every level is between 0 and 9, and at most 100 octopuses flashed |
| Day11.RunSnoc | src/day11.rs:70-72 | one more step extends a run |
| Day11.Load | src/day11.rs:67-67 | a fresh 10×10 array holding the parsed levels |
| Day11.Part1 | src/day11.rs:66-74 | the flashes summed over a run of exactly 100 steps from the parsed levels |
| Day11.TotalFlashesBound | src/day11.rs:66-74 | over a run from non-negative levels at most 100 octopuses flash per step, and levels stay non-negative |
| Day11.Part2 | src/day11.rs:76-86 | the number of the first step in which all 100 octopuses flash, no earlier step doing so; `None` when none does within `fuel` steps |
| Day12.Build | src/day12.rs:8-15 | the caves with a list are exactly those named by a passage, and `b` is listed for `a` once per listing of the passage in either direction |
| Day12.OccurrencesInEnds | src/day12.rs:8-15 | a listed passage names two caves of the graph |
| Day12.ParseSymmetric | src/day12.rs:7-17 | the graph is symmetric (`b` is listed for `a` exactly as often as `a` for `b`) and every listed cave has a list of its own |
| Day12.OccurrencesSymmetric | src/day12.rs:11-12 | each passage is counted in both directions alike |
| Day12.Descend | src/day12.rs:40-43 | entering a big cave or a small cave not on the path brings the search closer to its end, when no two big caves are adjacent |
| Day12.SearchAtLeast | src/day12.rs:24-82 | allowing one small cave twice never finds fewer routes |
| Day12.StepAtLeast | src/day12.rs:61-76 | trying one branch under part 2's rule finds at least as many routes as under part 1's |
| Day12.SearchRoutes | src/day12.rs:24-82 | every route the search counts runs along passages to "end", reaches it only at its last cave and keeps the strategy's rule on small caves |
| Day12.StepRoutes | src/day12.rs:35-44 | every route found by trying one branch is a real route |
| Day12.Extend | src/day12.rs:40-43 | a route from the path with an allowed cave pushed is a route from the path |
| Day12.ExtendRevisit | src/day12.rs:68-75 | a route from a second visit to a small cave, continued without duplicates, is a route with one duplicate |
| Day12.Narrow | src/day12.rs:40-43 | a route whose next cave is `head` continues the path with `head` pushed |
| Day12.NarrowRevisit | src/day12.rs:73-75 | after its one second visit a part 2 route visits no small cave twice |
| Day12.InPathRevisits | src/day12.rs:69-71 | entering a small cave already on the path is a second visit |
| Day12.SearchComplete | src/day12.rs:24-82 | every route to "end" keeping the strategy's rule whose next cave is still among the branches to try is counted |
| Day12.StepComplete | src/day12.rs:35-44 | every such route through the branch being tried is counted by that branch |
| Day12.DistinctAppend | src/day12.rs:36-36 | two lists without repeats and sharing nothing concatenate without repeats |
| Day12.SearchDistinct | src/day12.rs:24-82 | when no passage is listed twice no route is counted twice, and each route counted continues through one of the branches |
| Day12.StepDistinct | src/day12.rs:35-44 | the routes of one branch are counted once each and pass through that branch |
| Day12.RoutesCounted | src/day12.rs:84-92 | the routes found from "start" are exactly the routes to "end" keeping the strategy's rule, each found once when no passage is listed twice |
| Day12.PendingPop | src/day12.rs:30-30 | popping a list leaves what the rest of the stack will yield |
| Day12.PendingPush | src/day12.rs:36-42 | pushing a list adds what searching it yields |
| Day12.PopEmpty | src/day12.rs:32-34 | popping an exhausted list pops the path and yields no route |
| Day12.PopBranch | src/day12.rs:35-37 | popping a list with a first cave puts its tail back and leaves what trying the first cave yields |
| Day12.Enter | src/day12.rs:41-42 | entering a cave pushes it on the path and its neighbours on the stack, keeping the stack aligned with the path |
| Day12.StepCases | src/day12.rs:38-75 | trying "end" counts one route; part 2 skips "start"; an allowed cave searches on; a small cave already on the path ends the branch (part 1) or continues without duplicates (part 2) |
| Day12.NoDuplicatesSearch | src/day12.rs:24-49 | the explicit-stack loop counts exactly the routes of the recursive search without duplicates, and the path comes back with its last cave popped |
| Day12.AtMostOneDuplicateSearch | src/day12.rs:51-82 | the explicit-stack loop counts exactly the routes of the recursive search with at most one duplicate |
| Day12.Revisit | src/day12.rs:70-74 | a second visit followed by `no_duplicates` counts exactly what that branch yields |
| Day12.Part1 | src/day12.rs:84-87 | the number of routes from "start" without duplicates, and `None` exactly when "start" has no passage |
| Day12.Part2 | src/day12.rs:89-92 | the number of routes from "start" with at most one small cave twice, and `None` exactly when "start" has no passage |
| Day13.ParseU16 | src/day13.rs:26-27 | a coordinate parses exactly when it is a decimal number below 65536 |
| Day13.ParseDot | src/day13.rs:24-28 | a line without ',' is dropped; otherwise it parses exactly when both halves around the first ',' are `u16` numbers, and the dot is those two numbers |
| Day13.ParseDots | src/day13.rs:22-29 | the dot section parses exactly when each of its lines does, into dots with `u16` coordinates |
| Day13.ParseDotsHas | src/day13.rs:22-29 | every dot of the dot section is among the parsed dots |
| Day13.ParseDotsFrom | src/day13.rs:22-29 | every parsed dot is the dot of some line of the section |
| Day13.ParseFold | src/day13.rs:31-35 | a line not starting with "fold along " or without '=' after it is dropped; otherwise it parses exactly when the axis is "x" or "y" and the number a `u16`, and the fold is along that line of that axis |
| Day13.ParseFolds | src/day13.rs:31-35 | the fold section parses exactly when each of its lines does, into at most one fold per line |
| Day13.ParseFoldsSingle | src/day13.rs:31-35 | one line gives its own fold, nothing when dropped, or `None` |
| Day13.ParseFoldsAppend | src/day13.rs:31-35 | the folds of two runs of lines are the folds of the first followed by those of the second, so the folds keep the order of their lines |
| Day13.ParseFoldsGather | src/day13.rs:31-35 | the fold section's parse is its lines' own parses gathered first to last |
| Day13.GatherAppend | src/day13.rs:31-35 | gathering two runs of per-line results is gathering each and concatenating |
| Day13.AddFold | src/day13.rs:31-35 | adding a line's fold succeeds exactly when the folds so far and the line both parse |
| Day13.AddFoldJoin | src/day13.rs:31-35 | adding a line after joining two runs is joining with the line added to the second |
| Day13.FirstBlank | src/day13.rs:23-23 | the first blank line at or after `from`, or the end |
| Day13.DotSection | src/day13.rs:22-23 | `take_while` keeps the lines before the first blank one, none of them blank |
| Day13.FoldSection | src/day13.rs:21-31 | the fold section is what follows the first blank line, which `take_while` consumes |
| Day13.ParseInput | src/day13.rs:20-37 | the dots of the dot section and the folds of the fold section, and `None` exactly when either fails |
| Day13.Mirror | src/day13.rs:49-52 | the image `2 * line - coordinate` of a dot beyond the line lies before it |
| Day13.Folded | src/day13.rs:39-70 | after a fold every dot lies before the line, every dot before it stays and every dot beyond it is mirrored |
| Day13.ApplyFold | src/day13.rs:39-70 | collecting the dots beyond the line, retaining those before it and inserting the mirror images gives the folded sheet |
| Day13.MirroredAll | src/day13.rs:48-53 | the insert loop adds the mirror image of every dot beyond the line |
| Day13.MirrorImageBound | src/day13.rs:48-53 | mirroring a set of dots gives at most as many |
| Day13.FoldNeverGrows | src/day13.rs:39-70 | a fold never increases the number of dots |
| Day13.FoldIdempotent | src/day13.rs:39-70 | folding again along the same line changes nothing |
| Day13.FoldedMembers | src/day13.rs:39-70 | a dot is on the folded sheet exactly when it lies before the line and it or its mirror image was a dot |
| Day13.Reflect | src/day13.rs:49-52 | the dot mirrored onto `d` lies beyond the line |
| Day13.Transposed | src/day13.rs:55-68 | exchanging the axes of every dot |
| Day13.TransposedFoldable | src/day13.rs:55-68 | a sheet that folds along a horizontal line folds along the same vertical line once transposed |
| Day13.FoldYMirrorsX | src/day13.rs:39-70 | the `Fold::Y` branch is the `Fold::X` branch with the axes exchanged |
| Day13.FoldYMember | src/day13.rs:55-68 | a dot survives the horizontal fold exactly when its transpose survives the vertical one |
| Day13.Part1 | src/day13.rs:72-76 | the number of dots after the first fold, no more than before; `None` exactly when parsing fails, there is no fold or the fold overflows `u16` |
| Day13.FoldAll | src/day13.rs:80-82 | folding in turn never increases the number of dots |
| Day13.MaxCoords | src/day13.rs:83-84 | the largest x and the largest y of the dots |
| Day13.Row | src/day13.rs:88-94 | one character per column |
| Day13.Picture | src/day13.rs:87-96 | `h` rows of `w` cells, each followed by a newline |
| Day13.RowAt | src/day13.rs:89-93 | a cell is '#' exactly for a dot there, '.' otherwise |
| Day13.PictureLayout | src/day13.rs:87-96 | row `y` starts at `y * (w + 1)`, and every character is the pixel of its place |
| Day13.Render | src/day13.rs:86-97 | the nested loops write the picture of the rows `0..=max_y` and columns `0..=max_x` |
| Day13.Part2 | src/day13.rs:78-98 | the sheet after every fold rendered up to its largest coordinates; `None` exactly when parsing fails, a fold overflows or no dot is left |
| Day13.FoldSheet | src/day13.rs:80-82 | the fold loop gives the sheet after every fold in turn, stopping where one overflows |
| Day13.NoneStays | src/day13.rs:80-82 | once a fold overflows, folding the rest fails too |
| Day14.Insertion | src/day14.rs:44-62 | one insertion step on the polymer itself keeps its first element (the reference the counts are checked against) |
| Day14.GrowAny | src/day14.rs:45-59 | the new counts do not depend on the order in which the pairs are visited |
| Day14.GrowAdditive | src/day14.rs:56-59 | the counts grown from two collections of pairs add up |
| Day14.GrowSingle | src/day14.rs:48-55 | one pair with a rule becomes its two new pairs and adds its element; one without keeps itself |
| Day14.InsertionCounts | src/day14.rs:44-62 | the pair counts of the next polymer are the grown pair counts, and its element counts are the old ones plus the inserted elements |
| Day14.GrowStep | src/day14.rs:48-58 | moving all occurrences of one key keeps the totals the loop aims at |
| Day14.Inserted | src/day14.rs:49-53 | the element inserted between two elements is the rule's element, if any |
| Day14.InsertionUnfold | src/day14.rs:49-53 | a polymer's step is its first element, the element inserted after it, then the step of the rest |
| Day14.InsertionConsPairs | src/day14.rs:51-53 | the first pair of a polymer becomes its image in the next polymer's pairs |
| Day14.PairsInsert | src/day14.rs:28-36 | inserting an element between two adds the two pairs it forms |
| Day14.InsertionConsChars | src/day14.rs:50-50 | the first pair adds its inserted element to the element counts |
| Day14.PairsCons | src/day14.rs:28-36 | a polymer's pairs are its first pair and the pairs of the rest |
| Day14.PairsCount | src/day14.rs:24-36 | a non-empty polymer has one more element than pairs |
| Day14.Transfer | src/day14.rs:48-58 | one key's count goes to its two new pairs and to its inserted element, or stays on the key without a rule |
| Day14.Polymer.constructor | src/day14.rs:10-42 | the counting folds give exactly the element counts and the pair counts of the template |
| Day14.Polymer.ApplyMapping | src/day14.rs:44-62 | the pair counts become the grown counts and the element counts gain the inserted elements |
| Day14.Polymer.Both | src/day14.rs:64-73 | after `iterations` steps the counts describe the polymer after that many insertion steps, and the result is its largest minus its smallest element count |
| Day14.LengthGrows | src/day14.rs:66-68 | the polymer stays non-empty |
| Day14.RepeatGrow | src/day14.rs:56-58 | `count` occurrences of one key grow into `count` copies of its image |
| Day14.RepeatSingle | src/day14.rs:57-57 | `n` copies of one key are the key with count `n` |
| Day14.RepeatUnion | src/day14.rs:57-57 | copying distributes over union |
| Day14.AddCount | src/day14.rs:57-57 | `+= n` on an entry adds `n` copies of its key |
| Day14.GrowChunk | src/day14.rs:48-58 | all occurrences of one key grow together |
| Day14.MinMaxCount | src/day14.rs:70-71 | the smallest and the largest element count |
| Day14.ParseRule | src/day14.rs:15-21 | a line without " -> " is skipped; otherwise it parses exactly when the pattern has at least two characters and the insertion at least one, and the rule maps the first two pattern characters to the first inserted one |
| Day14.ParseRules | src/day14.rs:13-23 | the rules parse exactly when every line does; a pair is a key exactly when some line names it, and its value is the element of the last such line |
| Day14.CollectRules | src/day14.rs:13-23 | the map fails exactly when one line fails; a pair is a key exactly when some line names it, and a later rule for the same pair overrides an earlier one |
| Day14.CollectSkip | src/day14.rs:15-15 | a skipped line leaves the collected map as it is |
| Day14.CollectWrite | src/day14.rs:16-23 | inserting a new rule's pair overrides the earlier value and keeps every other key |
| Day14.ParseInput | src/day14.rs:10-42 | the template is the first line and the rules are those of the lines after the skipped second line (none for fewer than two lines); `None` exactly for an empty input or a bad rule |
| Day14.BothOf | src/day14.rs:64-73 | the largest minus the smallest element count of the polymer after `iterations` steps; `None` exactly when parsing panics or the template is empty |
| Day14.Part1 | src/day14.rs:75-77 | the same after ten steps |
| Day14.Part2 | src/day14.rs:79-81 | the same after forty steps |
| Day15.ParseInput | src/day15.rs:4-13 | one row of digit levels per line, and `None` exactly when some character's byte is below `'0'` |
| Day15.Risk | src/day15.rs:53-57 | the risk of a tiled position lies in 1..=9, is its level raised by the tile distance modulo 9, and on the original tile is the level itself |
| Day15.Neighbours | src/day15.rs:15-26 | at most four positions, each adjacent, and for a position in the square exactly its adjacent positions in the square |
| Day15.PathRisk | src/day15.rs:53-58 | a route costs at least one per position it enters |
| Day15.ShortestUnique | src/day15.rs:34-64 | the lowest total risk of a position is unique |
| Day15.RouteSnoc | src/day15.rs:58-58 | extending a route by an adjacent position adds that position's risk |
| Day15.CandidateOnRoute | src/day15.rs:40-61 | every route to an unsettled position leaves the settled ones through a candidate costing no more than the route |
| Day15.CheapestIsShortest | src/day15.rs:40-47 | the cheapest candidate's cost is its lowest total risk |
| Day15.Settle | src/day15.rs:48-61 | settling the cheapest candidate and relaxing its neighbours keeps the loop invariant |
| Day15.SettledCovered | src/day15.rs:48-61 | after settling, every settled position has its lowest total risk and its unsettled neighbours are candidates |
| Day15.StillCovered | src/day15.rs:48-61 | a settled position stays covered when no candidate cost rises |
| Day15.StartSettled | src/day15.rs:35-49 | the start, at cost 0, is settled by the time any other position is |
| Day15.FillsSquare | src/day15.rs:40-63 | settled positions containing the start and closed under neighbours fill the square, so the candidates never run out before the destination |
| Day15.Square | src/day15.rs:38-38 | exactly the positions of the `dim` square |
| Day15.Cheapest | src/day15.rs:40-43 | `min_by_key` picks a candidate of lowest cost |
| Day15.Offer | src/day15.rs:59-60 | `or_insert` then `min` makes the position a candidate at no more than the offered cost, keeps the others, raises no cost, and keeps a witnessing route for each |
| Day15.Consider | src/day15.rs:51-60 | a settled neighbour is skipped; any other is offered at the cost plus its risk |
| Day15.Relax | src/day15.rs:50-61 | every unsettled neighbour ends a candidate at no more than the cost through `pos`, and no cost rises; `ok` is false only where a risk underflows |
| Day15.PositiveLevels | src/day15.rs:53-57 | a map of levels from 1 upwards never underflows, however far it is tiled |
| Day15.Visit | src/day15.rs:48-61 | one round past the destination check keeps the loop invariant, or reports an underflow |
| Day15.Traverse | src/day15.rs:34-64 | the result is the lowest total risk of any route from the top left to the bottom right corner of the tiled map; `None` only for a zero multiplier or an underflowing risk |
| Day15.NeverExhausted | src/day15.rs:44-63 | while the destination is unsettled the candidates never run out, so the final `panic!` is unreachable |
| Day15.Part1 | src/day15.rs:66-69 | the lowest total risk across the map itself, given exactly when the map is square and no risk underflows |
| Day15.Part2 | src/day15.rs:71-74 | the lowest total risk across the map tiled five times in each direction, given exactly when the map is square and no risk underflows |
| Day16.HexDigit | src/day16.rs:3-7 | the value of `0`–`9` and of upper-case `A`–`F`; lower-case letters and anything else panic |
| Day16.Nibble | src/day16.rs:8-8 | four bits, most significant first, whose value is the digit |
| Day16.HexStream | src/day16.rs:1-10 | four bits per hex digit up to the first character that is not one, which poisons the rest of the stream exactly when it exists |
| Day16.HexStreamAt | src/day16.rs:2-9 | in a clean stream the bits `4 * i` to `4 * i + 4` are the nibble of character `i` |
| Day16.Take | src/day16.rs:13-14 | `take(k)` yields the next `min(k, left)` bits, fewer only at the end of the view or of a clean stream, and panics exactly when it reads into the bad character |
| Day16.Fold | src/day16.rs:15-15 | the `usize` fold stays below 2^64 |
| Day16.FoldValue | src/day16.rs:15-15 | the fold is the bits' value modulo 2^64, the bits past the 64th being shifted out |
| Day16.BitsValueBound | src/day16.rs:12-16 | `k` bits hold a value below 2^k |
| Day16.ParseNumber | src/day16.rs:12-16 | reading `k` bits fails exactly when `take` does, and for at most 64 bits gives their value, below 2^k |
| Day16.PowAdd | src/day16.rs:15-15 | shifting by `a + b` is shifting by `a` then by `b` |
| Day16.LiteralGroups | src/day16.rs:18-37 | the payload of a literal: four bits out of each 5-bit group up to the first with lead bit 0 |
| Day16.ParseLiteral | src/day16.rs:18-37 | the loop reads the groups and folds their payload, failing exactly when a group is cut short |
| Day16.OperatorOf | src/day16.rs:45-54 | an operator for every type id but 4 and those above 7 |
| Day16.ParsePacket | src/day16.rs:84-88 | a parsed packet consumes bits and has a 3-bit version |
| Day16.ParseKind | src/day16.rs:39-82 | type id 4 reads a literal, any other known id an operator and its arguments |
| Day16.ParseArguments | src/day16.rs:56-75 | a length type bit, then the arguments framed by a 15-bit length or an 11-bit count |
| Day16.ParseLengthFramed | src/day16.rs:58-66 | the packets inside a view of `length` bits |
| Day16.ParseCountFramed | src/day16.rs:67-74 | `count` packets in a row |
| Day16.ParseUntil | src/day16.rs:61-64 | packets until the view is exhausted |
| Day16.ParseCount | src/day16.rs:70-72 | exactly `count` packets |
| Day16.AllAppend | src/day16.rs:128-141 | the packet and version counts of two lists add up |
| Day16.Part1 | src/day16.rs:123-143 | the stack loop sums the versions of every packet in the tree, and gives `None` exactly when decoding panics |
| Day16.Least | src/day16.rs:158-162 | `min().unwrap()` is one of the values and no more than any |
| Day16.Greatest | src/day16.rs:163-167 | `max().unwrap()` is one of the values and no less than any |
| Day16.Compare | src/day16.rs:168-206 | a comparison gives 1 exactly when it holds, 0 otherwise |
| Day16.Eval | src/day16.rs:145-208 | a literal evaluates to its value and a comparison to 0 or 1 |
| Day16.EvalAll | src/day16.rs:152-167 | every argument's value in order, or `None` exactly when one of them panics |
| Day16.EvalDefined | src/day16.rs:145-208 | evaluation panics exactly on a `min`/`max` of no arguments or a comparison of fewer than two, anywhere in the tree |
| Day16.EvalAllDefined | src/day16.rs:152-167 | the arguments evaluate exactly when each is evaluable |
| Day16.Part2 | src/day16.rs:210-216 | the value of the transmission, given exactly when decoding succeeds and the tree is evaluable |
| Day16.NumBitsValue | src/day16.rs:12-16 | the `k`-bit encoding of a value below 2^k reads back as that value |
| Day16.Groups | src/day16.rs:18-37 | the 5-bit grouping of a payload has one lead bit per four payload bits |
| Day16.OperatorId | src/day16.rs:45-54 | each operator's type id reads back as that operator |
| Day16.Encode | src/day16.rs:84-88 | an encoded packet has at least its 6 header bits and more |
| Day16.NumberRoundTrip | src/day16.rs:12-16 | reading `k` bits written from `v` gives `v` |
| Day16.GroupsRoundTrip | src/day16.rs:18-37 | reading groups written from a payload gives the payload back |
| Day16.LiteralRoundTrip | src/day16.rs:18-37 | a 64-bit literal written in groups reads back as its value |
| Day16.RoundTrip | src/day16.rs:84-88 | parsing the encoding of any well-formed packet gives that packet and consumes exactly its bits |
| Day16.KindRoundTrip | src/day16.rs:39-82 | parsing an encoded literal or operator gives it back |
| Day16.LiteralKindRoundTrip | src/day16.rs:42-43 | an encoded literal reads back |
| Day16.OperatorRoundTrip | src/day16.rs:44-81 | an encoded operator with its arguments reads back |
| Day16.LengthRoundTrip | src/day16.rs:58-66 | arguments framed by their total length read back |
| Day16.CountRoundTrip | src/day16.rs:67-74 | arguments framed by their count read back |
| Day16.RoundTripUntil | src/day16.rs:61-64 | a list of encoded packets filling the view reads back |
| Day16.RoundTripCount | src/day16.rs:70-72 | `count` encoded packets read back |
| Day16.DecodeEncoded | src/day16.rs:210-216 | a transmission holding an encoded packet decodes to it, and part 2 is that packet's value |
| Day16.Decode | src/day16.rs:211-213 | a decoded transmission reads its packet from the start, within the four bits per hex digit, and has a 3-bit version |
| Day17.ParseRange | src/day17.rs:13-22 | a parsed range is `<prefix>A..B` with `A` and `B` integers |
| Day17.ParseInput | src/day17.rs:10-27 | a parsed target is `target area: x=A..B, y=C..D` with those bounds |
| Day17.YPosClosed | src/day17.rs:43-45 | after `n` moves the height is `n * v - n * (n - 1) / 2` |
| Day17.XVel | src/day17.rs:109-109 | drag takes the x-velocity one step towards 0 and never below it |
| Day17.XPos | src/day17.rs:64-64 | the drag-limited x position is never negative |
| Day17.XSimIsXPos | src/day17.rs:64-64 | for a non-negative launch the summed position equals the simulated one |
| Day17.XPosMono | src/day17.rs:64-64 | the probe never moves back towards the origin along x |
| Day17.MaxHeight | src/day17.rs:29-32 | `(0..=v).sum()` is `v * (v + 1) / 2`, and 0 for a negative velocity |
| Day17.MaxHeightBounds | src/day17.rs:29-32 | no move of a probe launched with y-velocity `v` is higher than `max_height(v)` |
| Day17.MaxHeightReached | src/day17.rs:29-32 | a probe launched upwards reaches `max_height(v)` after `v` moves |
| Day17.YInTargetRange | src/day17.rs:34-52 | exactly the steps that end in the y-range before the probe falls below it, in increasing order |
| Day17.ReachingXVelocities | src/day17.rs:54-67 | exactly the x-velocities in `0..=x.end` whose position after the step is in the x-range, in order |
| Day17.ReachingFrom | src/day17.rs:59-66 | exactly the x-velocities from `from` to `x.end` that qualify, in order |
| Day17.XVelocitiesFor | src/day17.rs:76-84 | exactly the x-velocities in the x-range at some step that a y-velocity spends in the y-range |
| Day17.PossibleVectors | src/day17.rs:69-86 | exactly the (x, y) launch velocities whose probe is in both ranges after the same step, over the tried y-velocities |
| Day17.Simulate | src/day17.rs:100-116 | true exactly when the probe is inside the target after some move before it overshoots or falls below |
| Day17.PossibleReaches | src/day17.rs:118-135 | every vector `possible_vectors` returns makes `simulate` report a hit, the sanity tests' claim |
| Day17.XSimStalls | src/day17.rs:107-109 | a launch with x-velocity at most 0 stays where its first move takes it |
| Day17.FallsThrough | src/day17.rs:102-116 | a probe launched upwards at least as fast as the target is deep is never at a height inside the target's y-range |
| Day17.ReachesPossible | src/day17.rs:69-86 | for a target right of and below the launch point, every launch that `simulate` reports as a hit is one `possible_vectors` collects |
| Day17.PossibleIffReaches | src/day17.rs:69-116 | for such a target, `possible_vectors` collects exactly the launches that `simulate` reports as hits |
| Day17.CornerShot | src/day17.rs:102-116 | the straight shot at the target's lower-left corner hits it on the first move |
| Day17.ShapedPeak | src/day17.rs:88-94 | for such a target there is a highest peak, and it is the highest over every launch that hits |
| Day17.HighestPeak | src/day17.rs:90-93 | the highest `max_height` over the vectors, one of them and no lower than any, and `None` exactly for no vectors |
| Day17.Part1 | src/day17.rs:88-94 | the highest peak among the possible vectors, attained by one of them; `None` exactly when parsing fails or there is none; for a target right of and below the launch point the answer exists and is the highest peak over every launch that hits |
| Day17.Part2 | src/day17.rs:96-98 | the number of possible vectors; `None` exactly when parsing fails; for a target right of and below the launch point, the number of launches that hit it |
| Day18.SnailNumber.Max | src/day18.rs:12-14 | `max` of a pair is one of its literals and no literal exceeds it |
| Day18.SnailElement.Max | src/day18.rs:174-179 | `max` of an element is one of its literals and no literal exceeds it |
| Day18.NumberDepthLevels | src/day18.rs:16-18 | `depth` of a number is the nesting level of its deepest literal: no literal is deeper and one is exactly that deep |
| Day18.DepthLevels | src/day18.rs:167-172 | an element's `depth` plus its level is the level of its deepest literal |
| Day18.SnailNumber.Depth | src/day18.rs:16-18 | a pair has depth at least one (Day18.NumberDepthLevels states what the depth is) |
| Day18.SnailElement.AddLeftmost | src/day18.rs:102-115 | walking down the left edge adds the carried value to the first literal and to nothing else |
| Day18.SnailElement.AddRightmost | src/day18.rs:88-101 | walking down the right edge adds the carried value to the last literal and to nothing else |
| Day18.AddLeftmostLevels | src/day18.rs:102-115 | the left-edge walk leaves every literal at its level |
| Day18.AddRightmostLevels | src/day18.rs:88-101 | the right-edge walk leaves every literal at its level |
| Day18.ExplodeHere | src/day18.rs:48-116 | at depth 4 the outcome is `Continue` exactly when no literal is at level 5, never a panic while no literal is deeper than 5, and a `Break` explodes the first level-5 pair with its values carried to its neighbours |
| Day18.ExplodedHereLeft | src/day18.rs:49-67 | a nested left pair of literals becomes 0 and its right value lands on the right sibling's first literal; its left value is carried out |
| Day18.ExplodedHereRight | src/day18.rs:68-85 | a nested right pair of literals becomes 0 and its left value is added to the left literal; its right value is carried out |
| Day18.PanickedHereLeft | src/day18.rs:63-65 | the left-pair panic happens only when some literal is deeper than level 5 |
| Day18.PanickedHereRight | src/day18.rs:81-83 | the right-pair panic happens only when some literal is deeper than level 5 |
| Day18.DeepChild | src/day18.rs:63-65 | a pair that does not hold two literals has a literal below its own level |
| Day18.ExplodeAt | src/day18.rs:42-126 | `inner_explode` at any depth from 1 to 4 meets the same explosion specification on the pair's literals and levels |
| Day18.ExplodeChild | src/day18.rs:118-123 | only a nested pair is searched: a literal child gives `Continue` |
| Day18.ExplodedLeft | src/day18.rs:118-120 | an explosion in the left child hands its right carry to the right child's first literal and passes the left carry up |
| Day18.PanickedLeft | src/day18.rs:118-120 | a panic in the left child is a panic of the pair, and still needs a literal deeper than 5 |
| Day18.ExplodedRight | src/day18.rs:121-123 | an explosion in the right child, with none in the left, hands its left carry to the left child's last literal and passes the right carry up |
| Day18.PassedRight | src/day18.rs:121-124 | when neither child explodes the pair continues; a right-child panic is the pair's panic |
| Day18.ExplodesLeft | src/day18.rs:119-119 | on literal sequences: an explosion in the left part of `s + t` carries its right value onto the first literal of `t` |
| Day18.ExplodesRight | src/day18.rs:122-122 | on literal sequences: an explosion in the right part, with none in the left, carries its left value onto the last literal of the left part |
| Day18.Explode | src/day18.rs:37-40 | `explode` cannot panic while no literal is deeper than level 5; it leaves a number with no level-5 literal unchanged, and otherwise turns the first level-5 pair into a 0 at level 4 with its values added to the nearest literals on each side |
| Day18.SplitElement | src/day18.rs:134-144 | one match arm of `inner_split`: it splits exactly when the element has a literal of ten or more, splitting the first such literal; otherwise the element is unchanged |
| Day18.InnerSplit | src/day18.rs:133-157 | `inner_split` breaks exactly when some literal is ten or more; the first such literal becomes its halves, rounding down then up; otherwise the number is unchanged |
| Day18.InnerSplitLevels | src/day18.rs:133-157 | the split literal's halves sit one level below it and no other literal changes level |
| Day18.SplitElementLevels | src/day18.rs:134-144 | on one element: the split literal's halves are one level deeper |
| Day18.SplitToLeft | src/day18.rs:134-143 | a split in the left child leaves the right child's literals unchanged |
| Day18.SplitToRight | src/day18.rs:146-156 | the right child is split only when no left literal is ten or more |
| Day18.Split | src/day18.rs:128-131 | `split` leaves a number with no literal of ten or more unchanged; otherwise it splits the first such literal and deepens only its halves |
| Day18.ReduceStep | src/day18.rs:27-33 | `reduce`'s loop stops exactly when the depth is at most 4 and every literal is below ten |
| Day18.Iterate | src/day18.rs:25-34 | the loop only finishes on a number its body stops on, and a number the body stops on at once is returned as is |
| Day18.IterateFuel | src/day18.rs:25-34 | once the loop finishes, more fuel gives the same result |
| Day18.IterateInvariant | src/day18.rs:25-34 | a property the body keeps and under which it never gets stuck rules out the panic |
| Day18.RunLoop | src/day18.rs:25-34 | the loop computes `Iterate` |
| Day18.Reduction | src/day18.rs:24-35 | a finished `reduce` gives a reduced number; a reduced number is returned unchanged |
| Day18.Reduce | src/day18.rs:24-35 | the loop of `reduce` computes `Reduction` |
| Day18.ShallowExploded | src/day18.rs:27-28 | an explosion keeps every literal at level 5 or above |
| Day18.ShallowSplit | src/day18.rs:29-30 | a split on a number of depth 4 or less leaves no literal deeper than level 5 |
| Day18.ReduceStepShallow | src/day18.rs:27-33 | a pass of the loop on a number with no literal deeper than level 5 neither panics nor makes one deeper |
| Day18.ReductionNoPanic | src/day18.rs:24-35 | `reduce` never panics on a number with no literal deeper than level 5 |
| Day18.ReductionFuel | src/day18.rs:24-35 | once `reduce` finishes within some fuel, more fuel gives the same number |
| Day18.PairShallow | src/day18.rs:193-196 | pairing two numbers of depth at most 4 puts no literal deeper than level 5 |
| Day18.Add | src/day18.rs:192-198 | a finished sum is reduced, and the sum of two reduced numbers never panics |
| Day18.Fold | src/day18.rs:202-208 | the fold gives `None` exactly for no numbers |
| Day18.FoldStuck | src/day18.rs:204-206 | once an addition fails, the fold keeps that failure |
| Day18.FoldInvariant | src/day18.rs:202-208 | a property of the numbers that addition keeps, and under which it never panics, holds for the fold's result and rules out a panic |
| Day18.FoldAdded | src/day18.rs:204-207 | a finished fold over two or more numbers is the result of an addition |
| Day18.RunFold | src/day18.rs:202-208 | `sum`'s loop computes `Fold` |
| Day18.SumOf | src/day18.rs:201-209 | the sum is `None` exactly for no numbers, and a finished sum of two or more is reduced |
| Day18.Sum | src/day18.rs:202-208 | `sum`'s loop computes `SumOf` |
| Day18.SumOfReduced | src/day18.rs:201-209 | summing reduced numbers never panics and gives a reduced number |
| Day18.MagnitudeBound | src/day18.rs:181-186 | a magnitude is at most the largest literal times 5 to the power of the depth |
| Day18.MagnitudeReduced | src/day18.rs:20-22 | the magnitude of a reduced number is at most 5625, so it fits a `u32` |
| Day18.DigitRun | src/day18.rs:243-249 | the digit loop stops at the first non-digit: every character before it is a digit |
| Day18.ScanLiteral | src/day18.rs:238-251 | the digit loop reads the value of the leading run of digits and its length, and fails exactly when the value passes 255 |
| Day18.ParseNumber | src/day18.rs:223-230 | `parse_number` consumes a non-empty prefix and returns the rest of the input |
| Day18.ParseElement | src/day18.rs:232-259 | `parse_element` consumes a non-empty prefix and returns the rest of the input |
| Day18.ParseNumberOf | src/day18.rs:223-230 | `[`, an element, `,`, an element and `]` in turn parse as that pair |
| Day18.ParseShowNumber | src/day18.rs:223-230 | a number written in the puzzle's notation, followed by any rest, parses back to the number and leaves the rest |
| Day18.ParseShowElement | src/day18.rs:232-259 | an element's notation parses back to the element, with a literal's digit run stopping at the next non-digit |
| Day18.FromStrShow | src/day18.rs:214-220 | `from_str` inverts the puzzle's notation for numbers whose literals fit a `u8` |
| Day18.ParseInput | src/day18.rs:261-263 | the lines parse exactly when each line parses, and each number is that line's parse |
| Day18.Part1 | src/day18.rs:265-270 | the answer is the magnitude of the sum of all lines; `None` exactly where a line fails to parse, there are no lines or the sum does not finish; with two or more lines it is at most 5625 |
| Day18.SumMagnitude | src/day18.rs:265-270 | the magnitude of a finished sum of two or more numbers is at most 5625 |
| Day18.MaxPairMagnitude | src/day18.rs:274-284 | the double loop gives the largest magnitude over ordered pairs of different numbers, or 0 when there are none; `None` exactly when some such sum does not finish |
| Day18.Part2 | src/day18.rs:272-285 | the answer bounds the magnitude of every sum of two different numbers, in both orders, and is reached by one of them or is 0; `None` exactly where the source panics or runs out of fuel; it is at most 5625 |
| Day18.ExplodeExample | src/day18.rs:302-308 | `[[[[[9,8],1],2],3],4]` explodes to `[[[[0,9],2],3],4]` |
| Day18.SplitExample | src/day18.rs:340-353 | `[10,0]`, `[11,0]` and `[12,0]` split to `[[5,5],0]`, `[[5,6],0]` and `[[6,6],0]` |
| Day18.MagnitudeExample | src/day18.rs:417-430 | `[9,1]`, `[1,9]`, `[[9,1],[1,9]]` and `[[1,2],[[3,4],5]]` have magnitudes 29, 21, 129 and 143 |
| Day18.MagnitudeReducedExample | src/day18.rs:431-437 | `[[[[0,7],4],[[7,8],[6,0]]],[8,1]]` has magnitude 1384 |
| Day18.MagnitudeSumExample | src/day18.rs:438-458 | the three example sums have magnitudes 445, 791 and 1137 |
| Day18.MagnitudeLargeExample | src/day18.rs:459-465 | the final example sum has magnitude 3488 |
| Day18.ParseExample | src/day18.rs:292-292 | `[[1,9],[8,5]]` parses to that number |
| Day19.Multiply | src/day19.rs:53-68 | `multiply_matrix` gives an `n` by `o` matrix whose entry `(i, j)` is the dot product of row `i` and column `j` |
| Day19.Transpose | src/day19.rs:97-109 | `transpose` gives entry `(i, j)` the entry `(j, i)` |
| Day19.TransposeTwice | src/day19.rs:97-109 | transposing twice gives the matrix back |
| Day19.TransposeExample | src/day19.rs:94-96 | the doc-test: `[[0,1],[-1,0]]` transposes to `[[0,-1],[1,0]]` |
| Day19.MultiplyAssoc | src/day19.rs:53-68 | matrix products are associative |
| Day19.TransposeMultiply | src/day19.rs:53-109 | the transpose of a product is the product of the transposes in reverse order |
| Day19.MultiplyIdentity | src/day19.rs:53-70 | `ID4XD`, the identity, is neutral on both sides of a product |
| Day19.ID4IsIdentity | src/day19.rs:70-70 | `ID4XD` is the 4 by 4 identity |
| Day19.AffineProduct | src/day19.rs:53-68 | a product of affine matrices is affine, and of linear ones linear |
| Day19.OrthogonalProduct | src/day19.rs:53-68 | a product of matrices undone by their transposes is undone by its transpose |
| Day19.X90Rotation | src/day19.rs:71-71 | `X_90` has no translation part and its transpose undoes it |
| Day19.Y90Rotation | src/day19.rs:72-72 | `Y_90` has no translation part and its transpose undoes it |
| Day19.Z90Rotation | src/day19.rs:73-73 | `Z_90` has no translation part and its transpose undoes it |
| Day19.IdentityRotation | src/day19.rs:70-70 | `ID4XD` has no translation part and is its own inverse |
| Day19.RotationProduct | src/day19.rs:53-68 | a product of rotations is a rotation |
| Day19.XRotations | src/day19.rs:78-84 | `x_rotations` holds four 4 by 4 matrices |
| Day19.MainAxes | src/day19.rs:80-85 | `main_axis` holds six 4 by 4 matrices |
| Day19.PowersRotate | src/day19.rs:78-83 | the squares and cubes of a rotation are rotations |
| Day19.XRotationRotates | src/day19.rs:78-84 | every x rotation is a rotation |
| Day19.MainAxisRotates | src/day19.rs:80-85 | every main axis turn is a rotation |
| Day19.RotationAt | src/day19.rs:87-91 | the `k`th matrix, main axis `k % 6` times x rotation `k / 6`, has no translation part |
| Day19.Rotations | src/day19.rs:77-92 | `rotation_matrices` yields 24 matrices, x rotation by x rotation, each main axis times it |
| Day19.RotationsAreRotations | src/day19.rs:77-92 | each of the 24 matrices is undone by its transpose |
| Day19.ApplyFormula | src/day19.rs:172-175 | `apply_transform` gives the first three rows of `t` times `(x, y, z, 1)` |
| Day19.Translation | src/day19.rs:44-51 | `vector_as_translation` is affine |
| Day19.ApplyTranslation | src/day19.rs:44-51 | applying a translation matrix adds its vector |
| Day19.ApplyIdentity | src/day19.rs:70-70 | applying `ID4XD` leaves a point where it is |
| Day19.ApplyOrigin | src/day19.rs:238-238 | the image of the origin is the translation column of the matrix |
| Day19.ColumnOfApply | src/day19.rs:172-175 | under an affine matrix the dropped fourth coordinate stays 1 |
| Day19.ApplyCompose | src/day19.rs:197-197 | applying a product applies the right factor first, so `offset x transform` maps a scanner into the frame of scanner 0 |
| Day19.TransposeLinear | src/day19.rs:151-154 | the transpose of a rotation has no translation part |
| Day19.ApplyRotationInverse | src/day19.rs:151-154 | a rotation and its transpose undo each other on every point |
| Day19.Candidate | src/day19.rs:116-122 | `translation x rotation` is affine |
| Day19.InverseCandidate | src/day19.rs:151-154 | `transpose(rotation) x translation(-offset)` is affine |
| Day19.CandidateMapsAnchor | src/day19.rs:124-132 | both `assert_eq!`s hold: the translation moves the rotated anchor onto `b`'s anchor, and so does the whole transformation |
| Day19.CandidateInverse | src/day19.rs:151-154 | `q` is the image of `p` exactly when the inverse transformation sends `q` back to `p` |
| Day19.CountForward | src/day19.rs:134-145 | the loop succeeds exactly when every beacon of `a` mapped into the cube is a beacon of `b`, and then counts those beacons |
| Day19.CheckBackward | src/day19.rs:156-163 | the loop succeeds exactly when every beacon of `b` sent back into the cube is a beacon of `a` |
| Day19.TryAnchor | src/day19.rs:116-165 | one anchor pair gives its transformation exactly when it passes the forward check, the count of 12 and the inverse check |
| Day19.SearchPartners | src/day19.rs:115-166 | the inner loop returns an accepted candidate for some anchor of `b`, or `None` when no anchor of `b` is accepted |
| Day19.SearchAnchors | src/day19.rs:113-167 | for one rotation: an accepted candidate for some anchor pair, or `None` when no pair is accepted |
| Day19.SearchRotations | src/day19.rs:112-169 | over a list of rotations: an accepted candidate, or `None` when no rotation and pair is accepted |
| Day19.FindOverlap | src/day19.rs:111-170 | `find_overlap` returns a candidate accepted for one of the 24 rotations and some anchor pair, and `None` exactly when none is accepted |
| Day19.BackwardMeaning | src/day19.rs:151-163 | the inverse check means that every beacon of `b` whose preimage lies in the cube is the image of a beacon of `a` |
| Day19.OverlapsAffine | src/day19.rs:165-165 | a returned transformation is affine |
| Day19.OverlapAgrees | src/day19.rs:136-145 | under a returned transformation a beacon of `a` mapped into the cube is a beacon of `b`, and composing with `b`'s transform puts it where `b` puts that beacon |
| Day19.UnplacedAll | src/day19.rs:177-210 | forgetting the transforms keeps each scanner in its place |
| Day19.PlaceOne | src/day19.rs:196-199 | a scanner placed by an accepted transformation from `base` gets an affine transform through `base` |
| Day19.PlaceStep | src/day19.rs:196-199 | placing a scanner keeps the count of scanners and every placed one placed from `base` |
| Day19.KeepStep | src/day19.rs:201-201 | keeping a scanner to do keeps the count, and it overlaps none of the scanners used so far |
| Day19.PlaceFrom | src/day19.rs:192-203 | one pass splits the scanners to do into ones placed from `base` and ones kept, losing and adding none; each kept one overlaps none of the scanners used |
| Day19.PendingStep | src/day19.rs:191-205 | after `base` is used, every pending scanner was placed from a used one |
| Day19.ChainStep | src/day19.rs:191-205 | a turn of the loop keeps every used scanner after the first placed from an earlier one |
| Day19.OrderlyStep | src/day19.rs:191-205 | a turn of the loop keeps the used and pending scanners transformed and chained from scanner 0 |
| Day19.CountStep | src/day19.rs:191-205 | a turn of the loop neither loses nor adds a scanner |
| Day19.StartSplit | src/day19.rs:179-182 | reversing and popping takes scanner 0 and leaves the others to do |
| Day19.ProgressStart | src/day19.rs:179-189 | before the loop: scanner 0 with the identity is pending, and the rest are to do |
| Day19.ProgressStuck | src/day19.rs:207-207 | when the loop ends with scanners to do, the placed scanners and the ones to do make up the input and none to do overlaps a placed one |
| Day19.ProgressDone | src/day19.rs:207-209 | when the loop ends with nothing to do, the used scanners are a placement of all scanners |
| Day19.CalcTransforms | src/day19.rs:177-210 | `calc_transforms` returns every scanner, scanner 0 first with the identity, each later one placed from an earlier one; `None` where the final assert fails, and then the scanners split into a placement from scanner 0 and a non-empty rest of which no scanner overlaps a placed one |
| Day19.ClassifyLine | src/day19.rs:17-33 | a line is blank exactly when it trims to nothing; a beacon line has three non-empty comma-separated parts |
| Day19.Kinds | src/day19.rs:17-33 | every line is classified in order |
| Day19.ReadKindsFailed | src/day19.rs:29-31 | once a line panics, reading more lines does not recover |
| Day19.ReadKindsFails | src/day19.rs:17-34 | reading fails exactly when some line's coordinate does not parse |
| Day19.ReadKindsNumbers | src/day19.rs:18-25 | one scanner is closed per blank line, numbered in order, without a transform |
| Day19.ReadKindsListed | src/day19.rs:28-33 | every beacon read is named by a beacon line |
| Day19.ParseScannersMeaning | src/day19.rs:12-42 | `parse_input` fails exactly when a line panics; otherwise it gives one scanner more than there are blank lines, numbered from 0, none placed, holding only beacons that some line names |
| Day19.ParseInput | src/day19.rs:12-42 | the loop computes `ParseScanners` and always pushes the last scanner |
| Day19.GlobalBeacons | src/day19.rs:217-226 | every beacon of every placed scanner, moved by its transform, is a global beacon |
| Day19.FirstBeaconsGlobal | src/day19.rs:182-183 | scanner 0's beacons are global beacons unchanged |
| Day19.Part1 | src/day19.rs:212-229 | the answer is the number of distinct global beacons of a placement of all scanners; `None` only where the input panics or the scanners split into a closed placement and a rest that overlaps none of it |
| Day19.ManhattanMetric | src/day19.rs:248-250 | `manhattan_distance` is zero exactly on equal points, symmetric, and obeys the triangle inequality |
| Day19.Positions | src/day19.rs:236-239 | each scanner's position is the image of the origin under its transform |
| Day19.FirstAtOrigin | src/day19.rs:182-183 | scanner 0 sits at the origin |
| Day19.MaxFromBound | src/day19.rs:243-244 | no point is further from `a` than the maximum over the points |
| Day19.MaxFromAttained | src/day19.rs:243-244 | some point is exactly the maximum distance from `a` |
| Day19.MaxPairsBound | src/day19.rs:241-245 | no pair of positions is further apart than the maximum over all pairs |
| Day19.MaxPairsAttained | src/day19.rs:241-245 | some pair of positions is exactly the maximum apart |
| Day19.Part2 | src/day19.rs:231-246 | the answer is the largest distance between two scanner positions of a placement of all scanners; `None` only where the input panics or the scanners split into a closed placement and a rest that overlaps none of it |
| Day20.Picture.GetPixel | src/day20.rs:22-33 | the stored pixel for coordinates inside a row; the background pixel for any other, negative ones included |
| Day20.Index | src/day20.rs:67-75 | the 3×3 neighbourhood read row by row as a binary number, first pixel most significant, is below 512 |
| Day20.IndexUniform | src/day20.rs:80-84 | a neighbourhood all dark has index 0 and one all lit has index 511, the two entries the background rule reads |
| Day20.LookupIndex | src/day20.rs:67-75 | the shift-and-or loops over `row` and `col` in -1..=1 compute exactly that index |
| Day20.Enhanced | src/day20.rs:62-87 | reference step: the grid grows by two rows and two columns, stays rectangular, and the background becomes `alg[511]` if lit and `alg[0]` otherwise |
| Day20.EnhancedEverywhere | src/day20.rs:62-87 | for a rectangular grid, every pixel of the enhanced picture, inside the new grid or out of it, is the table entry of its old neighbourhood |
| Day20.EnhancedN | src/day20.rs:89-92 | `n` steps grow the grid by `2n` rows and keep it rectangular; zero steps change nothing |
| Day20.EnhancedIsTruth | src/day20.rs:62-92 | after `n` steps, grid pixel `(r, c)` plus background is pixel `(r - n, c - n)` of the infinite image defined without any grid |
| Day20.WindowIsTruth | src/day20.rs:67-76 | the same holds for whole neighbourhoods |
| Day20.Input.constructor | src/day20.rs:55-59 | the parsed table and grid, with a dark background |
| Day20.Input.ApplyEnhancement | src/day20.rs:62-87 | in-place update: the new grid, background and unchanged table are exactly one reference step |
| Day20.Enhance | src/day20.rs:89-100 | `iterations` in-place steps give the reference picture after that many steps; the result is its lit-pixel count |
| Day20.RowLit | src/day20.rs:94-99 | lit pixels of a row: at most its length, zero exactly when none is lit |
| Day20.LitCount | src/day20.rs:94-99 | lit pixels of a grid: at most its number of pixels, zero exactly when none is lit |
| Day20.CountLit | src/day20.rs:94-99 | the counting loop computes the lit-pixel count |
| Day20.CharToPixel | src/day20.rs:39-45 | `#` is lit, `.` is dark, every other character is an error |
| Day20.ParseRow | src/day20.rs:47-52 | a line parses exactly when all its characters are pixels, into the pixels in order |
| Day20.ParseInput | src/day20.rs:36-60 | accepted exactly when there is a first line and it and every line from the third on parse; the table is the first line, the grid rows are lines 3.. |
| Day20.Solve | src/day20.rs:102-108 | `part1` (2 steps) and `part2` (50 steps): error exactly when parsing fails, otherwise the lit count of the reference picture after the steps |
| Day21.Advance | src/day21.rs:11-14 | the pawn lands on a space in 1..=10 that is `roll` spaces on around the ten-space track, and scores exactly that space |
| Day21.Play | src/day21.rs:53-68 | reference game: it ends with a winner at 1000 or more, a loser below 1000, and a whole number of three-roll turns |
| Day21.TakeThree | src/day21.rs:48-55 | the cycling 1..=100 die, showing the face of roll `rolls`, yields the sum of the next three faces and then shows the face of roll `rolls + 3` |
| Day21.Part1 | src/day21.rs:47-71 | the turn loop ends exactly as the reference game does; the result is the loser's score times the number of rolls |
| Day21.Wins | src/day21.rs:73-103 | uncached reference count of winning universes: every position yields at least one universe |
| Day21.ImmediateWin | src/day21.rs:89-91 | a player on 20 points wins all 27 universes of its next move |
| Day21.SplitTheTimeline | src/day21.rs:73-103 | memoised count equals the uncached count; the cache only grows, keeps every entry equal to the uncached count, and gains the queried position |
| Day21.ThirdDie | src/day21.rs:85-97 | the innermost loop adds exactly the universes of its three roll triples, keeping the cache faithful |
| Day21.OneTriple | src/day21.rs:86-96 | one roll triple: a win at 21, otherwise the swapped counts of the game with the other player to move |
| Day21.Part2 | src/day21.rs:105-110 | the larger win count of the uncached reference, starting from an empty cache |
| Day21.ParseU16 | src/day21.rs:35-42 | `parse::<u16>`: a decimal number below 65536, otherwise an error |
| Day21.ParsePlayer | src/day21.rs:20-44 | accepted exactly when the line has five space-separated fields with u16 numbers in the second and fifth; those are the number and starting space, with zero points |
| Day21.ParseInput | src/day21.rs:17-45 | accepted exactly when the first two lines are players; they are the two players, in order |
| Day22.IsEmpty | src/day22.rs:53-55 | empty exactly when some axis range is empty: then no cube is inside, otherwise the low corner is |
| Day22.Size | src/day22.rs:31-33 | product of the three inclusive range lengths; zero exactly for an empty cuboid |
| Day22.CubesSize | src/day22.rs:31-33 | `size` is the number of cubes in the cuboid |
| Day22.Overlaps | src/day22.rs:43-51 | the cuboid of exactly the cubes both contain, never empty; `None` exactly when they share no cube |
| Day22.RemoveSubCuboid | src/day22.rs:57-102 | for `sub` inside `c`: at most six non-empty, pairwise disjoint cuboids holding exactly the cubes of `c` outside `sub`; sizes sum to `size(c) - size(sub)` |
| Day22.KeepNonEmpty | src/day22.rs:99-101 | `retain` keeps only non-empty cuboids, the same cubes and the same total size |
| Day22.RemoveOverlap | src/day22.rs:35-41 | exactly the cubes of `c` not in `other`, pairwise disjoint; `[c]` unchanged when they do not overlap |
| Day22.CutAll | src/day22.rs:164-167 | the `flat_map` of `remove_overlap` covers the list's cubes minus the cut, and keeps a disjoint list disjoint |
| Day22.Compact | src/day22.rs:171-182 | the compaction fold covers the same cubes with pairwise disjoint cuboids |
| Day22.TracksStep | src/day22.rs:158-169 | one step keeps the on-list covering exactly the lit cubes and the off-list the touched-but-unlit ones |
| Day22.OppositeApart | src/day22.rs:159-167 | after a step, no cuboid of the list it did not add to overlaps the step's cuboid |
| Day22.Perform | src/day22.rs:152-185 | the on-list covers exactly the cubes whose last covering step is "on", the off-list the other touched cubes; both lists pairwise disjoint |
| Day22.DisjointUnionSize | src/day22.rs:196-205 | the sizes of pairwise disjoint cuboids add up to the number of cubes they hold |
| Day22.Clip | src/day22.rs:196-197 | intersecting every cuboid with the region keeps exactly the covered cubes inside it, and disjointness |
| Day22.Part1 | src/day22.rs:187-200 | the number of lit cubes inside the `-50..=50` cube |
| Day22.Part2 | src/day22.rs:202-206 | the number of lit cubes |
| Day22.ParseState | src/day22.rs:136-146 | `Some(On)` exactly for "on", `Some(Off)` exactly for "off", otherwise an error |
| Day22.ParseCuboid | src/day22.rs:105-128 | succeeds only when exactly three `=`/`..` ranges are found, with the parsed bounds in x, y, z order |
| Day22.ParseBounds | src/day22.rs:114-116 | every bound parsed; an error names a bound that does not parse |
| Day22.ParseInstruction | src/day22.rs:11-21 | a parsed line is a space-free state word, a space and a cuboid text, and the instruction holds that state and that cuboid |
| Day22.ParseInstructionParses | src/day22.rs:11-21 | conversely, every state word followed by a space and a cuboid text that parses gives that instruction |
| Day22.ParseInput | src/day22.rs:148-150 | succeeds exactly when every line parses, line by line |
| Day23.DestRoom | src/day23.rs:299-306 | each kind has its own room, one of the four, and the kind of that room is the kind itself |
| Day23.DestRoomOfCrab | src/day23.rs:299-306 | the room of the kind of room `r` is `r`: kinds and rooms are in one-to-one correspondence |
| Day23.StepCost | src/day23.rs:308-316 | a step of a kind costs 10 to the power of its room index: 1, 10, 100, 1000 |
| Day23.StepsIsDistance | src/day23.rs:104-132 | the steps of a move are the hallway distance from the room's door to the spot, plus one step through the door, plus the depth in the room |
| Day23.PassesRoom | src/day23.rs:134-141 | a move crosses a room slot exactly when it lies in the move's own room above the move's room slot |
| Day23.PassesHall | src/day23.rs:143-193 | a move crosses a hallway spot exactly when the spot lies strictly between the room's door and the move's hallway spot |
| Day23.Put | src/day23.rs:30-61 | writing a slot keeps the shape of the state (four rooms of equal depth, two spots at each end) |
| Day23.GetPut | src/day23.rs:20-61 | after writing a slot, that slot reads back the written value and every other slot reads as before |
| Day23.PassesIn | src/day23.rs:134-194 | every slot a move crosses is a slot of the state |
| Day23.Applied | src/day23.rs:233-238 | the state after a move keeps its shape and depth |
| Day23.AppliedSlots | src/day23.rs:233-238 | a move empties its source, puts the source's crab in its target and leaves every other slot unchanged |
| Day23.FinalIsStuck | src/day23.rs:221-274 | in the final state no move is valid |
| Day23.MoveDecreases | src/day23.rs:240-274 | every valid move lowers the count (twice the crabs not yet settled in their room plus the crabs in the hallway) by exactly one |
| Day23.Initial | src/day23.rs:277-288 | the start state has the input's depth, an empty hallway and the input's crab in every room slot |
| Day23.InitialFinal | src/day23.rs:201-231 | the start state is final exactly when every input crab is already in its own room |
| Day23.State.FromInput | src/day23.rs:277-288 | the new state holds the start burrow of the input |
| Day23.State.Clone | src/day23.rs:190-198 | the clone is a new state holding the same slots |
| Day23.State.Store | src/day23.rs:30-61 | writing through a slot changes that slot of the state and nothing else |
| Day23.State.ApplyMove | src/day23.rs:233-238 | the state becomes the burrow after the move and the returned cost is the move's steps times its crab's step cost |
| Day23.HallsInRange | src/day23.rs:349-350 | the seven hallway spots searched are exactly the addressable ones |
| Day23.CandidatesExact | src/day23.rs:352-368 | the candidate moves are exactly both directions between every searched hallway spot and every room slot |
| Day23.KeepValid | src/day23.rs:368-369 | the filter keeps exactly the valid moves among the candidates |
| Day23.KeepValidCount | src/day23.rs:368-369 | each valid move is kept as often as it is listed, each other one not at all |
| Day23.KeepValidSelect | src/day23.rs:368-369 | the kept moves are the listed moves at the positions whose move is valid, in their listed order |
| Day23.SelectAppend | src/day23.rs:368-369 | selecting from two runs is selecting from each in turn |
| Day23.PossibleMoves | src/day23.rs:348-370 | every listed move joins two slots of the state and is valid (Day23.PossibleMovesExact gives the converse) |
| Day23.PossibleMovesExact | src/day23.rs:348-370 | a move is listed exactly when both its ends are slots of the state and it is valid |
| Day23.SolvesStep | src/day23.rs:372-397 | a valid move followed by a solution of the state it leads to is a solution, costing the move's cost more |
| Day23.Simulate | src/day23.rs:372-397 | the best never grows; a new best is the cost of a real solution from the state; with no valid move the best is unchanged |
| Day23.FinalNoMoves | src/day23.rs:221-274 | the final state has no possible moves |
| Day23.TryMove | src/day23.rs:377-395 | one iteration of the search: the best never grows and a new best is the cost of a solution starting with the move |
| Day23.Descend | src/day23.rs:393-394 | recursing after a move that does not finish keeps the best from growing and a new best extends by that move |
| Day23.SolvesLength | src/day23.rs:372-397 | a solution has no more moves than the measure of its start, so the search ends |
| Day23.ParseKind | src/day23.rs:325-331 | a piece parses to a kind exactly when it is that kind's single letter |
| Day23.TrimStart | src/day23.rs:320-321 | what is left is a suffix of the string; everything dropped is the trimmed character, and the result does not start with it |
| Day23.TrimEnd | src/day23.rs:320-321 | what is left is a prefix of the string; everything dropped is the trimmed character, and the result does not end with it |
| Day23.TrimMatches | src/day23.rs:320-321 | the result is no longer than the string and has the trimmed character at neither end |
| Day23.TrimMatchesRuns | src/day23.rs:320-321 | trimming drops exactly the runs of the character around a slice that does not start or end with it |
| Day23.ParseRow | src/day23.rs:323-333 | a row parses to some kinds exactly when its `#`-separated pieces are those kinds' letters |
| Day23.ParseKinds | src/day23.rs:324-333 | the pieces collect to some kinds exactly when they are those kinds' letters |
| Day23.LettersInjective | src/day23.rs:325-331 | different kinds have different letters |
| Day23.Zip | src/day23.rs:335-341 | room `k` holds the `k`-th top crab above the `k`-th bottom crab |
| Day23.ParseInput | src/day23.rs:318-346 | a parsed input has four rooms of depth two |
| Day23.ParseInputRooms | src/day23.rs:318-346 | parsing succeeds exactly when there are four lines and both rows parse to four kinds, and then the rooms pair the two rows |
| Day23.ParseDrawing | src/day23.rs:318-346 | parsing the drawing of a burrow of depth two gives back that burrow |
| Day23.Unfold | src/day23.rs:407-421 | part two keeps each room's top and bottom crab and puts the two folded rows between them |
| Day23.Solve | src/day23.rs:399-404 | a result is the cost of a real solution from the start, with at most as many moves as its measure; a sorted start gives no result |
| Day23.Part1 | src/day23.rs:399-405 | a result is the cost of a solution of the parsed burrow; an already sorted burrow gives no result (the source's unwrap panics) |
| Day23.Part2 | src/day23.rs:407-426 | a result is the cost of a solution of the unfolded burrow |
| Day23.SortedIsFinal | src/day23.rs:201-220 | a burrow whose every room holds only its own kind is final, at every depth |
| Day24.RustIsEuclidean | src/day24.rs:535-541 | on a non-negative stack and the divisor 26, Rust's truncating `/` and `%` are the Euclidean ones |
| Day24.RemOne | src/day24.rs:233-236 | every number leaves remainder 0 when divided by 1, which the `(_, Value(1))` arm of `mod` has to agree with |
| Day24.Apply | src/day24.rs:183-266 | an operation on two numbers fails exactly when it is `div` or `mod` by zero, where Rust panics |
| Day24.EvalExtend | src/day24.rs:186-197 | appending a shared expression at index `shared.len()` leaves the value of every existing register state unchanged |
| Day24.Fold | src/day24.rs:183-266 | constant folding panics exactly on a constant `div` or `mod` by the constant zero, and when it folds to an expression or an input it is one of the two operands |
| Day24.FoldAsWritten | src/day24.rs:233-236 | the folding as written differs from the corrected folding exactly on `mod` of a non-constant by `Value(1)` |
| Day24.Step | src/day24.rs:171-268 | an instruction only appends to `shared`, reads one more input exactly on `inp`, and changes no register but its first argument |
| Day24.FoldSound | src/day24.rs:183-266 | every folding arm gives the value the operation computes on the values of its operands, for digit inputs |
| Day24.MulFoldSound | src/day24.rs:199-202 | the `mul` arms: a zero operand gives zero and a one operand gives the other |
| Day24.DivFoldSound | src/day24.rs:216-219 | the `div` arms: zero divided by anything is zero, and division by one is the identity |
| Day24.ModFoldSound | src/day24.rs:233-236 | the `mod` arms, with the corrected remainder by one, agree with Rust's `%` |
| Day24.EqlFoldSound | src/day24.rs:250-253 | the `eql` arms: a constant outside 0..=9 never equals a digit input, and an input equals itself |
| Day24.StepSound | src/day24.rs:171-268 | when the machine can run an instruction on digit inputs, the symbolic step succeeds, keeps the state well formed, and every register still evaluates to the machine's register |
| Day24.RunSound | src/day24.rs:271-274 | the same for a whole program: the translated registers, `z` among them, evaluate to what the machine computes |
| Day24.StartAgrees | src/day24.rs:145-154 | the initial state, all registers `Value(0)`, agrees with the machine's zeroed registers |
| Day24.ModOneAsWritten | src/day24.rs:233-236 | as written, `inp w; mod w 1` folds `w` to `Value(1)` while the machine holds 0 for the input 5 |
| Day24.ModOneCorrected | src/day24.rs:233-236 | the corrected arm folds a remainder by one to the value `%` computes |
| Day24.AluState.New | src/day24.rs:145-154 | a new state has every register `Value(0)`, no input read and nothing shared |
| Day24.AluState.NextInput | src/day24.rs:165-169 | hands out the current input index and advances it by one, changing nothing else |
| Day24.AluState.SetRegister | src/day24.rs:156-163 | writes exactly the named register |
| Day24.AluState.ApplyInstruction | src/day24.rs:171-268 | the new state is the symbolic step of the old one, and the call fails exactly where the source panics |
| Day24.Translate | src/day24.rs:271-274 | applying every instruction in order to a new state gives the run of the program from the start state |
| Day24.PushPop | src/day24.rs:529-541 | a pop whose digit is the pushed digit plus `LOOKUP1[i] + LOOKUP2[j]` restores the stack, and any other digit replaces the top |
| Day24.BlockPush | src/day24.rs:371-384 | a block of the generated code without division is `process_no_div` on digit inputs |
| Day24.BlockPop | src/day24.rs:371-384 | a block of the generated code with division is `process_with_div` on digit inputs |
| Day24.Equivalent | src/day24.rs:371-559 | the generated code `part1_fn` and the stack version `part1_fn2` agree on every input of digits |
| Day24.EquivalentBack | src/day24.rs:371-559 | the last seven blocks of `part1_fn` agree with the last seven stages of `part1_fn2` |
| Day24.Pairings | src/day24.rs:314-345 | the differences the search loops assert between each pushed digit and the digit that pops it |
| Day24.PairedAccepted | src/day24.rs:543-559 | digits that follow the asserted pairings empty the stack, so `part1_fn2` gives 0 |
| Day24.FromDigitsGrow | src/day24.rs:352-352 | appending a digit multiplies the folded number by ten and adds the digit |
| Day24.DecimalDigits | src/day24.rs:292-301 | the decimal digits of a number are at least one and each is a digit |
| Day24.DecimalDigitsValue | src/day24.rs:292-301 | folding the decimal digits back gives the number |
| Day24.ToDigits | src/day24.rs:292-301 | succeeds exactly on a non-negative number of fourteen digits, and then gives fourteen digits |
| Day24.ToDigitsValue | src/day24.rs:292-301 | the digits of `to_digits` fold back into the serial number |
| Day24.EquivalentTest | src/day24.rs:628-634 | 13579246899999 has the fourteen digits 1,3,5,7,9,2,4,6,8,9,9,9,9,9, on which `part1_fn` and `part1_fn2` agree |
| Day24.Candidate | src/day24.rs:303-355 | the loop body's digits start with 1 and follow the asserted pairings |
| Day24.CandidateAccepted | src/day24.rs:303-368 | every candidate within the loop ranges is made of digits accepted by both `part1_fn2` and `part1_fn`, so the first candidate is returned |
| Day24.Part1 | src/day24.rs:303-368 | the answer is the serial number of the first candidate of the descending loops, which is accepted |
| Day24.Part2 | src/day24.rs:561-626 | the answer is the serial number of the first candidate of the ascending loops, which is accepted |
| Day24.SerialValue | src/day24.rs:352-352 | the fold of fourteen digits is the number they spell |
| Day24.Part1Full | src/day24.rs:636-639 | the answer of part 1 is 12996997829399 |
| Day24.Part2Full | src/day24.rs:641-644 | the answer of part 2 is 11841231117189 |
| Day25.Behind | src/day25.rs:52-75 | the cell a member of the herd would come from wraps around the row (east-facing) or the column (south-facing) and stays on the grid |
| Day25.Ahead | src/day25.rs:52-75 | the cell ahead stays on the grid and has the given cell behind it |
| Day25.AheadOfBehind | src/day25.rs:52-75 | going behind and then ahead returns to the same cell: the wrap-around is a bijection |
| Day25.MovedCell | src/day25.rs:49-90 | a cell after a herd moves: an empty cell with a member behind receives it, a member with an empty cell ahead leaves, all else stays |
| Day25.FixedIff | src/day25.rs:47-96 | a step changes nothing exactly when neither the east-facing herd nor then the south-facing herd moves |
| Day25.MovedWitness | src/day25.rs:56-79 | a herd move that changes the grid fills some previously empty cell with a member of the herd |
| Day25.CollectEmpty | src/day25.rs:28-39 | the initial list holds exactly the empty cells |
| Day25.PlanMoves | src/day25.rs:49-85 | every planned move goes from a member of the herd into the empty cell ahead of it, every empty cell with a member behind is planned, the next list names the vacated cell in place of each filled one, and `not_moved` is cleared exactly when a move is planned |
| Day25.MovesExact | src/day25.rs:49-65 | a cell is a planned target exactly when it is empty with a member behind it, and a planned origin exactly when it holds a member with an empty cell ahead |
| Day25.NotBoth | src/day25.rs:56-61 | no cell is both the target and the origin of planned moves, so the moves apply in any order |
| Day25.ApplyStep | src/day25.rs:67-90 | applying one more move sets its origin empty and its target to the herd, extending the applied prefix |
| Day25.Apply | src/day25.rs:66-90 | after all moves, exactly the targets hold the herd, the origins are empty, and every other cell is unchanged; the board holds as many of each herd and as many empty cells as before |
| Day25.SpotsUpdate | src/day25.rs:67-70 | writing one cell trades that cell's spot for the written one in the grid's count of spots |
| Day25.MoveEnds | src/day25.rs:56-61 | when a planned move is applied, its origin still holds the herd and its target is empty, or an earlier copy of the move already swapped them |
| Day25.SwapKeepsSpots | src/day25.rs:67-70 | emptying the origin and filling the target gains or loses no spot |
| Day25.MoveKeepsSpots | src/day25.rs:67-70 | applying one planned move keeps the number of each herd and of the empty cells |
| Day25.AppliedIsMoved | src/day25.rs:49-90 | applying the planned moves gives the simultaneous move of the whole herd |
| Day25.PlannedIffChanged | src/day25.rs:58-78 | some move is planned exactly when the herd's move changes the grid |
| Day25.VacatedLists | src/day25.rs:57-81 | after the herd moves, the rebuilt list again holds exactly the empty cells |
| Day25.MoveHerd | src/day25.rs:49-90 | one herd's phase yields the simultaneous move, a list of exactly its empty cells, and `moved` exactly when the grid changed; no cucumber appears or disappears |
| Day25.StepOnce | src/day25.rs:46-96 | one pass of the loop is one reference step; `not_moved` holds exactly when the step changed nothing; each herd keeps its size |
| Day25.KeptMovingMeans | src/day25.rs:46-97 | the loop's "kept going" condition holds exactly when each earlier step changed the grid |
| Day25.Part1 | src/day25.rs:25-100 | the result is the number of the first step that changes nothing, every earlier step having changed the grid; with no such step within the bound, every step up to it changed the grid |
| Day25.ParseSpot | src/day25.rs:14-19 | `v`, `>` and `.` map to down, right and empty; any other character is rejected |
| Day25.ParseInput | src/day25.rs:9-23 | parsing succeeds exactly when every character is a spot, and yields one row per line with one spot per character |

## Left out

- Common.Trim: drops exactly four characters: space, tab, line feed and carriage return. It keeps vertical tab (U+000B), form feed (U+000C) and every other Unicode `White_Space` character, all of which Rust's `str::trim` drops.
- Day1.ParseInput: readings are unbounded naturals; a reading above `u32::MAX`, which makes `parse().unwrap()` panic, is accepted.
- Day1.Part2: the `u32` window sums (src/day1.rs:43-53) are unbounded in the model, so their overflow is not modelled.
- Day2.Part1: distances, depth and aim are `i32` in the source; the model uses unbounded integers, so overflow is not modelled.
- Day2.Part2: distances, depth and aim are `i32` in the source; the model uses unbounded integers, so overflow is not modelled.
- Day3.Part1: requires a non-empty report whose lines are no longer than the first and shorter than 32 bits; the source panics on an empty report (`peek().unwrap()`) and on a longer line (`BITS[idx]`), and a width of 32 or more overflows its `u32` shifts.
- Day3.Part1: the product gamma × epsilon (src/day3.rs:53) is an unbounded integer; its `u32` overflow is not modelled.
- Day3: the `println!` of gamma, epsilon and the mask is left out.
- Day3.Part2: the product is an unbounded integer; `u32` overflow is not modelled.
- Day3.Part2: `result |= 1 << idx` (src/day3.rs:102) overflows `u32` when a '1' of the rating line sits 32 or more places from its right end (a debug build panics); the model gives the unbounded binary value instead.
- Day3.Part2: the source works on the bytes of each line (`as_bytes`, src/day3.rs:4), so a non-ASCII character counts as several columns; the model counts characters, so it agrees only on ASCII input.
- Day3.LineValue: the value is an unbounded natural; the `u32` overflow of `1 << idx` for a '1' 32 or more places from the right, and the byte columns of non-ASCII characters, are not modelled.
- Day4.ProcessBoard: requires every number of the board to be drawn; the source's `position(..).unwrap()` panics otherwise.
- Day4.Both: requires at least one board; the source's `boards.next().unwrap()` panics on none.
- Day4: the score is an unbounded integer; `u32` overflow is not modelled.
- Day4.ParseInput: drawn numbers are unbounded naturals; a number above `u32::MAX`, which makes the `parse()` and `unwrap()` fail (src/day4.rs:30-32), is accepted.
- Day4.ParseBoardLine: board numbers are unbounded naturals; a number above `u32::MAX`, which makes `parse().unwrap()` panic (src/day4.rs:18), is accepted.
- Day5.Both: requires every selected line to have a positive length; `point` divides by `length()` and the source panics on a line whose two ends coincide.
- Day5: coordinates are unbounded naturals; `u32` overflow in `idx * x_diff()` is not modelled.
- Day6.Both: requires every timer to be below 9; the source panics indexing the queue with a larger timer.
- Day6: the `println!` of each day's count is left out; counts are unbounded, so `usize` overflow is not modelled.
- Day6: the example answers 5934 and 26984457539 are not evaluated.
- Day7.Part1: require at least one position; the source panics on none (`iter[len / 2]`, `first().unwrap()`).
- Day7.Part2: require at least one position; the source panics on none (`iter[len / 2]`, `first().unwrap()`).
- Day7: costs are unbounded integers; the `i32` sums and `dist * (dist + 1)` in `cost` can overflow in the source, which is not modelled.
- Day8: the debugging `println!` calls in `part1` are not modelled.
- Day8.Decode: a display whose patterns do not contain the ten digits gives `None` where the source panics in `unwrap`.
- Day9.ParseInput: a character whose byte is below `'0'` gives `None`, standing for the subtraction overflow that panics in a debug build; a release build's wrap-around is not modelled.
- Day9: `u32` and `usize` sums and products are unbounded integers here; overflow is not modelled.
- Day10.Part2: with no incomplete line the source indexes an empty vector and panics; the model returns `None` there.
- Day10: `usize` completion scores are unbounded integers here; overflow of `acc * 5` on very long lines is not modelled.
- Day11.Part2: the source loops until every octopus flashes at once; the model stops after `fuel` steps and returns `None`, so a grid that never synchronises is not modelled as a non-terminating loop.
- Day11: levels are unbounded integers; `u8` overflow would need more than 245 flashes around one cell in one step, which the grid of 8 neighbours cannot reach, so it is not modelled.
- Day11.ParseLine: a character whose byte is below `'0'` gives `None`, standing for the subtraction overflow that panics in a debug build; a release build's wrap-around is not modelled.
- Day12.Part1: require that no two big caves are adjacent; the source loops forever on such a graph, which is not modelled.
- Day12.Part2: require that no two big caves are adjacent; the source loops forever on such a graph, which is not modelled.
- Day12.Part1: a passage listed twice in the input is followed twice, so routes through it are counted twice, as in the source; distinctness of the counted routes is proved only when no passage is listed twice.
- Day12.Part2: a passage listed twice in the input is followed twice, so routes through it are counted twice, as in the source; distinctness of the counted routes is proved only when no passage is listed twice.
- Day12.Part1: a graph without "start" gives `None` where the source panics in `unwrap`.
- Day12.Part2: a graph without "start" gives `None` where the source panics in `unwrap`.
- Day12: a cave name is big when its first character is an ASCII upper-case letter; Unicode upper case is not modelled.
- Day12.Part1: an empty cave name, from a line that starts or ends with `-`, counts as a small cave; the source panics in `chars().next().unwrap()` (src/day12.rs:40) when the search reaches it, which is not modelled.
- Day12.Part2: an empty cave name, from a line that starts or ends with `-`, counts as a small cave; the source panics in `chars().next().unwrap()` (src/day12.rs:40, 68) when the search reaches it, which is not modelled.
- Day12.Part1: the route count is an unbounded natural; the `u32` counter of `no_duplicates` (src/day12.rs:24-49) could overflow, which is not modelled.
- Day12.Part2: the route count is an unbounded natural; the `u32` counter of `at_most_one_duplicate` (src/day12.rs:51-83) could overflow, which is not modelled.
- Day13.ParseFold: an axis other than "x" or "y" gives `None` where the source panics with "invalid fold".
- Day13.Part1: a fold whose `2 * line` or `2 * line - coordinate` leaves `u16` gives `None`; the source panics in a debug build and wraps in a release build, which is not modelled.
- Day13.Part2: a fold whose `2 * line` or `2 * line - coordinate` leaves `u16` gives `None`; the source panics in a debug build and wraps in a release build, which is not modelled.
- Day13.Part2: the rendered picture is returned as a string; reading the letters in it is not modelled.
- Day14: the pair and element counts are unbounded (multisets); `u64` overflow of the counts is not modelled.
- Day14.ParseRule: a rule with fewer than two pattern characters or no inserted character gives `None`, standing for the source's `unwrap` panic.
- Day14.Polymer.ApplyMapping: the `HashMap` iteration order is not modelled; the loop visits the keys in an arbitrary order and the result is proved not to depend on it.
- Day15.Part1: a map whose rows are not all as long as the number of rows gives `None`; the source also accepts rows longer than that, which is not modelled.
- Day15.Part2: a map whose rows are not all as long as the number of rows gives `None`; the source also accepts rows longer than that, which is not modelled.
- Day15.Traverse: a risk whose `base + shift - 1` underflows `u32` gives `None`; the source panics in a debug build and wraps in a release build, which is not modelled. `u32` overflow of the total cost is not modelled.
- Day15.Cheapest: which of several candidates of equal lowest cost `min_by_key` picks depends on the `HashMap` order; the model picks any of them and the result is proved not to depend on it.
- Day16.Eval: sums and products are unbounded integers; the `usize` overflow of `sum()` and `product()` (src/day16.rs:152, src/day16.rs:157) is not modelled.
- Day16.Part1: the version sum is an unbounded integer; `u32` overflow is not modelled.
- Day16: the bit stream's laziness is modelled by a stream that is poisoned after the first non-hex character; only reading into it panics, as in the source.
- Day16.Decode: the hex examples of the tests (src/day16.rs:217-311) are not evaluated; Day16.RoundTrip covers decoding for every well-formed packet, but its encoding writes literals in sixteen groups, so the examples' shorter encodings are not instances of it.
- Day16.ParseNumber: `as u8` truncation of the 3-bit version and type id changes nothing, since three bits are below 256.
- Day17: positions, velocities and heights are unbounded integers; `i32` overflow is not modelled.
- Day17.Part1: the answer is tied to every hitting launch only for a target right of and below the launch point, as the puzzle's targets are; for other targets the source's velocity ranges can miss hits, and the model follows the source.
- Day17.Part2: the count is tied to every hitting launch only for a target right of and below the launch point, as the puzzle's targets are; for other targets the source's velocity ranges can miss hits, and the model follows the source.
- Day17.PossibleVectors: the set of vectors is the same whatever order `HashSet` iterates in; the order is not modelled.
- Day18.Reduction: `reduce` is modelled with a `fuel` bound on its rewrites, and `OutOfFuel` where the bound runs out, because termination of the explode-and-split loop is not proved.
- Day18.Explode: literals are unbounded, so the `u8` overflow of `+=` into a neighbouring literal (src/day18.rs:96, src/day18.rs:110) is not modelled; it cannot happen from single-digit inputs.
- Day18.Halves: `(*x + 1) / 2` overflows a `u8` for a literal of 255 (src/day18.rs:138); the model gives 128.
- Day18.SnailNumber.Depth: `depth` is a `u8` and `magnitude` a `u32`; the model uses unbounded integers, and Day18.MagnitudeReduced shows a reduced magnitude fits.
- Day18.ParseElement: the `println!` of an unexpected character is not modelled.
- Day18.Part2: numbers are compared by value, as `x != y` does, so two equal lines are never paired.
- Day18.Explode: of the explosion tests (src/day18.rs:301-337) only the first, where the exploding pair is the leftmost one, is proved as Day18.ExplodeExample; the four whose explosion comes out of a right child are not evaluated.
- Day18.Add: the reduction test `[[[[4,3],4],4],[7,[[8,4],9]]] + [1,1]` (src/day18.rs:356-365), the sums of the example files (src/day18.rs:367-414) and the answers 4140 and 3993 (src/day18.rs:468-484) are not evaluated; the example files are not part of this model.
- Day19: matrix entries and coordinates are unbounded integers; `isize` overflow is not modelled.
- Day19.FindOverlap: `HashSet` iteration order is not modelled; the loops take the beacons in an arbitrary order, so the model claims only that the returned transformation is an accepted one.
- Day19.CalcTransforms: requires at least one scanner, which `parse_input` always provides; the source's `pop().unwrap()` would panic on none.
- Day19.CalcTransforms: the `_number` field is kept but unused, as in the source.
- Day19.Part1: when the placement succeeds, it claims only that the answer comes from some placement of all scanners, because which placement depends on the `HashSet` order; the example answer 79 needs the example scanners and is not evaluated.
- Day19.Part2: when the placement succeeds, it claims only that the answer comes from some placement of all scanners, because which placement depends on the `HashSet` order; the example answer 3621 needs the example scanners and is not evaluated.
- Day22: `size` and the sums in `part1`/`part2` are `usize` in the source; the model uses unbounded integers, so overflow is not modelled.
- Day22.RemoveSubCuboid: bounds are unbounded integers; the `isize` arithmetic `start() - 1` and `end() + 1` (src/day22.rs:59-96) could overflow at the ends of the `isize` range, which is not modelled.
- Day21.Part1: requires starting spaces in 0..=10, as the puzzle input gives; larger `u16` starting spaces are accepted by the source but not modelled.
- Day21.Part2: requires starting spaces in 0..=10 and scores below 21, as above.
- Day21: scores and positions are `u16` and the win counts `u64` in the source; the model uses unbounded integers (no overflow is reachable for starting spaces in 1..=10).
- Day21: the example results of the tests (745 * 993 and 444356092776315) need hundreds of game turns or the full universe tree to evaluate and are not proved.
- Day21.Player: the source mutates a `Player` in place (`advance_by(&mut self)`) but also clones and hashes it as a cache key; the model treats it as a value.
- Day20.Input.ApplyEnhancement: requires a table of at least 512 entries and a non-empty grid. The source panics on an empty grid (`input.image[0]`, src/day20.rs:63). It reads only the table entries it indexes (src/day20.rs:76, 81, 83), so a shorter table panics only when a neighbourhood's index or the background's entry reaches past its end (table "." on an all-dark grid never does); such runs are not modelled.
- Day20.Enhance: requires a table of at least 512 entries (and a non-empty grid when `iterations > 0`); the source also runs with a shorter table as long as no step indexes past its end, which is not modelled.
- Day20.Solve: requires the parsed table to have at least 512 entries (and a non-empty grid when `iterations > 0`); the source also runs with a shorter table as long as no step indexes past its end, which is not modelled.
- Day20: the `Display` implementation (printing the grid) is not modelled; it is output only.
- Day20: the example results 35 and 3351 need the 512-character example table and 50 enhancement steps; they are not evaluated.
- Day20.EnhancedIsTruth: stated for rectangular grids only; with ragged rows the source drops pixels of rows longer than the first, which the model computes but does not relate to the infinite image.
- Day25.Part1: the source loops until nothing moves and never returns when the herds keep moving for ever; the model bounds the loop by a `fuel` argument and returns `None` when the bound is reached.
- Day25.Part1: requires a rectangular grid; the source indexes rows by the width of each row and by the number of rows, and on ragged rows its south-facing phase can index past the end of a shorter row and panic.
- Day25: the source mutates the board in place through `game_board[..][..] = ...`; the model's board is a value that `Apply` rebuilds one move at a time.
- Day25: `part2` only prints a message and returns 0; it is not modelled.
- Day25: the example result 58 needs 58 steps of the example grid and is not evaluated.
- Day23.Simulate: does not claim the result is the cheapest solution. The `break` after the first move that reaches the final state rests on a comment's heuristic, not on a checked argument, so only "every result is the cost of a real solution" is proved.
- Day23: costs are unbounded integers; `usize` overflow is not modelled.
- Day23: a `Left`/`Right` index of 2 or more would panic in the source; the model only builds moves with the indices 0 and 1 that `possible_moves` uses (`HallInRange`).
- Day23: the `depth` argument of `simulate` is passed along but unused, as in the source.
- Day23.ParseInput: a missing line, a piece that is not a kind, or a row of another length panics in the source; the model returns `None`.
- Day23.Part1: the example answer 12521 and the full puzzle answer are not evaluated; the search is too large for the verifier.
- Day23.Part2: the example answer 44169 and the full puzzle answer are not evaluated; the search is too large for the verifier.
- Day23: `Clone` is modelled as a fresh `State` built from the same slot values; the `Debug`/`Ord` derives are left out.
- Day24: numbers are unbounded integers; `isize` overflow in the folded constants and in `part1_fn` is not modelled.
- Day24: the `Display` impls and the text that `part1_instructions_to_code` prints are left out; the model keeps the translated state, whose `z` is the printed expression.
- Day24: `shared` holds `Weak` references and the printer skips expressions no register still reaches; the model keeps every expression, indexed by position, in place of `Rc`/`Weak`.
- Day24: `parse_register`, `parse_arg2`, `parse_operator` and `parse_input` are not modelled; the translation starts from instructions, and the puzzle input is not part of this model.
- Day24.Part1: the nested search loops are modelled by the candidate their first iteration builds; `CandidateAccepted` shows every candidate in the loop ranges is accepted, so the loops return at once and their `panic!` is unreachable.
- Day24.Part2: the nested search loops are modelled by the candidate their first iteration builds; `CandidateAccepted` shows every candidate in the loop ranges is accepted, so the loops return at once and their `panic!` is unreachable.
- Day24.ToDigits: `to_string` and `c as u8 - b'0'` are modelled as the decimal digits of the number; a negative number, whose minus sign underflows the subtraction, gives `None`.
- Day24.StepSound: hold for digit inputs (0 to 9), which the `eql` folding assumes; the model does not claim soundness for other inputs.
- Day24.RunSound: hold for digit inputs (0 to 9), which the `eql` folding assumes; the model does not claim soundness for other inputs.

## Findings

| source | as written | input that shows it | evidently intended | confidence | as-written member | corrected member |
|---|---|---|---|---|---|---|
| src/day24.rs:236 | the `Mod` arm folds `(_, Value(1))` to `Value(1)` | `inp w` then `mod w 1` with the input 5: the fold leaves 1 in `w`, the machine 0 | `x % 1` folds to `Value(0)` | not executed | Day24.ModOneAsWritten | Day24.ModOneCorrected |

The model of `AluState` uses the corrected fold (`Day24.Fold`); `Day24.FoldAsWritten` keeps the arm as written for the finding.
