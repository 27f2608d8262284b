# Advent of Code 2023 solutions, modelled in Dafny

This project models the Rust solutions to the Advent of Code 2023 puzzles in the
repository `aoc-23` (`src/bin/01.rs` … `src/bin/25.rs`, all except day 24). Each day
reads a puzzle text and computes the answers to its two parts. Each day file becomes one
Dafny module, `dayNN.dfy`:

| file | module | what it models |
|---|---|---|
| day01.dfy | Day01Calibration | first and last digit of a line, with spelled-out digits in part two |
| day02.dfy | Day02Cubes | parsing cube games, the validity limits (12 red, 13 green, 14 blue) and the per-colour maxima |
| day03.dfy | Day03Gears | the line scanner for numbers and symbols, part numbers and gear ratios |
| day04.dfy | Day04Scratchcards | card matches, scores and the in-place copying of instances |
| day05.dfy | Day05Almanac | range remapping, composed group by group over the seeds and the seed ranges |
| day06.dfy | Day06Races | `hold × (time - hold)` and the count of winning holds |
| day07.dfy | Day07CamelCards | labels, hand types, joker substitution, the hand order and the ranked bid sum |
| day08.dfy | Day08Network | the network parser, the left/right walk and the lcm fold |
| day09.dfy | Day09Oasis | difference rows and the extrapolation both ways |
| day10.dfy | Day10PipeMaze | pipe tiles, the loop walk and the parity scan of the enclosed tiles |
| day11.dfy | Day11Galaxies | empty rows and columns, expansion and the pairwise Manhattan sum |
| day12.dfy | Day12Springs | spring states, run lengths, the enumeration of arrangements, unfolding and normalisation |
| day13.dfy | Day13Mirrors | the mirror-line search over rows and over the rotated grid |
| day14.dfy | Day14Reflector | rolling rocks in a column map, the load, tilting and transposition |
| day15.dfy | Day15Hash | the HASH fold and its sum over the steps |
| day16.dfy | Day16Lava | mirrors and splitters, the beam front loop and the energised tiles |
| day17.dfy | Day17Crucible | the successor, heuristic and goal rules of the crucible search |
| day18.dfy | Day18Lagoon | the dig plan, the border and the scanline count of the interior |
| day19.dfy | Day19Aplenty | workflows, sending parts, splitting 4-D rating boxes and summing accepted volumes |
| day20.dfy | Day20Pulses | flip-flop, conjunction and broadcast modules as objects, and the pulse rounds |
| day21.dfy | Day21Steps | wrapped garden lookups, the step loop and the sliding extrapolation window |
| day22.dfy | Day22Bricks | brick parsing, settling and the safe-to-remove count |
| day23.dfy | Day23Hike | trail tiles, successors, the round-by-round search and the junction graph |
| day25.dfy | Day25Snowverload | wire links, breadth-first groups and the component split |

`prelude.dfy` (module `Prelude`) holds the parts of Rust's standard library the
solutions lean on, over `string = seq<char>`: `split` for a pattern and for one character,
`lines`, `trim`, `parse` on unsigned and signed integers, `unique`, and sums. A panic of the
program (an `unwrap` on `None` or `Err`, an explicit `panic!`, an index out of range on
data the program reads) is modelled as `None` in an `Option` result. Integers are
unbounded. Loops the source runs with no bound (`while` until a state is reached) take a
`fuel` step count and report when it runs out. Where the source updates state step by
step (day 3's scanner, day 4's instances, day 14's map, day 20's modules, the loops of
days 8, 10, 11, 16, 19, 21, 22, 23 and 25) the model is a method with a loop, proved against a
function that states what the loop computes.

## Model

| member | source | states |
|---|---|---|
| Prelude.PushAll | src/bin/23.rs:79-81 | a loop pushing every item yields the list followed by the items, in order |
| Prelude.Split | src/bin/05.rs:44 | `split` on a non-empty pattern always yields at least one piece |
| Prelude.JoinSplit | src/bin/05.rs:44 | splitting loses nothing: the pieces joined with the pattern give the text back |
| Prelude.SplitAbsent | src/bin/05.rs:44 | a text without the pattern's first character is one piece |
| Prelude.SplitAt | src/bin/05.rs:44 | the text before the first occurrence of the pattern is the first piece and the rest is split further |
| Prelude.SplitChar | src/bin/02.rs:24 | `split(' ')` yields at least one piece and no piece contains the separator |
| Prelude.SplitCharPieces | src/bin/02.rs:24 | no piece of a single-character split contains that character |
| Prelude.SplitCharAbsent | src/bin/02.rs:24 | a text without the separator is a single piece |
| Prelude.SplitCharAt | src/bin/02.rs:24 | the text up to the first separator is the first piece |
| Prelude.SplitCharJoin | src/bin/02.rs:24 | splitting pieces joined by a character none of them contains gives the pieces back |
| Prelude.Lines | src/bin/01.rs:5 | `lines()` yields no piece containing a newline, and nothing for the empty text |
| Prelude.TrimStart | src/bin/02.rs:30 | the result is a suffix of the text that does not start with whitespace |
| Prelude.TrimEnd | src/bin/02.rs:30 | the result is a prefix of the text that does not end with whitespace |
| Prelude.Trim | src/bin/02.rs:30 | `trim()` yields a text no longer than the input with no whitespace at either end |
| Prelude.CollapseWhitespace | src/bin/04.rs:14 | replacing `\s+` by one space keeps a non-whitespace first character, leaves only spaces as whitespace and never two spaces in a row |
| Prelude.Remove | src/bin/06.rs:20 | `replace(' ', "")` leaves no occurrence of the character and never lengthens the text |
| Prelude.ParseNat | src/bin/01.rs:18 | `parse::<u32>()` succeeds exactly on an optional '+' followed by one or more ASCII digits |
| Prelude.ParseInt | src/bin/09.rs:56 | `parse::<i32>()` reads a plain digit string as its value and fails on the empty text |
| Prelude.NatToString | src/bin/01.rs:18 | the decimal text of a number is a non-empty digit string |
| Prelude.DigitsOfNat | src/bin/01.rs:18 | the digits of a number's decimal text have that number as their value |
| Prelude.ParseNatToString | src/bin/01.rs:18 | parsing a number's decimal text gives the number back |
| Prelude.ParseNats | src/bin/04.rs:21 | parsing a list of pieces succeeds with one number per piece, each the parse of its piece, or fails because some piece fails |
| Prelude.ParseNatsOf | src/bin/04.rs:21 | pieces that each parse give exactly their numbers |
| Prelude.ParseInts | src/bin/09.rs:56 | parsing a list of signed pieces succeeds with one number per piece, each the parse of its piece |
| Prelude.SumAppend | src/bin/01.rs:22 | the sum of a concatenation is the sum of the sums |
| Prelude.SumNonNegative | src/bin/01.rs:22 | a sum of non-negative numbers is non-negative |
| Prelude.Dedup | src/bin/21.rs:109 | `unique()` keeps exactly the elements of the input, each once |
| Prelude.DedupFrom | src/bin/21.rs:109 | deduplicating after already-seen elements keeps them as a prefix, keeps exactly the elements of both and repeats none |
| Day01Calibration.Digits | src/bin/01.rs:7-10 | the filtered string holds only ASCII digits, and a character is in it exactly when it is a digit of the line |
| Day01Calibration.DigitsAppend | src/bin/01.rs:7-10 | filtering distributes over concatenation of lines |
| Day01Calibration.LineValue | src/bin/01.rs:6-20 | a line's value is missing (the `unwrap` panics) exactly when the line has no digit; otherwise it is at most 99 |
| Day01Calibration.DigitsNone | src/bin/01.rs:7-12 | a line without digits filters to the empty string |
| Day01Calibration.FirstDigitOf | src/bin/01.rs:7-12 | the first filtered character is the line's first digit |
| Day01Calibration.LastDigitOf | src/bin/01.rs:7-13 | the last filtered character is the line's last digit |
| Day01Calibration.LineValueFirstLast | src/bin/01.rs:12-19 | the value is ten times the first digit of the line plus its last digit |
| Day01Calibration.LineValueSingleDigit | src/bin/01.rs:12-19 | a line with one digit d has value 11·d |
| Day01Calibration.SumValues | src/bin/01.rs:4-23 | the sum exists exactly when every line has a value |
| Day01Calibration.PartOne | src/bin/01.rs:3-24 | part one answers exactly when every line holds a digit |
| Day01Calibration.SpellingsWellFormed | src/bin/01.rs:35-44 | the table has 18 entries, each with a value from 1 to 9 |
| Day01Calibration.FindFrom | src/bin/01.rs:48 | `find` returns the leftmost occurrence at or after the start, and None only when there is none |
| Day01Calibration.RFindBelow | src/bin/01.rs:56 | the rightmost occurrence below a bound, and None only when there is none |
| Day01Calibration.RFind | src/bin/01.rs:56 | `rfind` returns the rightmost occurrence, and None only when the text never occurs |
| Day01Calibration.FindIffRFind | src/bin/01.rs:48-57 | a spelling is found from the left exactly when it is found from the right |
| Day01Calibration.CandidateOrigin | src/bin/01.rs:46-49 | every candidate kept by the filter comes from a table entry found at that index |
| Day01Calibration.CandidateComplete | src/bin/01.rs:46-49 | every table entry found in the line contributes its candidate |
| Day01Calibration.MinByKey | src/bin/01.rs:50 | `min_by_key` picks a candidate whose index is least |
| Day01Calibration.MaxByKey | src/bin/01.rs:58 | `max_by_key` picks a candidate whose index is greatest |
| Day01Calibration.ConvertWithNone | src/bin/01.rs:46-60 | conversion panics exactly when no table entry occurs in the line |
| Day01Calibration.ConvertWithExtremes | src/bin/01.rs:46-62 | the tens digit is the value of a leftmost spelling, the units digit that of a rightmost one |
| Day01Calibration.ConvertPicksExtremes | src/bin/01.rs:34-63 | `convert` on a line with a spelling gives leftmost·10 + rightmost, a two-digit number with no zero |
| Day01Calibration.ConvertWithDigits | src/bin/01.rs:34-63 | with digit values 1..9 the result lies in 11..99 and its units digit is not 0 |
| Day01Calibration.ConvertNone | src/bin/01.rs:34-63 | `convert` panics exactly on the lines holding no spelling |
| Day01Calibration.PartTwo | src/bin/01.rs:26-32 | part two answers exactly when every line holds a spelling |
| Day02Cubes.ParseDraw | src/bin/02.rs:35-42 | a parsed draw's colour is the last word and its amount the first; an unknown colour or bad number is a panic (None) |
| Day02Cubes.ParseDraws | src/bin/02.rs:35-43 | a round parses exactly when each comma-separated draw does, in order |
| Day02Cubes.ParseRounds | src/bin/02.rs:30-46 | the rounds after the colon parse one by one, in order |
| Day02Cubes.ParseGame | src/bin/02.rs:18-51 | a parsed game comes from a line with a colon, and its id is the last word before the first colon |
| Day02Cubes.ParseGames | src/bin/02.rs:18-52 | every line parses to the game at the same index |
| Day02Cubes.PartOne | src/bin/02.rs:17-61 | part one answers exactly when every line parses |
| Day02Cubes.FlattenSpec | src/bin/02.rs:101 | flattening the rounds keeps every draw of every round and adds none |
| Day02Cubes.MaxAmount | src/bin/02.rs:103-113 | the maximum bounds every draw of the colour and is one of them, or 0 when the colour is never drawn |
| Day02Cubes.Maxima | src/bin/02.rs:103-113 | the loop's three running maxima are the per-colour maxima of the draws |
| Day02Cubes.Product3 | src/bin/02.rs:115 | the power is positive exactly when all three maxima are |
| Day02Cubes.GamePower | src/bin/02.rs:100-116 | a game's power is the product of its per-colour maxima |
| Day02Cubes.PartTwo | src/bin/02.rs:63-117 | part two answers exactly when every line parses |
| Day02Cubes.PossibleIffMaximaFit | src/bin/02.rs:54-58 | a game passes part one's filter exactly when its per-colour maxima fit 12 red, 14 blue and 13 green |
| Day02Cubes.MaxPositive | src/bin/02.rs:107-113 | a colour's maximum is positive exactly when it is drawn with a positive amount |
| Day02Cubes.PowerPositive | src/bin/02.rs:100-116 | a game's power is positive exactly when every colour is drawn with a positive amount |
| Day03Gears.NeighboursAdjacent | src/bin/03.rs:12-21 | the eight listed cells are exactly the cells at king's-move distance one |
| Day03Gears.GetPositions | src/bin/03.rs:37-45 | `get_positions` lists the number's start cell and then one cell to the right per further digit |
| Day03Gears.PartNumberTouches | src/bin/03.rs:10-31 | a number is a part number exactly when some symbol is adjacent to one of its digits |
| Day03Gears.AnySymbolNear | src/bin/03.rs:23 | the `any` test holds exactly when a symbol lies next to the cell |
| Day03Gears.IsPart | src/bin/03.rs:10-31 | the digit loop with its early return answers whether the number is a part number |
| Day03Gears.Touching | src/bin/03.rs:67-70 | the filter keeps exactly the numbers with a cell next to the gear, in order |
| Day03Gears.GearRatio | src/bin/03.rs:55-77 | a ratio exists exactly when two numbers touch the gear, and it is their product |
| Day03Gears.TouchesAdjacent | src/bin/03.rs:67-70 | a number touches the gear exactly when one of its digits is adjacent to it |
| Day03Gears.TrailingDigitsSpec | src/bin/03.rs:94-108 | the trailing digits of a line prefix are digits, and the character before them is not |
| Day03Gears.LineNumbersSplit | src/bin/03.rs:94-113 | the pending digits at the end of a prefix form the last number of that prefix |
| Day03Gears.LineNumbersMaximal | src/bin/03.rs:94-113 | every scanned number is a maximal run of digits at its own column |
| Day03Gears.LineNumbersComplete | src/bin/03.rs:94-113 | every maximal run of digits of the line is scanned as a number at its own column |
| Day03Gears.LineSymbolsExact | src/bin/03.rs:97-100 | a symbol is listed exactly at every character that is neither a digit nor '.', and it is a gear exactly when that character is '*' |
| Day03Gears.ScanDigit | src/bin/03.rs:95-96 | a digit extends the pending number and keeps the scan invariant |
| Day03Gears.ScanOther | src/bin/03.rs:97-107 | another character flushes the pending number, records a symbol unless it is '.', and restarts the number one column on |
| Day03Gears.ScanEnd | src/bin/03.rs:111-113 | flushing at the end of a line yields exactly the line's numbers |
| Day03Gears.ScanLine | src/bin/03.rs:91-113 | the scan of one line yields exactly its numbers and symbols |
| Day03Gears.Scan | src/bin/03.rs:87-114 | the scan of the schematic yields the numbers and symbols of all lines, line by line |
| Day03Gears.ScannedNumbersAreDigits | src/bin/03.rs:33-35 | every scanned number is a non-empty digit string, so `to_number` cannot panic |
| Day03Gears.PartNumbers | src/bin/03.rs:116 | the filter keeps exactly the part numbers |
| Day03Gears.PartSumBound | src/bin/03.rs:116-118 | the sum of the part numbers is at most the sum of all numbers |
| Day03Gears.NoSymbolsNoParts | src/bin/03.rs:116 | without symbols nothing is a part number |
| Day03Gears.OnlyGearsCount | src/bin/03.rs:152-154 | symbols that are not '*' contribute no ratio |
| Day03Gears.SumPartNumbers | src/bin/03.rs:116-118 | the loop sums the values of the part numbers |
| Day03Gears.PartOne | src/bin/03.rs:86-119 | part one is the sum of the part numbers of the scanned schematic |
| Day03Gears.PartTwo | src/bin/03.rs:121-155 | part two is the sum of the ratios of the gears, measured against the part numbers |
| Day03Gears.ScanChar | src/bin/03.rs:94-108 | one character of the line scan keeps the scan state: a digit joins the pending number, any other character ends it and, unless it is '.', is a symbol |
| Day03Gears.MaximalRunExtends | src/bin/03.rs:102-113 | a maximal run of digits found in a prefix stays maximal in the whole line once it is ended |
| Day04Scratchcards.SpanDigits | src/bin/04.rs:17 | the `\d+` group: the longest digit prefix, followed by a non-digit or the end |
| Day04Scratchcards.SpanDigitsSpaces | src/bin/04.rs:17 | the `[ \d]+` group: the longest prefix of digits and spaces, followed by another character or the end |
| Day04Scratchcards.MatchAt | src/bin/04.rs:17 | a match of the card pattern at the start of the text begins with "Card ", captures a non-empty digit id and two non-empty runs of digits and spaces |
| Day04Scratchcards.FirstMatch | src/bin/04.rs:18 | `captures` finds the pattern at some position of the text, and the captures are those of the match there |
| Day04Scratchcards.FirstMatchLeftmost | src/bin/04.rs:18 | the match found is the leftmost: the pattern matches at no earlier position |
| Day04Scratchcards.FirstMatchNone | src/bin/04.rs:18 | nothing is found exactly when the pattern matches at no position |
| Day04Scratchcards.ParseCard | src/bin/04.rs:13-24 | `Game::create`: a card has at least one winning and one own number; a line the pattern misses, or with a number that does not parse, panics |
| Day04Scratchcards.FirstMatchSkips | src/bin/04.rs:18 | a character other than 'C' in front of the text moves the match without changing its captures |
| Day04Scratchcards.LeadingTextIgnored | src/bin/04.rs:13-18 | the pattern is not anchored: a leading character other than 'C' or whitespace does not change the card |
| Day04Scratchcards.LeadingSpaceIgnored | src/bin/04.rs:13-18 | a leading space before a line that starts with no whitespace does not change the card |
| Day04Scratchcards.ParseLines | src/bin/04.rs:32-34 | mapping a parser over the lines succeeds exactly when every line parses, the i-th line giving the i-th item |
| Day04Scratchcards.ParseCards | src/bin/04.rs:32-34 | the cards parse exactly when every line is a card, the i-th line giving the i-th card |
| Day04Scratchcards.Matching | src/bin/04.rs:38 | the matching numbers are exactly the winning numbers that are also own numbers |
| Day04Scratchcards.DoubledIsPow | src/bin/04.rs:43 | folding `acc * 2` over k elements multiplies by 2^k |
| Day04Scratchcards.ScoreIsPow | src/bin/04.rs:40-44 | a card scores 0 without matches and 2^(n-1) with n matches |
| Day04Scratchcards.PartOne | src/bin/04.rs:31-49 | part one answers exactly when every line is a card |
| Day04Scratchcards.AddCopies | src/bin/04.rs:60-63 | each of the k cards after a position gains the same number of instances; the rest keep theirs |
| Day04Scratchcards.Game.Create | src/bin/04.rs:13-24 | a new game keeps the card's id and numbers and starts with one instance |
| Day04Scratchcards.Game.IncreaseInstances | src/bin/04.rs:26-28 | the instance count grows by one |
| Day04Scratchcards.MatchesOf | src/bin/04.rs:59 | the match count of every card, in order |
| Day04Scratchcards.AddOnePass | src/bin/04.rs:60-63 | one pass adds one instance to each of the next `matches` cards that exist, and no other card changes |
| Day04Scratchcards.CreateGames | src/bin/04.rs:52-55 | one fresh game object per card, each with the card's match count and one instance |
| Day04Scratchcards.ProcessCard | src/bin/04.rs:58-64 | processing card `index` takes the counts from the state after `index` cards to the state after `index + 1` |
| Day04Scratchcards.CountCards | src/bin/04.rs:57-67 | the loops leave the counts of the specification, and the answer is their sum |
| Day04Scratchcards.PartTwo | src/bin/04.rs:51-70 | part two panics on a malformed line; otherwise it is the total number of instances |
| Day04Scratchcards.ProcessedKeepsEarlier | src/bin/04.rs:60-62 | processing a card changes only the cards after it |
| Day04Scratchcards.ProcessedGrows | src/bin/04.rs:57-65 | instance counts never drop below one and never decrease |
| Day04Scratchcards.FinalWhenProcessed | src/bin/04.rs:57-58 | a card's count is final once its own turn comes |
| Day04Scratchcards.FirstCardSingle | src/bin/04.rs:57-65 | the first card always ends with one instance |
| Day04Scratchcards.TotalAtLeastCards | src/bin/04.rs:67 | the total is at least the number of cards |
| Day04Scratchcards.NoMatchesNoCopies | src/bin/04.rs:57-65 | without any match every card stays a single instance |
| Day04Scratchcards.Processed | src/bin/04.rs:57-65 | the instance counts after the first `k` cards, one per card |
| Day04Scratchcards.CountsOf | src/bin/04.rs:67 | the games' instance counts, one per game in order |
| Day04Scratchcards.TotalAtLeastLength | src/bin/04.rs:67 | a sum of counts that are each at least one is at least their number |
| Day05Almanac.FindMapping | src/bin/05.rs:11-13 | `find` returns the first mapping whose source range holds the value, and None only when no range holds it |
| Day05Almanac.MappedOutside | src/bin/05.rs:15-16 | a value outside every source range maps to itself |
| Day05Almanac.MappedByFirst | src/bin/05.rs:10-21 | the first mapping whose range holds the value decides, and the value keeps its offset inside the range |
| Day05Almanac.LocationAppend | src/bin/05.rs:66-68 | sending a value through groups a then b is sending it through a, then through b |
| Day05Almanac.SeedLocation | src/bin/05.rs:63-71 | the per-seed loop returns the seed's location |
| Day05Almanac.NoGroups | src/bin/05.rs:66-68 | with no mapping block each seed is its own location |
| Day05Almanac.MinLocation | src/bin/05.rs:73 | `min_by_key` then `unwrap`: None exactly without seeds; otherwise a least location that some seed reaches |
| Day05Almanac.ExpandPairs | src/bin/05.rs:87-91 | `chunks(2)` expansion fails (the `chunk[1]` index panics) exactly when the count is odd |
| Day05Almanac.RangeFrom | src/bin/05.rs:89 | `(0..len).map(start + i)` lists start .. start + len - 1 in order |
| Day05Almanac.ExpandPairsMembers | src/bin/05.rs:87-91 | a seed is in the expansion exactly when it lies in one of the (start, length) ranges |
| Day05Almanac.ExpandPairsLength | src/bin/05.rs:87-91 | the expansion holds as many seeds as the sum of the range lengths |
| Day05Almanac.ParseMapping | src/bin/05.rs:53-55 | a mapping line is exactly three numbers: destination, source, length |
| Day05Almanac.ParseMappings | src/bin/05.rs:49-57 | one mapping per line of a block |
| Day05Almanac.ParseGroups | src/bin/05.rs:43-61 | one group per block after the first |
| Day05Almanac.PartOne | src/bin/05.rs:31-74 | part one answers exactly when the seeds and blocks parse and there is a seed, and then gives the least location of the seeds |
| Day05Almanac.PartTwo | src/bin/05.rs:76-124 | part two answers only when the seeds parse into pairs and the blocks parse |
| Day05Almanac.PartTwoLeast | src/bin/05.rs:76-124 | part two's answer is the least location over every seed of every range, and it is missing exactly when the ranges hold no seed |
| Day06Races.LinesNumbers | src/bin/06.rs:6-10 | every line parses to the numbers after its colon, in order |
| Day06Races.Zip | src/bin/06.rs:15 | `zip` pairs the i-th time with the i-th record, up to the shorter list |
| Day06Races.ParseRaces | src/bin/06.rs:4-16 | races parse only from an input with a line (`first().unwrap()`) |
| Day06Races.AltNumbers | src/bin/06.rs:19-22 | every line is read as the number after its last colon with the spaces removed; the collection succeeds exactly when every line is a number, in order |
| Day06Races.ParseRaceAlt | src/bin/06.rs:18-28 | the single race parses exactly when there is a line and every line is a number, and it is the first line's number with the last line's |
| Day06Races.DistanceSymmetric | src/bin/06.rs:30-33 | holding h goes as far as holding t - h, and holding 0 or t goes nowhere |
| Day06Races.DistanceTowardsMiddle | src/bin/06.rs:30-33 | moving the hold towards the middle never shortens the distance |
| Day06Races.CountFrom | src/bin/06.rs:43-44 | the holds counted from a start number at most those left |
| Day06Races.Ways | src/bin/06.rs:43-44 | a race has at most t + 1 winning holds |
| Day06Races.CountFromInterval | src/bin/06.rs:43-44 | counting where "wins" means "at most hi" counts exactly up to hi |
| Day06Races.WaysClosedForm | src/bin/06.rs:43-44 | the winning holds form the interval [lo, t - lo] around the middle, so there are t + 1 - 2·lo of them |
| Day06Races.CountPrefixZero | src/bin/06.rs:44 | losing holds below lo add nothing to the count |
| Day06Races.WaysNone | src/bin/06.rs:43-44 | when no hold wins the count is 0 |
| Day06Races.PartOne | src/bin/06.rs:40-48 | part one answers exactly when the races parse, and is the product of the races' winning counts |
| Day06Races.PartTwo | src/bin/06.rs:50-56 | part two answers exactly when the single race parses, and counts at most t + 1 holds |
| Day07CamelCards.Rank | src/bin/07.rs:83-99 | the derived label order gives each of the fourteen labels a rank below 14 |
| Day07CamelCards.LabelOf | src/bin/07.rs:143-165 | an accepted character is the character of the label it reads as |
| Day07CamelCards.LabelOfCharOf | src/bin/07.rs:146-163 | reading a label's character gives the label back, and a character is rejected exactly when it stands for no label |
| Day07CamelCards.RankInjective | src/bin/07.rs:83-99 | distinct labels have distinct ranks, so the order on labels is total |
| Day07CamelCards.NonJokers | src/bin/07.rs:107 | the labels a Joker may stand for are thirteen, none of them a Joker |
| Day07CamelCards.NonJokersComplete | src/bin/07.rs:107 | every label but the Joker is a possible substitute |
| Day07CamelCards.Strength | src/bin/07.rs:167-176 | the derived hand-type order assigns ranks below 7 |
| Day07CamelCards.StrengthInjective | src/bin/07.rs:167-176 | distinct hand types have distinct ranks |
| Day07CamelCards.RemoveAll | src/bin/07.rs:188-193 | removing one label keeps every other label's multiplicity and drops exactly that label's cards |
| Day07CamelCards.GroupsAreMultiplicities | src/bin/07.rs:188-193 | the group counts are exactly the multiplicities of the hand's labels |
| Day07CamelCards.GroupsCover | src/bin/07.rs:188-193 | every group is non-empty and the groups together hold every card |
| Day07CamelCards.SingletonGroupsUnique | src/bin/07.rs:184-193 | a hand whose groups are all singletons has no repeated label |
| Day07CamelCards.FullGroupAllEqual | src/bin/07.rs:180-196 | a group as large as the hand means every card has the same label |
| Day07CamelCards.FiveCardsClassified | src/bin/07.rs:179-218 | `get_hand_type` never returns None on a five-card hand |
| Day07CamelCards.ReplaceJoker | src/bin/07.rs:105-130 | substituting a Joker leaves one Joker fewer |
| Day07CamelCards.FirstJoker | src/bin/07.rs:105-130 | the arm that matches is the one at the first Joker |
| Day07CamelCards.CombinationsAreFillings | src/bin/07.rs:102-135 | for five cards the combinations are exactly the hands that fill every Joker with another label |
| Day07CamelCards.CombinationsOverFillings | src/bin/07.rs:107-109 | the loop over substitutes yields exactly the fillings of the hand with that Joker replaced |
| Day07CamelCards.CombinationsCount | src/bin/07.rs:102-135 | a five-card hand with k Jokers has 13^k combinations |
| Day07CamelCards.CombinationsOverCount | src/bin/07.rs:107-109 | the loop over the substitutes appends 13^(k-1) combinations per substitute |
| Day07CamelCards.CombinationsWithoutJoker | src/bin/07.rs:131 | a hand without a Joker, or not of five cards, is its own only combination |
| Day07CamelCards.GetCombinations | src/bin/07.rs:102-135 | the loops of `get_combinations` compute the combinations |
| Day07CamelCards.Best | src/bin/07.rs:230-239 | the best hand type is one that some combination has and at least as strong as every other; an error exactly when no combination has a type |
| Day07CamelCards.KindWithoutJoker | src/bin/07.rs:229-240 | without Jokers a hand's kind is its plain hand type |
| Day07CamelCards.KindOfFiveCards | src/bin/07.rs:229-240 | every five-card hand has a kind, at least as strong as the type of every way of filling its Jokers |
| Day07CamelCards.Cmp | src/bin/07.rs:28-44 | the loop with early returns computes the comparison: hand type first, then the first differing card |
| Day07CamelCards.CompareCardsFlip | src/bin/07.rs:32-40 | swapping the hands flips the card comparison |
| Day07CamelCards.CompareFlip | src/bin/07.rs:28-44 | swapping the games flips the answer |
| Day07CamelCards.CompareCardsEqual | src/bin/07.rs:32-40 | the cards compare `Equal` exactly when every compared pair is equal |
| Day07CamelCards.CompareEqual | src/bin/07.rs:17-21 | two games are equal exactly when their types match and every compared card does |
| Day07CamelCards.CompareCardsTransitive | src/bin/07.rs:32-40 | over hands of one length the card order is transitive |
| Day07CamelCards.LeTransitive | src/bin/07.rs:28-44 | over hands of one length the game order is transitive |
| Day07CamelCards.Insert | src/bin/07.rs:251 | insertion adds exactly the one game |
| Day07CamelCards.Sort | src/bin/07.rs:251 | the sort is a permutation |
| Day07CamelCards.InsertSorted | src/bin/07.rs:251 | inserting into a sorted list of equal-length hands keeps it sorted |
| Day07CamelCards.SortSorted | src/bin/07.rs:251 | over hands of one length the sort yields an ascending permutation |
| Day07CamelCards.WinningsAtLeastBids | src/bin/07.rs:250-253 | with ranks counted from one every game wins at least its bid |
| Day07CamelCards.ParseLabels | src/bin/07.rs:60-63 | the cards are the labels of the characters, one per character, or an error |
| Day07CamelCards.ParseGame | src/bin/07.rs:55-80 | a parsed game has exactly two space-separated parts and the kind of its cards |
| Day07CamelCards.ParseGames | src/bin/07.rs:244-248 | every line parses to the game at the same index |
| Day07CamelCards.JacksToJokers | src/bin/07.rs:261 | `replace('J', "X")` rewrites exactly the 'J' characters and keeps the length |
| Day07CamelCards.NoJacksInPartTwo | src/bin/07.rs:258-264 | after the rewrite no parsed hand holds a Jack |
| Day07CamelCards.Rewritten | src/bin/07.rs:261 | every line rewritten, in order |
| Day07CamelCards.PartOne | src/bin/07.rs:243-256 | part one answers exactly when every line parses, and is the bids weighted by rank in sorted order |
| Day07CamelCards.PartTwo | src/bin/07.rs:258-272 | part two is the same over the rewritten lines |
| Day07CamelCards.NoPairUnique | src/bin/07.rs:184-216 | five cards, not all equal, with no group of four, three or two, are all different |
| Day07CamelCards.PairsAtMostTwo | src/bin/07.rs:208-214 | five cards hold at most two pairs |
| Day07CamelCards.GroupsOneOrTwo | src/bin/07.rs:188-206 | five cards, not all equal, with no group of four or three, have only groups of one or two |
| Day07CamelCards.BestStep | src/bin/07.rs:230-236 | taking the stronger of the first hand's type and the best of the rest keeps the three properties of `Best` |
| Day07CamelCards.InsertAfter | src/bin/07.rs:251 | a game not below the last one of a sorted list goes after it and keeps the list sorted |
| Day07CamelCards.InsertBefore | src/bin/07.rs:251 | a game below the last one goes before it and keeps the list sorted |
| Day07CamelCards.GameCards | src/bin/07.rs:55-63 | a parsed game's cards are the labels of the first space-separated part |
| Day07CamelCards.LabelsWithoutJack | src/bin/07.rs:143-165 | labels read from a text without 'J' hold no Jack |
| Day08Network.AtNext | src/bin/08.rs:68-76 | one more step follows the instruction at the step count modulo the number of instructions |
| Day08Network.AtStuck | src/bin/08.rs:70-71 | a walker whose next node is missing (a map-index panic) stays failed |
| Day08Network.ArrivalFromStep | src/bin/08.rs:68-76 | the search stops at a goal node and otherwise moves on one step |
| Day08Network.ArrivalFromStuck | src/bin/08.rs:70-71 | a failed walk arrives nowhere |
| Day08Network.ArrivalFromFirst | src/bin/08.rs:68-76 | the search finds the first arrival at or after its start, and finds nothing only when there is none up to the bound |
| Day08Network.ArrivalFirst | src/bin/08.rs:61-79 | the step count is the first arrival at a goal, or nothing within the bound |
| Day08Network.DivModUnique | src/bin/08.rs:74 | a quotient and remainder in range are the Euclidean ones |
| Day08Network.ModSucc | src/bin/08.rs:74 | advancing the index modulo n tracks the step count modulo n |
| Day08Network.CountSteps | src/bin/08.rs:64-78 | the walking loop returns the first arrival within the bound |
| Day08Network.IndexInRange | src/bin/08.rs:74 | the instruction index always stays in range |
| Day08Network.GcdDivides | src/bin/08.rs:104 | the gcd divides both arguments |
| Day08Network.GcdPositive | src/bin/08.rs:104 | the gcd of numbers not both zero is positive |
| Day08Network.LcmCommonMultiple | src/bin/08.rs:104 | the lcm is a common multiple of its arguments, and positive for positive ones |
| Day08Network.MultipleTransitive | src/bin/08.rs:104 | a multiple of a multiple is a multiple |
| Day08Network.StepsToZZZ | src/bin/08.rs:64-78 | from "AAA", the first arrival at "ZZZ"; a missing "AAA" panics |
| Day08Network.Bezout | src/bin/08.rs:104 | the gcd is an integer combination of its arguments |
| Day08Network.LcmLeast | src/bin/08.rs:104 | every common multiple of two positive numbers is a multiple of their lcm |
| Day08Network.CommonMultipleScaled | src/bin/08.rs:104 | the algebraic step of that proof: a common multiple scaled by the gcd is the gcd times a multiple of the lcm |
| Day08Network.MultipleOfOne | src/bin/08.rs:104 | every number is a multiple of 1, the fold's start |
| Day08Network.GhostSteps | src/bin/08.rs:84-106 | None exactly when some start ending in 'A' never arrives within the bound; otherwise the fold of lcm from 1 is the least common multiple of the starts' first arrivals at an id ending in 'Z': a positive common multiple that divides every other one |
| Day08Network.ParseInstructions | src/bin/08.rs:40-44 | the instructions parse exactly when every character is 'R' or 'L', each becoming its direction |
| Day08Network.ParseNodes | src/bin/08.rs:27-38 | the collected map stores every node under its own id |
| Day08Network.ParseNetwork | src/bin/08.rs:22-50 | the parsed map stores every node under its own id |
| Day08Network.PartOne | src/bin/08.rs:61-79 | part one parses the map and returns the first arrival at "ZZZ" from "AAA" |
| Day08Network.PartTwo | src/bin/08.rs:81-107 | part two panics on a bad map; otherwise None exactly when some start never arrives within the bound, and else the least positive common multiple of the starts' step counts |
| Day09Oasis.Diffs | src/bin/09.rs:11-16 | the differences of adjacent readings, one fewer than the readings |
| Day09Oasis.DiffsAsWritten | src/bin/09.rs:3-5 | `overlapping_chunks(row, 2)` as written fails (the `len - 2 + 1` range underflows) exactly on a row of fewer than two values, and otherwise gives the differences |
| Day09Oasis.ExtrapolateAsWritten | src/bin/09.rs:7-29 | `check` as written, where it does not panic, agrees with the intended extrapolation |
| Day09Oasis.SingleReadingAsWritten | src/bin/09.rs:3-5 | a row of one reading panics as written, though its next value is the reading itself |
| Day09Oasis.TwoReadingsAsWritten | src/bin/09.rs:3-20 | two readings with a non-zero difference reach a one-value row and panic too |
| Day09Oasis.BuildHistory | src/bin/09.rs:8-21 | the loop pushes difference rows, each the differences of the one before, until the next row would be all zero |
| Day09Oasis.Check | src/bin/09.rs:7-29 | `check` returns the next value of the sequence |
| Day09Oasis.CheckBack | src/bin/09.rs:31-53 | `check_2` returns the previous value of the sequence |
| Day09Oasis.ConstantSequence | src/bin/09.rs:7-53 | a constant sequence extrapolates to that constant in both directions |
| Day09Oasis.ArithmeticSequence | src/bin/09.rs:7-53 | a sequence with a constant step continues with that step in both directions |
| Day09Oasis.ExtrapolateNegate | src/bin/09.rs:7-29 | negating the readings negates the next value |
| Day09Oasis.DiffsReverse | src/bin/09.rs:11-16 | the differences of the reversed readings are the reversed, negated differences |
| Day09Oasis.BackIsReversedForward | src/bin/09.rs:7-53 | the previous value is the next value of the reversed readings |
| Day09Oasis.AllZeroNegateReverse | src/bin/09.rs:18 | the stopping test gives the same answer on reversed, negated differences |
| Day09Oasis.ParseLine | src/bin/09.rs:56 | a parsed line has at least one reading |
| Day09Oasis.ParseAll | src/bin/09.rs:56 | every line parses to a non-empty row, so `check` never receives an empty row |
| Day09Oasis.SumNext | src/bin/09.rs:55-61 | on a single row the sum is that row's next value |
| Day09Oasis.SumPrevious | src/bin/09.rs:63-69 | on a single row the sum is that row's previous value |
| Day09Oasis.SumsAppend | src/bin/09.rs:55-69 | both sums distribute over concatenated rows, so the answer is the sum of the per-row answers |
| Day09Oasis.PartOne | src/bin/09.rs:55-61 | part one answers exactly when every line parses, and is the sum of the next values |
| Day09Oasis.PartTwo | src/bin/09.rs:63-69 | part two answers exactly when every line parses, and is the sum of the previous values |
| Day09Oasis.SumPreviousReversed | src/bin/09.rs:55-69 | part two's sum equals part one's sum over the same rows reversed |
| Day09Oasis.MapReverse | src/bin/09.rs:55-69 | every row reversed, in order |
| Day09Oasis.DiffsReverseAt | src/bin/09.rs:11-16 | each difference of the reversed readings is the negated difference of the readings, read backwards |
| Day10PipeMaze.Inverse | src/bin/10.rs:37-46 | the inverse of a direction is another direction |
| Day10PipeMaze.InverseInvolution | src/bin/10.rs:37-46 | inverting twice gives the direction back |
| Day10PipeMaze.TileOf | src/bin/10.rs:13-27 | every pipe joins two different directions; other characters than the eight listed panic |
| Day10PipeMaze.PipeForEveryPair | src/bin/10.rs:15-21 | every pair of distinct directions is joined by one of the six pipe characters |
| Day10PipeMaze.Neighbour | src/bin/10.rs:84-117 | a neighbour that exists lies on the map |
| Day10PipeMaze.FindConnSpec | src/bin/10.rs:80-118 | `find_conn` continues exactly through a neighbouring pipe with an end facing back, to its other end, and stops exactly at a neighbouring start tile |
| Day10PipeMaze.FindConnAgrees | src/bin/10.rs:80-118 | the model agrees with the code as written whenever the neighbour is on the map |
| Day10PipeMaze.FindStartInRow | src/bin/10.rs:50-54 | the first start tile of a row from a column on, or None when there is none |
| Day10PipeMaze.FindStart | src/bin/10.rs:48-58 | `find_start` returns the first start tile in row-major order, and None only when the map has none |
| Day10PipeMaze.FirstConn | src/bin/10.rs:60-68 | a found first connection comes from one of the four probes and continues through a pipe |
| Day10PipeMaze.FirstConnIsFirst | src/bin/10.rs:60-78 | the first direction, in the order North, East, South, West, whose neighbour links back is taken; it fails only when none does |
| Day10PipeMaze.WalkLinked | src/bin/10.rs:129-135 | each walked pipe is reached from the one before and entered from the side facing it, and the last one (or the first probe, when there is none) leads into the start |
| Day10PipeMaze.Walk | src/bin/10.rs:127-135 | the loop pushes each connection until the start is reached again, within the bound |
| Day10PipeMaze.ParseRow | src/bin/10.rs:122 | one tile per character |
| Day10PipeMaze.ParseGrid | src/bin/10.rs:121-123 | one row per line |
| Day10PipeMaze.Farthest | src/bin/10.rs:137 | `div_ceil(n, 2)`: the least number whose double reaches n |
| Day10PipeMaze.FarthestOnLoop | src/bin/10.rs:125-137 | the answer is half the length of the loop found from the start, rounded up; None when there is no start or no loop |
| Day10PipeMaze.PartOne | src/bin/10.rs:120-138 | part one parses the map and returns the farthest distance on the loop |
| Day10PipeMaze.LoopAt | src/bin/10.rs:166 | `find` misses exactly when no loop entry lies on the tile |
| Day10PipeMaze.CountEnclosed | src/bin/10.rs:160-176 | the scan toggles `inside` at each loop tile with a South end and counts tiles off the loop while inside |
| Day10PipeMaze.EnclosedAtMostOffLoop | src/bin/10.rs:162-176 | loop tiles are never counted |
| Day10PipeMaze.NoCrossingNothingEnclosed | src/bin/10.rs:162-176 | a row the loop never crosses encloses nothing |
| Day10PipeMaze.EnclosedByLoop | src/bin/10.rs:145-178 | the count of tiles enclosed by the closed loop; None when there is no start or no loop |
| Day10PipeMaze.PartTwo | src/bin/10.rs:140-179 | part two parses the map and counts the tiles the loop encloses |
| Day10PipeMaze.CornerStartAsWritten | src/bin/10.rs:61-67 | with the start on the top row, the North probe as written indexes row -1 and panics, though the start has two connecting pipes |
| Day10PipeMaze.CornerStartCorrected | src/bin/10.rs:60-137 | with off-map probes skipped, the loop of eight pipes is found and walked |
| Day11Galaxies.RowGalaxiesSpec | src/bin/11.rs:20-25 | the galaxies of one line are exactly its '#' cells, in increasing column order |
| Day11Galaxies.GalaxiesSpec | src/bin/11.rs:15-26 | the galaxy list holds exactly the '#' cells of the image, each once, in row-major order |
| Day11Galaxies.EmptyRowsSpec | src/bin/11.rs:16-18 | the empty rows are exactly the rows made only of '.', in increasing order |
| Day11Galaxies.Range | src/bin/11.rs:13 | `(0..n).collect()` holds 0 to n - 1 in order |
| Day11Galaxies.KeepSpec | src/bin/11.rs:23 | after retaining away a set of columns exactly the other columns remain, still increasing |
| Day11Galaxies.RetainKeep | src/bin/11.rs:23 | one more `retain` removes exactly one more column |
| Day11Galaxies.KeepNothing | src/bin/11.rs:13 | before any galaxy is seen every candidate column remains |
| Day11Galaxies.EmptyColsSpec | src/bin/11.rs:13-25 | the remaining columns are exactly those left of the last one that hold no '#' in any line, increasing |
| Day11Galaxies.ColumnsSnoc | src/bin/11.rs:22-23 | recording a galaxy adds its column to the columns seen |
| Day11Galaxies.ScanRow | src/bin/11.rs:20-25 | the inner loop appends the line's galaxies and retains away their columns |
| Day11Galaxies.Scan | src/bin/11.rs:11-26 | the scan yields all galaxies in row-major order, the empty rows and the galaxy-free columns |
| Day11Galaxies.CountBelow | src/bin/11.rs:29-30 | the count of entries below a value is at most the length |
| Day11Galaxies.Expand | src/bin/11.rs:28-33 | expansion never moves a galaxy up or left, and with multiplier 1 it does not move it |
| Day11Galaxies.ExpandAll | src/bin/11.rs:28-33 | every galaxy is expanded, in order |
| Day11Galaxies.CountBelowSplit | src/bin/11.rs:29-30 | the empty lines below a larger coordinate are those below the smaller plus those in between |
| Day11Galaxies.ExpandedGap | src/bin/11.rs:29-32 | between two expanded coordinates lie the original gap plus `multiplier - 1` extra lines per empty line in between |
| Day11Galaxies.Distance | src/bin/11.rs:35-38 | the distance is zero exactly for equal positions and at least each coordinate difference |
| Day11Galaxies.DistanceSymmetric | src/bin/11.rs:35-38 | the distance does not depend on the order of the pair |
| Day11Galaxies.SumToAppend | src/bin/11.rs:35-39 | the distance sum from one galaxy splits over concatenation |
| Day11Galaxies.PairSumSnoc | src/bin/11.rs:35-39 | `tuple_combinations` pairs a galaxy added last once with every earlier one |
| Day11Galaxies.PairSumTwo | src/bin/11.rs:35-39 | two galaxies sum to their distance |
| Day11Galaxies.Calc | src/bin/11.rs:10-42 | `calc` computes the pairwise distance sum over the expanded galaxies |
| Day11Galaxies.NoExpansion | src/bin/11.rs:28-39 | with multiplier 1 the answer is the plain pairwise distance sum |
| Day11Galaxies.LastColumnIrrelevant | src/bin/11.rs:13 | leaving the last column out of the candidates changes no expansion left of it |
| Day11Galaxies.CountBelowAppend | src/bin/11.rs:29-30 | counting below a value splits over concatenation |
| Day11Galaxies.PartOne | src/bin/11.rs:44-46 | part one is `calc` with multiplier 2; an empty first line panics |
| Day11Galaxies.PartTwo | src/bin/11.rs:48-50 | part two is `calc` with multiplier 1000000 |
| Day12Springs.StateOf | src/bin/12.rs:17-26 | exactly '.', '#' and '?' are spring states; any other character panics |
| Day12Springs.TrailingDamaged | src/bin/12.rs:40-42 | the trailing damaged count is at most the row length |
| Day12Springs.RunsSplit | src/bin/12.rs:32-47 | the runs of a row are those before its trailing damaged springs, then that run if any |
| Day12Springs.TrailingSnoc | src/bin/12.rs:33-42 | a damaged spring lengthens the trailing count, a working one resets it |
| Day12Springs.RunsSnoc | src/bin/12.rs:33-42 | a working spring leaves the runs alone; a damaged one starts a run of 1 or lengthens the last run |
| Day12Springs.RunsSnocDamaged | src/bin/12.rs:40-42 | a damaged spring starts a run of 1 or lengthens the last run |
| Day12Springs.RunsDamagedSnoc | src/bin/12.rs:40-42 | a damaged spring at the end lengthens the trailing run by one |
| Day12Springs.RunsPositive | src/bin/12.rs:35-37 | every recorded run is at least one spring long |
| Day12Springs.CountStep | src/bin/12.rs:33-42 | one spring of the counting loop keeps `counter` equal to the trailing count and `calc_checksum` equal to the closed runs |
| Day12Springs.RunLengths | src/bin/12.rs:29-47 | the counting loop yields the runs of damaged springs, and panics (None) on an unknown spring |
| Day12Springs.RunsExtend | src/bin/12.rs:54-58 | extending a row keeps all but its last run, and the last run can only grow, by at most the springs added: the pruning test is sound |
| Day12Springs.Possible | src/bin/12.rs:28-95 | a found list of completions is never empty: no completions is None |
| Day12Springs.CompletesStep | src/bin/12.rs:67-90 | completing after fixing the next spring is completing with that spring in that place |
| Day12Springs.PossibleExact | src/bin/12.rs:28-95 | a row is among the sequences returned exactly when it keeps the known springs, fills every unknown one and has the checksum as its runs |
| Day12Springs.GetPossibleSequences | src/bin/12.rs:28-95 | the recursive search, with its counting loop, computes the completions |
| Day12Springs.UnfoldSequence | src/bin/12.rs:163-165 | the unfolded row has 2 * len + 1 springs |
| Day12Springs.UnfoldSequenceShape | src/bin/12.rs:163-165 | the unfolded row is the row, an unknown spring, and the row again |
| Day12Springs.ModSmall | src/bin/12.rs:164 | `cycle` within the first round takes the element itself |
| Day12Springs.ModShift | src/bin/12.rs:164 | `cycle` in the second round takes the element one length back |
| Day12Springs.UnfoldChecksum | src/bin/12.rs:167-169 | the unfolded checksum is twice as long |
| Day12Springs.UnfoldChecksumShape | src/bin/12.rs:167-169 | the unfolded checksum is the checksum twice |
| Day12Springs.CollapseDots | src/bin/12.rs:150 | replacing runs of '.' by one '.' leaves no two dots in a row and keeps a first spring that is not '.' |
| Day12Springs.CollapseDotsKeeps | src/bin/12.rs:150 | collapsing keeps all other characters, in order |
| Day12Springs.SuffixNoDoubleDots | src/bin/12.rs:151 | a suffix of a text without two dots in a row has none either |
| Day12Springs.DropDots | src/bin/12.rs:151 | `trim_start_matches('.')` returns a suffix that does not begin with '.' |
| Day12Springs.RemoveDropDots | src/bin/12.rs:151 | dropping leading dots keeps all other characters |
| Day12Springs.NormalizeShape | src/bin/12.rs:150-152 | the normalised row ends with '.', has no two dots in a row, and begins with a non-dot unless it is just "." |
| Day12Springs.AppendDot | src/bin/12.rs:152 | appending '.' to a text not ending in one makes no two dots in a row |
| Day12Springs.NormalizeKeeps | src/bin/12.rs:150-152 | normalising keeps every character other than '.', in order |
| Day12Springs.RemoveDot | src/bin/12.rs:152 | the appended '.' adds no spring |
| Day12Springs.RemoveAppend | src/bin/12.rs:150-152 | removing dots distributes over concatenation |
| Day12Springs.ParseStates | src/bin/12.rs:153 | one state per character |
| Day12Springs.UnfoldRecord | src/bin/12.rs:172-179 | an unfolded record has an odd number of springs and an even number of checksum entries |
| Day12Springs.CountSpring | src/bin/12.rs:33-43 | one known spring of the counting loop: a working spring closes the pending run, a damaged one extends it, and the loop state stays the runs so far |
| Day12Springs.RunsClose | src/bin/12.rs:47 | closing the pending run at the end of the row gives the runs of the whole row |
| Day12Springs.RunsLastDamaged | src/bin/12.rs:40-47 | a row ending in a damaged spring ends with its trailing run |
| Day13Mirrors.DuplicatePairs | src/bin/13.rs:23 | the windows of two equal rows are listed, every one of them, in increasing order |
| Day13Mirrors.FirstReflection | src/bin/13.rs:22-58 | the result is a line of reflection at or after the start, and no line before it reflects; None when none does |
| Day13Mirrors.IsMirrored | src/bin/13.rs:26-50 | the outward comparison from an equal pair survives exactly when every row pair within the grid around the line is equal |
| Day13Mirrors.ReflectionIsPair | src/bin/13.rs:23-25 | every line of reflection sits after one of the equal pairs, so trying only those loses none |
| Day13Mirrors.ReflectionInner | src/bin/13.rs:22-58 | `get_reflection_value_inner` returns the number of rows above the first line of reflection, or None |
| Day13Mirrors.NoCandidateSurvives | src/bin/13.rs:25-57 | when no equal pair survives there is no line of reflection |
| Day13Mirrors.FirstIsCandidate | src/bin/13.rs:25-55 | the first surviving pair gives the first line of reflection |
| Day13Mirrors.FirstNone | src/bin/13.rs:57 | without any line of reflection the search finds none |
| Day13Mirrors.Rotated | src/bin/13.rs:13-15 | the rotated grid has one row per column, each as long as the grid is tall |
| Day13Mirrors.RotatedReflects | src/bin/13.rs:13-17 | a line of reflection of the rotated grid is exactly a vertical line of reflection of the pattern |
| Day13Mirrors.ReflectionValue | src/bin/13.rs:11-19 | `get_reflection_value` is 100 times the rows above a row line, else the columns left of the column line; a pattern with neither panics (None) |
| Day13Mirrors.ReflectionValueSpec | src/bin/13.rs:11-19 | a value exists exactly when the pattern has a row or column line, and any row line makes it a multiple of 100 |
| Day13Mirrors.SumValuesSuffix | src/bin/13.rs:76-81 | one pattern that panics makes the whole sum panic |
| Day13Mirrors.PartOne | src/bin/13.rs:73-84 | part one sums the values of the blank-line separated patterns |
| Day13Mirrors.PairIndex | src/bin/13.rs:23-25 | a line of reflection sits after one of the equal pairs the search tries |
| Day13Mirrors.FirstAtMost | src/bin/13.rs:22-58 | when some line reflects, the search finds one, at or before it |
| Day14Reflector.ItemOf | src/bin/14.rs:21-29 | 'O' is a rounded rock (dish), '#' a cube rock, anything else empty |
| Day14Reflector.SlideDown | src/bin/14.rs:43-51 | a rock sliding toward index 0 never moves away from it |
| Day14Reflector.SlideDownSpec | src/bin/14.rs:45-51 | the rock passes only free indices and stops at 0 or just after an occupied index |
| Day14Reflector.MoveFrame | src/bin/14.rs:53-56 | moving a rock to a free index keeps the number of items and every cube rock |
| Day14Reflector.RollDownStep | src/bin/14.rs:38-56 | one step of the tilt keeps every rock before the current index settled |
| Day14Reflector.RollDownFromSpec | src/bin/14.rs:38-59 | the tilt loop settles every rock, keeps the cube rocks and the items, and touches nothing at or beyond the end |
| Day14Reflector.TiltedDownSpec | src/bin/14.rs:31-62 | tilting toward index 0 settles every rock, keeps cube rocks and the item count, touches nothing from `n` on |
| Day14Reflector.LoadAgree | src/bin/14.rs:131-141 | lines with the same rounded rocks have the same load |
| Day14Reflector.LoadGap | src/bin/14.rs:131-141 | indices without a rounded rock add no load |
| Day14Reflector.LoadNonNegative | src/bin/14.rs:131-141 | within the line the load is never negative |
| Day14Reflector.RollDownLoad | src/bin/14.rs:53-58 | rolling a rock adds `full_length - new_x`, its weight where it stops |
| Day14Reflector.Calc | src/bin/14.rs:31-62 | `calc` tilts the column toward index 0 and returns the load of the tilted column |
| Day14Reflector.Calc2 | src/bin/14.rs:131-141 | `calc_2` measures the load of a line as it lies |
| Day14Reflector.LoadTail | src/bin/14.rs:131-141 | lines with the same rounded rocks over a range gain the same load over it |
| Day14Reflector.RollDownRaises | src/bin/14.rs:53-58 | rolling one rock toward index 0 never lowers the load |
| Day14Reflector.RollDownFromRaises | src/bin/14.rs:38-59 | the tilt loop from any index never lowers the load |
| Day14Reflector.CalcLoad | src/bin/14.rs:31-62 | the load `calc` reports on the tilted column is at least the load `calc_2` measures on the column as it lies, and never negative |
| Day14Reflector.SlideUp | src/bin/14.rs:113-122 | a rock sliding toward the far end stays below it |
| Day14Reflector.SlideUpSpec | src/bin/14.rs:113-122 | it passes only free indices and stops before the end or an occupied index |
| Day14Reflector.RollUpStep | src/bin/14.rs:104-127 | one step toward the far end keeps the rocks after it settled, the cube rocks and the items |
| Day14Reflector.RollUpBelowSpec | src/bin/14.rs:104-128 | the loop over the start indices settles every rock, keeps cube rocks and the items |
| Day14Reflector.TiltedUpSpec | src/bin/14.rs:98-129 | tilting toward South or East, over every start index, settles every rock against an occupied index or the end |
| Day14Reflector.TiltedUpAsWrittenSkips | src/bin/14.rs:101 | as written, a rock at index 1 of a 3-long line with index 2 free does not move, though it is not settled |
| Day14Reflector.TiltList | src/bin/14.rs:98-129 | `tilt_list`, with the South and East starts corrected, tilts toward 0 for North and West and toward the far end for South and East |
| Day14Reflector.Transposed | src/bin/14.rs:143-177 | the transposed map has one line per index |
| Day14Reflector.Transpose | src/bin/14.rs:143-177 | `to_rows` / `to_cols` move the item of line `y` at `x` to line `x` at `y` |
| Day14Reflector.TransposeTwice | src/bin/14.rs:143-177 | transposing twice gives every line back, cut to the keys below the size |
| Day14Reflector.ColumnItems | src/bin/14.rs:68-75 | a column holds no empty cells and only rows of the image |
| Day14Reflector.PartOne | src/bin/14.rs:64-82 | part one sums the tilted load of every column; an input without lines panics |
| Day15Hash.HashFrom | src/bin/15.rs:7-8 | the fold of a non-empty text is a byte value, and of the empty text its start value |
| Day15Hash.DropNewlines | src/bin/15.rs:6 | the filtered step holds no '\n' |
| Day15Hash.HashFromAppend | src/bin/15.rs:8 | folding over a concatenation folds the second part from the first's result |
| Day15Hash.RemoveAppend | src/bin/15.rs:6 | filtering a character distributes over concatenation |
| Day15Hash.HashRange | src/bin/15.rs:3-9 | every hash is below 256, and the empty step hashes to 0 |
| Day15Hash.HashIgnoresNewline | src/bin/15.rs:6 | a newline anywhere in a step leaves its hash unchanged |
| Day15Hash.HashSnoc | src/bin/15.rs:8 | one more character is one more round: add its code, times 17, modulo 256 |
| Day15Hash.PartOne | src/bin/15.rs:11-14 | the sum of the step hashes is at most 255 per comma-separated step |
| Day15Hash.HashAllBound | src/bin/15.rs:12 | a sum of hashes is at most 255 per step |
| Day15Hash.PartOneSingleStep | src/bin/15.rs:11-14 | text without a comma is one step, so the answer is its hash |
| Day16Lava.TileOf | src/bin/16.rs:45-56 | exactly '.', '/', '\\', '\|' and '-' are tiles; any other character panics |
| Day16Lava.NewDirectionsSpec | src/bin/16.rs:14-42 | empty tiles pass the beam on, mirrors turn it by a right angle, splitters pass a parallel beam and split a perpendicular one; never the way back |
| Day16Lava.MirrorReversible | src/bin/16.rs:17-28 | a beam sent back through a mirror leaves the way it came |
| Day16Lava.MoveDirection | src/bin/16.rs:73-92 | one cell in the direction, and None exactly at the edge the bounds name |
| Day16Lava.SuccessorsSpec | src/bin/16.rs:102-119 | `advance` yields exactly the moves in the new directions that stay within the bounds and whose (position, direction) the history has not seen |
| Day16Lava.AdvanceAllFresh | src/bin/16.rs:149 | no ball of a round repeats a pair of the history |
| Day16Lava.PositionSetSnoc | src/bin/16.rs:153 | pushing an entry adds its position |
| Day16Lava.RecordSpec | src/bin/16.rs:151-155 | recording pushes only balls at new positions, so the history's positions stay distinct, and they become the old ones plus the balls' |
| Day16Lava.DistinctCount | src/bin/16.rs:164 | with distinct positions the history's length is the number of energized tiles |
| Day16Lava.RunFromStep | src/bin/16.rs:148-162 | one round: a crash stops everything, an empty round records and ends, otherwise the loop continues from the new balls |
| Day16Lava.RunFromSpec | src/bin/16.rs:148-164 | a finished run extends the history it started from, with distinct positions, so its length counts the energized tiles |
| Day16Lava.RunFromDistinct | src/bin/16.rs:148-162 | the loop keeps the history's positions distinct |
| Day16Lava.RecordDistinct | src/bin/16.rs:151-155 | recording keeps the positions distinct |
| Day16Lava.RecordPrefix | src/bin/16.rs:151-155 | recording only appends |
| Day16Lava.RunFromPrefix | src/bin/16.rs:148-162 | the loop only appends to the history |
| Day16Lava.BeamSpec | src/bin/16.rs:141-164 | a finished beam's history starts with the top-left corner heading right and counts distinct energized tiles |
| Day16Lava.SuccessorsInGrid | src/bin/16.rs:102-119 | with bounds that match the grid, every move stays on the grid |
| Day16Lava.AdvanceAllInGrid | src/bin/16.rs:149 | with matching bounds a round never indexes off the grid |
| Day16Lava.RunFromNeverCrashes | src/bin/16.rs:148-162 | when the bounds match the grid the beam never leaves it, so the run cannot crash |
| Day16Lava.ParseRow | src/bin/16.rs:133 | one tile per character |
| Day16Lava.ParseRows | src/bin/16.rs:133 | one row per line, each row parsed from its line |
| Day16Lava.ParseMap | src/bin/16.rs:132-135 | with the bounds corrected, the width is the first line's length and the height the number of lines |
| Day16Lava.SwappedBoundsStopEarly | src/bin/16.rs:134 | on the one-row platform "..", the bounds as written stop the beam at the first tile; corrected, it moves on to the second |
| Day16Lava.ParsedRectangularNeverCrashes | src/bin/16.rs:129-162 | with the corrected bounds a rectangular platform never makes the beam index off the grid |
| Day16Lava.RecordAll | src/bin/16.rs:151-155 | the recording loop pushes the new positions in order |
| Day16Lava.BeamLoop | src/bin/16.rs:141-162 | the loop of `part_one`, within the round bound |
| Day16Lava.PartOne | src/bin/16.rs:138-167 | part one counts the energized tiles once the beam settles; a bad tile or an off-grid index panics |
| Day17Crucible.MoveInDirection | src/bin/17.rs:32 | the neighbour in a direction exists exactly when it is inside the grid, and is one step that way |
| Day17Crucible.SurroundingStatesSpec | src/bin/17.rs:27-56 | the surrounding states are exactly the in-bounds compass neighbours that neither reverse nor re-enter the start and keep the run within `MAX_DIST`, each weighted with the digit it enters |
| Day17Crucible.NextState | src/bin/17.rs:58-67 | `get_next_state` goes straight on one step longer, or yields nothing at the edge |
| Day17Crucible.SuccessorsSpec | src/bin/17.rs:72-75 | every successor moves within the grid and the run bound, never reverses, and turns only after at least `MIN_DIST` cells straight |
| Day17Crucible.StepHeuristic | src/bin/17.rs:72-76 | one move changes the Manhattan heuristic by at most one |
| Day17Crucible.HeuristicAdmissible | src/bin/17.rs:69-81 | with digits of at least 1 the heuristic never overestimates the heat lost on a path to a goal state |
| Day17Crucible.ParseDigits | src/bin/17.rs:22 | a line parses exactly when every character is a digit, one value 0-9 each |
| Day17Crucible.ParseGrid | src/bin/17.rs:18-25 | the matrix is rectangular with one row per line |
| Day17Crucible.ParseRows | src/bin/17.rs:22 | one row per line, one weight per character |
| Day17Crucible.ProblemOf | src/bin/17.rs:83-97 | the search starts at (0, 0) with no direction, and start and finish lie in the grid |
| Day18Lagoon.DirectionOf | src/bin/18.rs:45-55 | exactly 'U', 'D', 'L' and 'R' are directions; any other character panics |
| Day18Lagoon.Inverse | src/bin/18.rs:35-42 | the inverse of a direction is another direction |
| Day18Lagoon.Advance | src/bin/18.rs:64-71 | one step moves one unit, North toward smaller y |
| Day18Lagoon.InverseInvolution | src/bin/18.rs:35-42 | inverting twice gives the direction back |
| Day18Lagoon.AdvanceInverse | src/bin/18.rs:35-71 | stepping back the inverse way returns to the same cell |
| Day18Lagoon.Repeat | src/bin/18.rs:84-93 | an instruction is `amount` steps in its direction |
| Day18Lagoon.BorderFrom | src/bin/18.rs:80-94 | digging only adds cells |
| Day18Lagoon.BorderKeys | src/bin/18.rs:80-94 | the border holds exactly the cells the walk steps from |
| Day18Lagoon.BorderKeep | src/bin/18.rs:81-86 | a cell the walk never steps from keeps its entry |
| Day18Lagoon.BorderLastVisit | src/bin/18.rs:81-88 | a cell holds the inverse of the step that reached it on its last visit and the step that left it |
| Day18Lagoon.StepsCons | src/bin/18.rs:80 | the steps of a plan are the first instruction's steps, then the rest |
| Day18Lagoon.RepeatCons | src/bin/18.rs:84-93 | a run of steps is its first step then the others |
| Day18Lagoon.BorderFromCons | src/bin/18.rs:81-93 | one step records the cell with the inverse of the previous step and the step, and moves on |
| Day18Lagoon.BuildBorder | src/bin/18.rs:74-97 | `build_border` digs the plan from (0, 0), starting with the last instruction's direction; an empty plan or an amount of 0 panics |
| Day18Lagoon.BoundingBox | src/bin/18.rs:100-104 | the bounds are the least and greatest coordinates of the border, each attained |
| Day18Lagoon.CountInside | src/bin/18.rs:99-125 | each row of the box toggles `inside` at cells entered from or leaving to the South and counts undug cells while inside |
| Day18Lagoon.InsideAtMostUndug | src/bin/18.rs:112-120 | dug cells are never counted as interior |
| Day18Lagoon.NoCrossingNoInside | src/bin/18.rs:108-122 | a row without crossings has no interior |
| Day18Lagoon.ParseInstruction | src/bin/18.rs:16-23 | an instruction needs three space-separated fields, and its amount is the second |
| Day18Lagoon.ParseInstructions | src/bin/18.rs:128 | one instruction per line |
| Day18Lagoon.BorderNonEmpty | src/bin/18.rs:74-97 | a dug border has at least one cell, so the bounds exist |
| Day18Lagoon.PartOne | src/bin/18.rs:127-134 | part one is the dug cells plus the interior counted within the bounding box |
| Day19Aplenty.CategoryValue | src/bin/19.rs:44-52 | a category value exists exactly for "x", "m", "a" and "s" and is one of the part's four ratings; any other name panics |
| Day19Aplenty.Holds | src/bin/19.rs:75-92 | the fallback always holds; a comparison panics exactly when its category is unknown |
| Day19Aplenty.RouteFirst | src/bin/19.rs:103-111 | a part is sent to the target of the first rule that holds, after rules that all fail |
| Day19Aplenty.SendPart | src/bin/19.rs:103-111 | the loop of `send_part` returns that target, and panics (None) when no rule holds |
| Day19Aplenty.RunFuel | src/bin/19.rs:286-294 | a run that reached "A" or "R" gives the same verdict with more fuel |
| Day19Aplenty.Calc | src/bin/19.rs:286-294 | `calc` follows the routes from "in" until "A" or "R"; a missing workflow panics |
| Day19Aplenty.Width | src/bin/19.rs:375-378 | a range holds values exactly when its start is at most its end |
| Day19Aplenty.With | src/bin/19.rs:116-121 | replacing one range of a box sets that range |
| Day19Aplenty.WithContains | src/bin/19.rs:137-142 | replacing one range changes membership only along that axis |
| Day19Aplenty.RuleSplit | src/bin/19.rs:123-280 | with the ranges clamped, a rule emits at most one box labelled with its target, and panics exactly on an unknown category |
| Day19Aplenty.LabelsAppend | src/bin/19.rs:123-282 | the labels of a point over two output lists are those of each, in order |
| Day19Aplenty.RuleSplitRoutes | src/bin/19.rs:123-280 | a comparison emits exactly the points of the box where it holds and keeps exactly those where it fails |
| Day19Aplenty.SplitRoutes | src/bin/19.rs:113-283 | a point of the box lies in exactly one emitted box, labelled with its route, or in none when it has no route; a point outside lies in none |
| Day19Aplenty.SendHypPart | src/bin/19.rs:113-283 | the loop of `send_hyp_part`, with clamped ranges, computes the split |
| Day19Aplenty.PrependEmpty | src/bin/19.rs:114 | prepending nothing changes nothing |
| Day19Aplenty.PrependAssoc | src/bin/19.rs:129-134 | prepending twice is prepending the concatenation |
| Day19Aplenty.RuleSplitAsWritten | src/bin/19.rs:123-280 | the split as written panics exactly on an unknown category |
| Day19Aplenty.UnclampedSplitLeaks | src/bin/19.rs:128-142 | for `in{x>1000:R,x<2000:A,R}` the second rule as written emits x in 1..=1999 to "A", though x = 1500 was sent to "R"; clamped, it emits 1..=1000 |
| Day19Aplenty.Calc2 | src/bin/19.rs:310-338 | the loop of `calc_2` runs the rounds from ("in", all ratings 1..=4000) |
| Day19Aplenty.HitsSnoc | src/bin/19.rs:328 | one more accepted box adds one hit for each point it contains |
| Day19Aplenty.DispatchSpec | src/bin/19.rs:326-332 | sorting a round's output moves each label "A" to the accepted boxes, drops "R" and passes the rest to the next round |
| Day19Aplenty.StepMisses | src/bin/19.rs:323-334 | a round changes nothing for a point no box of the round contains |
| Day19Aplenty.StepRoutes | src/bin/19.rs:323-334 | a round moves a point held by one box labelled `name` along that workflow's route |
| Day19Aplenty.RoundsMiss | src/bin/19.rs:322-335 | the rounds never accept a point no box holds |
| Day19Aplenty.RoundsFollowRun | src/bin/19.rs:286-335 | a point in one box labelled `name` is accepted exactly once when `calc` from `name` accepts it, and never otherwise |
| Day19Aplenty.AcceptedBoxesMatchCalc | src/bin/19.rs:286-338 | a rating lies in exactly one accepted box when `calc` accepts it from "in", and in none otherwise |
| Day19Aplenty.AxisOverlap | src/bin/19.rs:341-343 | the overlap of two ranges is positive exactly when they share a value |
| Day19Aplenty.ProductPositive | src/bin/19.rs:357 | the product of the four overlaps is positive exactly when each is |
| Day19Aplenty.OverlapShared | src/bin/19.rs:340-358 | two boxes overlap exactly when some rating lies in both |
| Day19Aplenty.OverlapSymmetric | src/bin/19.rs:340-358 | the overlap does not depend on the order of the boxes |
| Day19Aplenty.TotalAtMostVolumes | src/bin/19.rs:374-392 | the capped deduction never adds to the volumes |
| Day19Aplenty.DeductionDisjoint | src/bin/19.rs:383-386 | a box disjoint from all visited ones has nothing deducted |
| Day19Aplenty.TotalDisjoint | src/bin/19.rs:374-392 | for pairwise disjoint boxes the count is the sum of their volumes |
| Day19Aplenty.HitsTwo | src/bin/19.rs:328 | a point in two accepted boxes is hit at least twice |
| Day19Aplenty.HitsOne | src/bin/19.rs:328 | a point in an accepted box is hit at least once |
| Day19Aplenty.AcceptedTotal | src/bin/19.rs:360-395 | the accepted boxes are pairwise disjoint, so the count of `part_two` is the sum of their volumes |
| Day19Aplenty.CountCombinations | src/bin/19.rs:370-392 | the counting loop adds each box's volume less its capped overlap with the boxes before it |
| Day19Aplenty.ParseFallback | src/bin/19.rs:72-76 | a rule without ':' is the fallback to its text |
| Day19Aplenty.ParseComparison | src/bin/19.rs:78-94 | printing a comparison rule and parsing it gives the rule back |
| Day19Aplenty.ParseRules | src/bin/19.rs:67-96 | one rule per comma-separated transition |
| Day19Aplenty.ParseWorkflows | src/bin/19.rs:300-303 | one workflow per line |
| Day19Aplenty.Index | src/bin/19.rs:300-303 | the map holds exactly the workflows' names, each mapped to a workflow of that name |
| Day19Aplenty.ParsePart | src/bin/19.rs:28-40 | a part needs its braces (two characters) before the four categories |
| Day19Aplenty.ParseParts | src/bin/19.rs:299 | one part per line |
| Day19Aplenty.WorkflowBlockAgrees | src/bin/19.rs:297-366 | `part_two` reads the same workflows as `part_one` from every input `part_one` reads |
| Day19Aplenty.AcceptedRatingsFuel | src/bin/19.rs:305 | once every part's run has finished, more fuel changes nothing |
| Day19Aplenty.SumAccepted | src/bin/19.rs:305 | the sum over the parts `calc` accepts of their four ratings |
| Day19Aplenty.PartOne | src/bin/19.rs:296-308 | part one parses both blocks and sums the ratings of the accepted parts |
| Day19Aplenty.PartTwo | src/bin/19.rs:360-395 | part two parses the workflow block and counts the combinations over the accepted boxes |
| Day19Aplenty.FirstHoldingSkip | src/bin/19.rs:103-111 | after a first rule that fails, the first rule that holds is the first of the rest |
| Day19Aplenty.ComparisonSplitRoutes | src/bin/19.rs:123-280 | a comparison sends exactly the points of the box where it holds to its target and keeps exactly those where it fails |
| Day20Pulses.Send | src/bin/20.rs:37-40 | a module sends one pulse from its id to every output, in output order |
| Day20Pulses.Respond | src/bin/20.rs:36-117 | processing a pulse never changes a module's kind, id or outputs |
| Day20Pulses.BroadcastForwards | src/bin/20.rs:36-41 | a broadcast module forwards the pulse to every output, in order, and keeps its state |
| Day20Pulses.FlipFlopIgnoresHigh | src/bin/20.rs:65 | a flip-flop ignores a high pulse |
| Day20Pulses.FlipFlopCycle | src/bin/20.rs:62-82 | from off, a low pulse turns a flip-flop on and sends high, the next turns it off and sends low |
| Day20Pulses.ConjunctionNand | src/bin/20.rs:103-117 | a conjunction remembers the pulse and sends low exactly when every remembered pulse is high |
| Day20Pulses.ConjunctionAllHeard | src/bin/20.rs:106-111 | a conjunction that has heard high from every input sends low |
| Day20Pulses.Module.constructor | src/bin/20.rs:26-95 | a flip-flop starts off, a conjunction remembers low for every input |
| Day20Pulses.Module.Process | src/bin/20.rs:36-117 | `process` updates the module in place to the new state and returns the pulses sent |
| Day20Pulses.MemoryOf | src/bin/20.rs:94 | the memory holds exactly the input ids, each low |
| Day20Pulses.Round | src/bin/20.rs:157-165 | a round never adds or removes modules |
| Day20Pulses.RoundCounts | src/bin/20.rs:157-161 | every pulse of a round is counted once, as low or as high |
| Day20Pulses.RoundUntouched | src/bin/20.rs:162-164 | a module no pulse of the round is addressed to keeps its state |
| Day20Pulses.RoundKeepsWiring | src/bin/20.rs:157-165 | the kind, id and outputs of every module survive a round |
| Day20Pulses.CascadeKeys | src/bin/20.rs:146-171 | the cascade keeps the modules and counts at least the button's low pulse |
| Day20Pulses.RoundLowGrows | src/bin/20.rs:157-161 | counts only grow |
| Day20Pulses.RoundStep | src/bin/20.rs:157-165 | one pulse is counted and delivered to its receiver when it exists, its replies queued |
| Day20Pulses.CascadeStep | src/bin/20.rs:154-168 | the `while` loop runs one round and continues from its replies |
| Day20Pulses.Deliver | src/bin/20.rs:162-164 | a pulse updates its receiver in place, when it exists, and changes nothing otherwise |
| Day20Pulses.Run | src/bin/20.rs:146-171 | `run` updates the modules in place to the state after one press and returns the counts, the button's pulse included; a missing broadcaster panics |
| Day20Pulses.DeliverRound | src/bin/20.rs:155-167 | the inner loop delivers every pending pulse in order and collects the replies for the next round |
| Day20Pulses.Connections | src/bin/20.rs:121 | every line splits at " -> " |
| Day20Pulses.InputsAsWritten | src/bin/20.rs:130-138 | as written, an input is taken from every line whose output text contains the name; it panics exactly when such a line has an empty id, and every input is such a line's id without its first character |
| Day20Pulses.Inputs | src/bin/20.rs:130-138 | with the output list split, it panics exactly when a line listing the name has an empty id, and gives at most one input per line |
| Day20Pulses.InputsExact | src/bin/20.rs:130-138 | with the output list split, an id is an input of a conjunction exactly when its line lists the name as an output |
| Day20Pulses.SubstringInput | src/bin/20.rs:133 | as written, a conjunction "ab" counts "%c -> abc" as an input, since "abc" contains "ab"; split, it does not |
| Day20Pulses.InitialNetwork | src/bin/20.rs:176-179 | every module sits under its own id |
| Day20Pulses.CreateModules | src/bin/20.rs:120-179 | `create_module` over every line builds distinct fresh module objects whose states are the initial network |
| Day20Pulses.AddModule | src/bin/20.rs:176-179 | adding a new module object keeps the objects distinct and adds its state |
| Day20Pulses.NetworkFails | src/bin/20.rs:176-179 | a malformed line makes the whole network fail |
| Day20Pulses.PressesLow | src/bin/20.rs:181-183 | each press counts at least the button's low pulse |
| Day20Pulses.CascadeBroadcaster | src/bin/20.rs:170 | one press counts at least one low pulse |
| Day20Pulses.PartOne | src/bin/20.rs:173-188 | part one is the product of the low and high totals of 1000 presses |
| Day20Pulses.PressAll | src/bin/20.rs:181-183 | the 1000 presses sum the counts of each and leave the modules in the state after the last press |
| Day20Pulses.PressesNext | src/bin/20.rs:181-183 | one more press extends the totals of the earlier ones, or fails with them |
| Day20Pulses.PressesFail | src/bin/20.rs:181-183 | once a press fails, every later total fails |
| Day20Pulses.PressOnce | src/bin/20.rs:181-183 | one more press extends the running totals and the module state to those of `n + 1` presses |
| Day21Steps.TileOf | src/bin/21.rs:15-24 | exactly 'S', '.' and '#' are tiles; any other character panics |
| Day21Steps.Move | src/bin/21.rs:48-65 | a step changes exactly one coordinate, by exactly one |
| Day21Steps.MoveOpposite | src/bin/21.rs:48-65 | a step is undone by the opposite step, and different directions lead to different positions |
| Day21Steps.Rem | src/bin/21.rs:68 | Rust's `%` on `isize` truncates: a non-zero remainder has the sign of the dividend |
| Day21Steps.ModUnique | src/bin/21.rs:67-69 | a quotient and remainder in range are those of Euclidean division |
| Day21Steps.MyModIsEuclidean | src/bin/21.rs:67-69 | for a positive modulus `my_mod` is the Euclidean remainder: in `[0, m)` and differing from `x` by a multiple of `m` |
| Day21Steps.ParseRow | src/bin/21.rs:76-82 | a row parses exactly when every character is a tile, one tile per character |
| Day21Steps.ParseGrid | src/bin/21.rs:76-82 | the grid parses exactly when every row does, one row per line |
| Day21Steps.LastInRow | src/bin/21.rs:78-80 | the last Start of a row, or None when the row has none |
| Day21Steps.LastStart | src/bin/21.rs:75-82 | the start position is the last Start in row-major order, since each one overwrites the one before |
| Day21Steps.ParseMap | src/bin/21.rs:71-85 | `from_str` succeeds exactly when there is a line and every tile is known; the width is the first line's length, the height the line count, the start defaults to the origin |
| Day21Steps.Lookup | src/bin/21.rs:91 | a wrapped lookup needs a non-zero width and height |
| Day21Steps.LookupOnParsedMap | src/bin/21.rs:83-91 | on a parsed garden the wrapped row always exists, so a lookup fails exactly when the wrapped column is past the end of a short row |
| Day21Steps.NewFromSpec | src/bin/21.rs:88-99 | the scan over the directions succeeds when every lookup does and keeps exactly the moves onto tiles other than Rock |
| Day21Steps.NewPositionsSpec | src/bin/21.rs:87-100 | `get_new_pos` returns at most four positions, and a neighbour is among them exactly when its tile is not Rock |
| Day21Steps.Index | src/bin/21.rs:34-40 | every direction has a place in `Direction::iter()` |
| Day21Steps.NeighboursSpec | src/bin/21.rs:108 | the `flat_map` over the positions holds exactly the new positions of each |
| Day21Steps.StepSpec | src/bin/21.rs:108-109 | after `unique` a step holds exactly the open positions one move from a current one, each once |
| Day21Steps.StepReachable | src/bin/21.rs:107-110 | a list of exactly the positions reachable in `k` steps becomes exactly those reachable in `k + 1`, each listed once |
| Day21Steps.WalkFrom | src/bin/21.rs:107-110 | `n` more rounds keep the list free of repeats and reach exactly `n` layers further |
| Day21Steps.WalkReachable | src/bin/21.rs:105-112 | after `n` steps from the start the list holds each position reachable in exactly `n` steps once, so its length counts them |
| Day21Steps.Steps | src/bin/21.rs:105-110 | the step loop starts from the garden's start alone and reaches the `n`-step walk |
| Day21Steps.WalkSteps | src/bin/21.rs:107-110 | the loop's `n` rounds of neighbours then `unique` compute the `n`-step walk, and panic (None) exactly when it does |
| Day21Steps.PartOne | src/bin/21.rs:102-113 | part one counts the positions after 64 steps; a bad map or lookup panics |
| Day21Steps.SlideWith | src/bin/21.rs:161-165 | turning the window keeps its length |
| Day21Steps.Slide | src/bin/21.rs:161-165 | the `part_two` window keeps its length |
| Day21Steps.SlideWindow | src/bin/21.rs:161-165 | the loop drops the oldest value and appends the extrapolation, each turn |
| Day21Steps.ExtrapolateThree | src/bin/21.rs:115-137 | `check` of three values extrapolates the parabola through them: `a - 3b + 3c` |
| Day21Steps.Quadratic | src/bin/21.rs:142-158 | the quadratic passes through the three samples |
| Day21Steps.QuadraticExpand | src/bin/21.rs:161-165 | the polynomial identity behind one step of the quadratic |
| Day21Steps.QuadraticRecurrence | src/bin/21.rs:161-165 | the quadratic obeys the third-difference recurrence `check` applies |
| Day21Steps.SlideOnce | src/bin/21.rs:161-165 | one turn of a window of three |
| Day21Steps.SlideFrom | src/bin/21.rs:161-165 | a window of three over any sequence obeying the recurrence slides along it |
| Day21Steps.NextValueThree | src/bin/21.rs:162 | the extrapolation used by the window is `a - 3b + 3c` on three values |
| Day21Steps.QuadraticObeys | src/bin/21.rs:161-165 | the quadratic through the samples obeys the recurrence |
| Day21Steps.SlideQuadratic | src/bin/21.rs:161-165 | after `k` turns the window holds the quadratic at `k`, `k + 1` and `k + 2` |
| Day21Steps.WindowAnswer | src/bin/21.rs:161-167 | the last value after the 202298 turns is the quadratic at 202300 |
| Day21Steps.Samples | src/bin/21.rs:142-159 | the plot counts at 65, 196 and 327 steps |
| Day21Steps.PartTwo | src/bin/21.rs:139-168 | part two is the quadratic through the three samples, evaluated at 202300 |
| Day21Steps.StepOnce | src/bin/21.rs:108-109 | one round of the step loop computes one step |
| Day21Steps.WalkNext | src/bin/21.rs:107-110 | a walk of `m` steps is one step, then `m - 1` more from where it lands |
| Day22Bricks.ParsePosition | src/bin/22.rs:36-44 | a position needs at least three comma-separated numbers; a bad number or fewer pieces panics |
| Day22Bricks.NoComma | src/bin/22.rs:37 | a printed number holds neither ',' nor '~' |
| Day22Bricks.ParsePositionText | src/bin/22.rs:36-44 | printing a position and parsing it back gives the position |
| Day22Bricks.CreateBrick | src/bin/22.rs:13-23 | a brick needs two '~'-separated corners and carries the line number as id |
| Day22Bricks.CreateBrickText | src/bin/22.rs:13-23 | printing a brick's corners and parsing them back gives the brick |
| Day22Bricks.ParseEachSpec | src/bin/22.rs:89-92 | the lines parse exactly when each does, the i-th line giving the i-th brick |
| Day22Bricks.ParseBricks | src/bin/22.rs:89-92 | the lines parse exactly when each is a brick, the i-th line giving the i-th brick, which carries the number of its line |
| Day22Bricks.IntersectsMeaning | src/bin/22.rs:47-49 | `intersects` is symmetric, and for ranges written low to high holds exactly when some value lies in both |
| Day22Bricks.Blocked | src/bin/22.rs:58-62 | a brick is blocked at a level exactly when some settled brick lies directly under it there |
| Day22Bricks.Descend | src/bin/22.rs:55-66 | with every settled brick checked, a brick falls to level 1 or to the first level where it is blocked, never up |
| Day22Bricks.DescendPassesClear | src/bin/22.rs:57-66 | a falling brick passes only levels where nothing is directly under it |
| Day22Bricks.Settle | src/bin/22.rs:68-82 | moving a brick down succeeds exactly when `to.z - diff_z` does not underflow |
| Day22Bricks.Fall | src/bin/22.rs:51-86 | the loop of `fall` computes the fallen bricks |
| Day22Bricks.FallFrom | src/bin/22.rs:54-83 | the loop keeps the settled bricks in front and adds one brick per remaining input |
| Day22Bricks.Fallen | src/bin/22.rs:51-86 | `fall` returns one brick per input brick |
| Day22Bricks.FallFromChar | src/bin/22.rs:54-83 | the loop keeps one brick per input, each landing where the bricks already settled stop it |
| Day22Bricks.FallenChar | src/bin/22.rs:51-86 | brick `i` lands where falling onto bricks `0..i` stops it |
| Day22Bricks.FallenShape | src/bin/22.rs:51-86 | a settled brick keeps its id, x and y extent and height, never rises, stays at level 1 or above, rests on the ground or a settled brick, and passed only clear levels |
| Day22Bricks.FallenWellFormed | src/bin/22.rs:68-82 | upside-down bricks are the only way `fall` can fail |
| Day22Bricks.FallFromSome | src/bin/22.rs:54-83 | well-formed bricks always settle |
| Day22Bricks.DescendClear | src/bin/22.rs:57-66 | a brick that starts clear of the settled bricks is still clear where it stops |
| Day22Bricks.StartClear | src/bin/22.rs:54-93 | in an input sorted by bottom, a brick settled below its place cannot meet a later brick at that brick's own place |
| Day22Bricks.FallenDisjoint | src/bin/22.rs:51-93 | disjoint well-formed bricks sorted by bottom still share no cube once fallen |
| Day22Bricks.FirstBelow | src/bin/22.rs:58 | `find` returns the first settled brick whose top is directly below the level |
| Day22Bricks.DescendAsWritten | src/bin/22.rs:55-66 | as written a brick never rises |
| Day22Bricks.CubesValid | src/bin/22.rs:51-86 | the three cubes of the example are well formed, sorted by bottom and disjoint |
| Day22Bricks.FallThroughAsWritten | src/bin/22.rs:58-63 | as written, when the first settled brick below is elsewhere, a cube falls straight through another one into the ground |
| Day22Bricks.FallOntoCorrected | src/bin/22.rs:55-66 | checking every brick below, the third cube stops on the second and meets neither |
| Day22Bricks.Insert | src/bin/22.rs:93 | inserting keeps every brick and adds the new one |
| Day22Bricks.SortByBottom | src/bin/22.rs:93 | the sort is a permutation of the bricks |
| Day22Bricks.InsertSorted | src/bin/22.rs:93 | insertion keeps the order by bottom |
| Day22Bricks.InsertDistinct | src/bin/22.rs:93 | insertion of a new id keeps ids distinct |
| Day22Bricks.SortByBottomSpec | src/bin/22.rs:93 | `sorted_by` orders by bottom level, keeps every brick, and keeps ids distinct |
| Day22Bricks.Supported | src/bin/22.rs:99-103 | the bricks listed for `b` are exactly those resting on it |
| Day22Bricks.Structure | src/bin/22.rs:98-106 | every fallen brick appears, in order, with the bricks resting on it |
| Day22Bricks.RemovableMeaning | src/bin/22.rs:108-116 | with distinct ids, a brick passes the test exactly when every brick resting on it also rests on another brick |
| Day22Bricks.Bricks | src/bin/22.rs:89-94 | the input parses exactly when every line is a brick, and the bricks are then a permutation of the parsed ones sorted by bottom level |
| Day22Bricks.BricksDistinct | src/bin/22.rs:89-94 | the parsed and sorted bricks have distinct ids and are sorted by bottom |
| Day22Bricks.FallenDistinct | src/bin/22.rs:70-71 | settling keeps the ids distinct |
| Day22Bricks.CountRemovable | src/bin/22.rs:108-118 | the count of bricks passing the test is at most the number of bricks, and equals it exactly when each passes |
| Day22Bricks.PartOne | src/bin/22.rs:88-119 | part one counts the bricks that pass the test once all have fallen |
| Day22Bricks.RemovableShared | src/bin/22.rs:108-116 | a brick that passes the test has every brick it supports supported by another brick too |
| Day22Bricks.SharedRemovable | src/bin/22.rs:108-116 | with distinct ids, a brick whose supported bricks all rest on another brick passes the test |
| Day23Hike.TileOne | src/bin/23.rs:14-24 | exactly '#', '.', '^', 'v', '<' and '>' are tiles, each slope pointing the compass way it shows; any other character panics |
| Day23Hike.TileTwoFlattens | src/bin/23.rs:14-32 | the second reading is the first with every slope flattened to path |
| Day23Hike.ParseRow | src/bin/23.rs:42-47 | one tile per character, read the slippery or the flat way |
| Day23Hike.ParseRows | src/bin/23.rs:42-47 | one row per line |
| Day23Hike.ParseGrid | src/bin/23.rs:40-50 | the matrix is rectangular with one row per line; rows of different lengths panic |
| Day23Hike.StepsToSpec | src/bin/23.rs:95-119 | the scan over the directions yields exactly the permitted moves among them |
| Day23Hike.NextStatesSpec | src/bin/23.rs:89-120 | `get_next_states` yields exactly the moves, among the tried directions, onto a tile the filters let through, one step further |
| Day23Hike.NextStatesRules | src/bin/23.rs:89-120 | from a slope only downhill; no successor turns back, stands in the forest or on a slope pointing back, and each stays on the map one step further |
| Day23Hike.ExpandSpec | src/bin/23.rs:73-75 | the `flat_map` holds exactly the successors of the current states |
| Day23Hike.PartitionSpec | src/bin/23.rs:77 | `partition` splits the states by whether they stand on the finish |
| Day23Hike.MaxDistance | src/bin/23.rs:86 | `max_by_key(..).unwrap()` is a distance attained by a finished state and at least every other; it panics when none finished |
| Day23Hike.ExploreStep | src/bin/23.rs:72-84 | one round expands the current states, keeps those at the finish and goes on with the rest |
| Day23Hike.Calc | src/bin/23.rs:68-87 | `calc` runs the rounds until no state is left and returns the greatest finished distance |
| Day23Hike.RoundStep | src/bin/23.rs:72-84 | the successors of round `k` are exactly the states of round `k + 1` |
| Day23Hike.RoundsEnd | src/bin/23.rs:72 | nothing is left once a round has no state off the finish |
| Day23Hike.OngoingStep | src/bin/23.rs:77-83 | the states going on are exactly those of the next round off the finish |
| Day23Hike.ArrivedStep | src/bin/23.rs:79-81 | the finished states are exactly those of the rounds so far at the finish |
| Day23Hike.ExploreFinds | src/bin/23.rs:72-84 | when the loop ends, the finished states are exactly the states of any round that stand on the finish |
| Day23Hike.SlipperyCounts | src/bin/23.rs:117 | each move of part one adds one to the distance |
| Day23Hike.RoundDistance | src/bin/23.rs:117 | a state of round `k` has walked `k` steps |
| Day23Hike.ExploreLongest | src/bin/23.rs:68-87 | under a rule that counts steps, `calc` answers the length of the longest hike to the finish |
| Day23Hike.CalcLongest | src/bin/23.rs:68-120 | on the slippery map, `calc` answers the length of the longest hike |
| Day23Hike.Finish | src/bin/23.rs:125 | the finish, second to last cell of the bottom row, lies on the map |
| Day23Hike.PartOne | src/bin/23.rs:122-128 | part one explores the slippery map from (0, 1) heading South and answers the greatest finished distance |
| Day23Hike.PathStepsToSpec | src/bin/23.rs:160-182 | the scan over the directions yields exactly the path neighbours, except the one back against the starting direction |
| Day23Hike.NextStates2Spec | src/bin/23.rs:159-183 | `get_next_states_2` yields exactly the path neighbours one step further, except the one back against the starting direction |
| Day23Hike.NextStates2Bound | src/bin/23.rs:159-183 | there are at most four of them |
| Day23Hike.Descending | src/bin/23.rs:228-233 | each recursive call of `find_longest` visits an unvisited node, so the search terminates |
| Day23Hike.PrependAssoc | src/bin/23.rs:228-234 | collecting results in two steps is collecting them at once |
| Day23Hike.FindLongest | src/bin/23.rs:218-237 | `find_longest` searches depth first and returns one weight per way to the finish; a missing node panics |
| Day23Hike.HikesAreTrails | src/bin/23.rs:218-237 | every weight returned belongs to a trail of unvisited nodes to the finish, and every such trail's weight is returned |
| Day23Hike.HikesAlongAreTrails | src/bin/23.rs:228-234 | the loop over a node's edges returns exactly the weights of trails through an unvisited neighbour |
| Day23Hike.ViaIsTrail | src/bin/23.rs:229-233 | one edge contributes exactly the trails through its unvisited end |
| Day23Hike.RowPaths | src/bin/23.rs:141-143 | the inner loop collects exactly the path cells of a row |
| Day23Hike.GridPaths | src/bin/23.rs:140-144 | the loops collect exactly the path cells of the map |
| Day23Hike.PathCells | src/bin/23.rs:138-144 | the first loops of `get_structure` list every path cell, row by row |
| Day23Hike.JunctionsIn | src/bin/23.rs:146 | the junctions are exactly the cells with more than two path neighbours |
| Day23Hike.NextJunctions | src/bin/23.rs:185-216 | `find_next_junctions` follows each way out of a cell, each corridor within the step bound |
| Day23Hike.Edges | src/bin/23.rs:150 | each reached cell becomes an edge with its weight |
| Day23Hike.GetStructure | src/bin/23.rs:137-157 | `get_structure` builds the node map as written |
| Day23Hike.CorridorSpec | src/bin/23.rs:197-212 | following one corridor pushes at most one entry: the start or finish reached, or the cell before a fork |
| Day23Hike.FollowWaySpec | src/bin/23.rs:190-213 | each way pushes at most one entry, of one of those kinds |
| Day23Hike.FollowWaysSpec | src/bin/23.rs:190-213 | every entry pushed comes from one of the ways |
| Day23Hike.NextJunctionsSpec | src/bin/23.rs:185-216 | every entry returned for a cell comes from one of the path cells next to it |
| Day23Hike.JunctionsSpec | src/bin/23.rs:140-146 | a junction is a path cell of the map with more than two path neighbours |
| Day23Hike.NodesFromSpec | src/bin/23.rs:148-151 | the map gets a node for each junction, filed under its own position |
| Day23Hike.StructureShape | src/bin/23.rs:137-157 | the structure has a node for exactly the junctions, the start and the finish, each under its own position |
| Day23Hike.MaxOf | src/bin/23.rs:134 | `max().unwrap()` is an element and at least every element; it panics on none |
| Day23Hike.LongestTrail | src/bin/23.rs:130-237 | part two's answer is one more than the weight of the heaviest trail from the start node to the finish |
| Day23Hike.PartTwo | src/bin/23.rs:130-135 | part two flattens the slopes, builds the junction graph and answers its longest way plus one |
| Day23Hike.Answer | src/bin/23.rs:133-134 | the tail of part two: the longest weight plus one |
| Day23Hike.RowCells | src/bin/23.rs:142-144 | the inner loop collects exactly the path cells of one row, left to right |
| Day23Hike.StructureKeys | src/bin/23.rs:147-157 | adding the start and the finish to the junction nodes gives keys for exactly those three kinds of cell, each node under its own position |
| Day25Snowverload.LinksTo | src/bin/25.rs:15-17 | one link per target, with id `from + to` |
| Day25Snowverload.CreateLinks | src/bin/25.rs:12-18 | `create_links` succeeds exactly when the line has ": " |
| Day25Snowverload.CreateLinksText | src/bin/25.rs:12-18 | a line "from: t1 t2 ..." gives exactly one link from `from` per target, in order |
| Day25Snowverload.ParseLinks | src/bin/25.rs:98 | the links parse exactly when every line has ": ", and every line's links are among them |
| Day25Snowverload.JoinNoColon | src/bin/25.rs:15 | joined names hold no ':' |
| Day25Snowverload.AdjacentNodes | src/bin/25.rs:20-32 | the two ends of a link are nodes |
| Day25Snowverload.ConnectedSelf | src/bin/25.rs:34-49 | every name is connected to itself |
| Day25Snowverload.ConnectedStep | src/bin/25.rs:34-49 | a connection extends along a link |
| Day25Snowverload.ConnectedSymmetric | src/bin/25.rs:20-32 | links are read both ways, so connection is symmetric |
| Day25Snowverload.ConnectedTransitive | src/bin/25.rs:34-49 | connection is transitive |
| Day25Snowverload.ConnectedAlong | src/bin/25.rs:34-49 | every name along a walk is connected to its start |
| Day25Snowverload.ClosedHoldsConnected | src/bin/25.rs:34-49 | a list holding every neighbour of its names holds every name connected to one of them |
| Day25Snowverload.GetNextSpec | src/bin/25.rs:20-32 | `get_next` yields exactly the unvisited neighbours, links read both ways |
| Day25Snowverload.RoundSpec | src/bin/25.rs:39-45 | a round appends what it finds to the visited list, and what it finds was unvisited and neighbours a current name |
| Day25Snowverload.RoundExpands | src/bin/25.rs:39-45 | after a round every neighbour of a current name is visited |
| Day25Snowverload.SubsetCard | src/bin/25.rs:38 | a subset is no larger |
| Day25Snowverload.RoundShrinks | src/bin/25.rs:38-46 | a round never adds unvisited names and removes one when it finds anything, so the loop ends |
| Day25Snowverload.GetGroup | src/bin/25.rs:34-49 | the loop of `get_group`, breadth first from the start |
| Day25Snowverload.RoundKeepsSearching | src/bin/25.rs:38-46 | the loop keeps the visited names connected to the start and every unfinished neighbour pending |
| Day25Snowverload.GroupFromSearches | src/bin/25.rs:38-46 | when the loop ends nothing connected is left out |
| Day25Snowverload.GroupIsComponent | src/bin/25.rs:34-49 | `get_group` starts with the start and lists exactly the names connected to it |
| Day25Snowverload.ConnectedNodes | src/bin/25.rs:34-49 | a name connected to a node is a node |
| Day25Snowverload.SameComponent | src/bin/25.rs:34-49 | connected names have the same component |
| Day25Snowverload.GroupElements | src/bin/25.rs:34-49 | a group found from a node holds exactly its component |
| Day25Snowverload.FlattenSpec | src/bin/25.rs:63-67 | a name is in the flattened groups exactly when some group holds it |
| Day25Snowverload.NextStart | src/bin/25.rs:62-72 | `find_map` returns a node no group holds, and None exactly when the groups cover every node |
| Day25Snowverload.FindGroups | src/bin/25.rs:51-83 | the loop of `find_groups`, one group from each uncovered name, None once `AMOUNT` groups leave one uncovered |
| Day25Snowverload.GroupSetsPush | src/bin/25.rs:60 | pushing a group adds its set |
| Day25Snowverload.GroupSetsSpec | src/bin/25.rs:60 | the group sets are exactly those of the groups |
| Day25Snowverload.UncoveredIsNew | src/bin/25.rs:62-76 | a name no group holds has a component none of the groups is |
| Day25Snowverload.CoveredIsAll | src/bin/25.rs:74-75 | when every node is covered the groups are all the components |
| Day25Snowverload.ProperSubsetCard | src/bin/25.rs:55-78 | a proper subset is smaller |
| Day25Snowverload.PushSplitting | src/bin/25.rs:58-60 | a group from an uncovered node is a new component |
| Day25Snowverload.GroupsFromSpec | src/bin/25.rs:55-82 | the loop succeeds exactly when there are `AMOUNT` components, and then its groups are those components |
| Day25Snowverload.GroupsAreComponents | src/bin/25.rs:51-83 | `find_groups` gives Some exactly when there are links forming `AMOUNT` components, and then its groups hold exactly those components |
| Day25Snowverload.AllSameAsSpec | src/bin/25.rs:88-92 | the loop holds exactly when every later link joins the same pair as the first |
| Day25Snowverload.AreAllSameNodesSpec | src/bin/25.rs:85-95 | `are_all_same_nodes` holds exactly when every link joins the same two names as the first; no links panics |
| Day25Snowverload.GetNextDistinct | src/bin/25.rs:20-32 | without parallel wires `get_next` lists each name once |
| Day25Snowverload.DistinctAppend | src/bin/25.rs:41-43 | appending new distinct names keeps the list distinct |
| Day25Snowverload.RoundDistinct | src/bin/25.rs:39-45 | without parallel wires a round finds each name once |
| Day25Snowverload.GroupFromDistinct | src/bin/25.rs:38-46 | without parallel wires the group lists each name once |
| Day25Snowverload.DistinctSize | src/bin/25.rs:131 | a list without repeats is as long as its set |
| Day25Snowverload.GroupSize | src/bin/25.rs:34-131 | without parallel wires a group's length is the size of its component |
| Day25Snowverload.GroupSizeEach | src/bin/25.rs:131 | the same holds for each group found |
| Day25Snowverload.Remaining | src/bin/25.rs:129 | the links left are exactly those whose id is no cut wire's |
| Day25Snowverload.PairOfGroups | src/bin/25.rs:130-132 | two groups give their two sets, and the fold is the product of their lengths |
| Day25Snowverload.TwoGroups | src/bin/25.rs:129-132 | two groups of a simple graph are its two components and their lengths multiply to the product of the component sizes |
| Day25Snowverload.PartOne | src/bin/25.rs:97-133 | part one answers exactly when the lines parse and the wires left after the cut form exactly two components |
| Day25Snowverload.PartOneMultipliesComponents | src/bin/25.rs:97-133 | once the cut leaves exactly two components part one is the product of their sizes, and otherwise None |
| Day25Snowverload.RoundStep | src/bin/25.rs:39-45 | one name of a round: what it finds joins the list found so far and the visited list before the rest of the round |

## Left out

- `src/bin/24.rs`: not part of this model. It computes in floating point and delegates line intersection to foreign crates.
- Reading the puzzle files, the `solution!` macro and debug output (`println!`, `dbg!`): I/O, with no effect on the answers. The example inputs are not part of this model, so the example answers are not stated as lemmas.
- Rust's fixed-width integers: every quantity is an unbounded `int` or `nat`. Overflow of `u32`/`usize` sums and products and truncating casts are not modelled. The underflows the solutions can reach on puzzle-shaped data become `None`: `amount - 1` in day 18, `rows - 1` / `columns - 2` in day 23 and `to.z - diff_z` in day 22. Day 9's `len - 2 + 1` underflow is `None` only in the as-written members (`Day09Oasis.DiffsAsWritten`, `Day09Oasis.ExtrapolateAsWritten`); the answers follow the corrected `windows(2)` differences of the Findings below.
- `lines()` splits on '\n' only. Stripping a '\r' before the newline is not modelled.
- Text is a sequence of characters, where Rust's `str::len()` and range slicing count UTF-8 bytes. The model assumes ASCII input, on which the two agree. On other input it differs at: the first line's `len()` taken as width in `src/bin/11.rs:13` and `src/bin/14.rs:65,187` (so one multi-byte character changes the load weights); the `[1..]` slices of ids in `src/bin/20.rs:126,134,140`, which panic when an id starts with a multi-byte character where the model drops one character; and the brace and bracket slices of `src/bin/19.rs:29,67`.
- The regular expressions of days 4, 6 and 12 (`\s+`, the card capture, `\.+`) are written out as `CollapseWhitespace`, a leftmost-match search for the card pattern (`Day04Scratchcards.FirstMatch`) and `CollapseDots`, not as a regex engine. The card pattern's `\d` is taken as the ASCII digits, where the regex crate also accepts other Unicode decimal digits; on such a digit the source's `parse::<u32>()` panics instead.
- rayon's parallel iterators (days 5, 14, 21, 23) are modelled sequentially, since they only speed up independent work.
- The `HashMap` iteration order is not modelled. Day 8's part two takes the start ids of a set in an unspecified order, and its contract holds for every order. Day 14's maps are Dafny `map`s.
- Day 14's `&mut HashMap` parameters are modelled as map values that the methods return, so aliasing of the caller's map is not captured.
- Day 14's `tilt_map`, `cycle` and `part_two` are left out: the tilted copies are discarded and `part_two` answers `Some(0)`.
- The `part_two` functions of days 12, 13, 15, 16, 18, 20, 22 and 25 are left out: each answers `None` whatever the input.
- Day 12's `calc`, and with it `part_one` and the chunk cache, are left out. The source marks `calc` as unfinished, and it can index out of range. The enumeration `get_possible_sequences`, unfolding and the line normalisation are modelled.
- Day 17's `pathfinding::astar` is a foreign search and is left out. The model gives the successor, heuristic and goal rules handed to it (`Day17Crucible.ProblemOf`), and proves the heuristic admissible.
- `pathfinding::Matrix` in days 17 and 23 is modelled as a rectangular `seq<seq<…>>`. Its `move_in_direction` gives the neighbour on the grid or nothing, and building it from ragged rows is a `None`.
- Day 25's randomised edge contraction (`rand::thread_rng`, probabilistic termination) is left out. The three wires it cuts are a parameter `cut` of `Day25Snowverload.PartOne`.
- Day08Network.StepsToZZZ, Day08Network.GhostSteps, Day08Network.CountSteps, Day08Network.PartOne and Day08Network.PartTwo: the walks take a `fuel` step bound, with `None` when it runs out, because the source's `while` loops need not end.
- Day10PipeMaze.Walk, Day10PipeMaze.FarthestOnLoop, Day10PipeMaze.EnclosedByLoop, Day10PipeMaze.PartOne and Day10PipeMaze.PartTwo: the loop walk takes a `fuel` step bound, because the source walks until it meets the start again.
- Day16Lava.BeamLoop and Day16Lava.PartOne: the beam loop takes a `fuel` round bound, because the source loops until no beam is left.
- Day19Aplenty.Calc, Day19Aplenty.Calc2, Day19Aplenty.SumAccepted, Day19Aplenty.PartOne and Day19Aplenty.PartTwo: sending a part or a box takes a `fuel` bound on the workflow steps, because a cycle of workflows would loop for ever in the source.
- Day20Pulses.Run, Day20Pulses.PressAll and Day20Pulses.PartOne: each button press takes a `fuel` bound on the pulse rounds, because a cycle of modules could keep pulses going.
- Day23Hike.Calc, Day23Hike.NextJunctions, Day23Hike.PartOne and Day23Hike.PartTwo: the search rounds and each corridor walk take a `fuel` bound.
- Day19Aplenty.AcceptedBoxesMatchCalc and Day19Aplenty.AcceptedTotal: the agreement of part two's boxes with part one's `calc` assumes `WellFormed`, that a fallback rule comes last in its workflow. A fallback earlier in a workflow makes `send_hyp_part` emit the rest of the box with the later rules never applied to it. An inverted (empty) range is given width 0, where the source would underflow.
- Day07CamelCards.LeTransitive: the hand order is proved transitive only over hands of one length, because `Game::cmp` zips the cards and stops at the shorter hand.
- Day25Snowverload.GroupSize: a group's length is the size of its component only under `Simple`, that no wire is listed twice. With a repeated wire the source can push a name twice in one round.
- Day23Hike.ExploreLongest: the longest-hike statement assumes `Counting`, that every successor is one step further, which `Day23Hike.SlipperyCounts` proves for the slippery map.
- Day23Hike.NextJunctions: the weights follow the source as written, and the model states no closed form for them. A corridor ending at the start or the finish is recorded one step short (so `part_two` adds one), and where the first cell of a way is itself a fork, that fork's first successor is recorded with weight 1.
- Day21Steps.PartTwo: the model states the extrapolation the source performs over its sampled counts. It does not claim that this gives the number of plots after 26501365 steps; that depends on the puzzle input's 131-wide grid with an empty start row and column.
- Day22Bricks.Fall, Day22Bricks.FallFrom, Day22Bricks.Fallen and Day22Bricks.PartOne: they follow the corrected descent `Day22Bricks.Descend` of the Findings below, which checks every settled brick one level down. For three unit cubes, one on the ground, one beside it and one above the second, the model stops the third cube on the second, where the first-match `find` of `src/bin/22.rs:58-63` lets it fall through to the ground.
- Day22Bricks.FallThroughAsWritten: the as-written `find` is shown wrong on that one concrete input, not characterised in general.
- Day09Oasis.PartOne, Day09Oasis.PartTwo, Day09Oasis.SumNext and Day09Oasis.SumPrevious: they follow the corrected `Day09Oasis.Diffs` of the Findings below. On a history whose differences reach a single value (the line `7`) the source panics on the `len - 2 + 1` underflow of `src/bin/09.rs:3-5`, where the model answers.
- Day10PipeMaze.FarthestOnLoop, Day10PipeMaze.PartOne, Day10PipeMaze.EnclosedByLoop and Day10PipeMaze.PartTwo: they follow the corrected `Day10PipeMaze.FirstConn` of the Findings below. With the start on the top row the source panics on the North probe of `src/bin/10.rs:61-67`, where the model walks the loop.
- Day16Lava.BeamLoop and Day16Lava.PartOne: they follow the corrected `Day16Lava.ParseMap` of the Findings below. On a non-square platform the answers differ from the source; on the one-row platform `..` the model energises 2 tiles where the swapped bounds of `src/bin/16.rs:134` give 1.
- Day19Aplenty.SendHypPart, Day19Aplenty.Calc2, Day19Aplenty.AcceptedTotal and Day19Aplenty.PartTwo: they follow the clamped `Day19Aplenty.RuleSplit` of the Findings below. For the workflow `in{x>1000:R,x<2000:A,R}` the model counts 1000·4000³ accepted combinations where the unclamped split of `src/bin/19.rs:128-142` counts 1999·4000³.
- Day20Pulses.InitialNetwork, Day20Pulses.CreateModules and Day20Pulses.PartOne: they follow the exact `Day20Pulses.Inputs` of the Findings below. A conjunction `ab` next to a line `%c -> abc` gets no input from `c` in the model, where the substring `contains` of `src/bin/20.rs:133` adds one.
- Day 20's conjunction inputs are the ids of the feeding lines with their first character dropped, as in the source. The broadcaster's id therefore becomes `roadcaster`, and a conjunction fed by the broadcaster remembers a name no pulse comes from.

## Findings

| source | as written | input that shows it | evidently intended | confidence | as-written member | corrected member |
|---|---|---|---|---|---|---|
| src/bin/09.rs:3-5 | `overlapping_chunks` iterates over `0..len - 2 + 1`, which underflows for a row of one value | the line `7` (and any row whose differences reach a single value) | adjacent pairs over `windows(2)`, as `21.rs` does, so that one value has no differences | not executed | Day09Oasis.SingleReadingAsWritten (with Day09Oasis.DiffsAsWritten, Day09Oasis.ExtrapolateAsWritten) | Day09Oasis.Diffs, Day09Oasis.Check |
| src/bin/10.rs:61-67 | `find_first_conn` probes North first, indexing row `y - 1` even when the start is on the top row | a start in the top-left corner with pipes to its east and south | skip probes that leave the map and take the first connecting neighbour on it | not executed | Day10PipeMaze.CornerStartAsWritten (with Day10PipeMaze.FirstConnAsWritten) | Day10PipeMaze.CornerStartCorrected (with Day10PipeMaze.FirstConn) |
| src/bin/14.rs:101 | tilting South/East visits only start indices `(0..full_length - 2).rev()`, so index `full_length - 2` never rolls | a 3-long line with a rock at index 1 and index 2 free | `(0..full_length - 1).rev()`: every index but the last | not executed | Day14Reflector.TiltedUpAsWrittenSkips (with Day14Reflector.TiltedUpAsWritten) | Day14Reflector.TiltList, Day14Reflector.TiltedUpSpec |
| src/bin/16.rs:134 | `Map::from_str` stores the line count as the width and the first line's length as the height | the one-row platform `..`: the beam stops at the first tile | width = length of the first line, height = number of lines | not executed | Day16Lava.SwappedBoundsStopEarly (with Day16Lava.ParseMapAsWritten) | Day16Lava.ParseMap |
| src/bin/19.rs:128-142 | `send_hyp_part` emits `[start, n - 1]` for a `<` rule (and `[n + 1, end]` for a `>` rule) without clamping to the current range | `in{x>1000:R,x<2000:A,R}`: x = 1500 goes to R first, yet the second rule sends x in 1..=1999 to A | clamp each emitted range to the part of the box still routed by that rule | not executed | Day19Aplenty.UnclampedSplitLeaks (with Day19Aplenty.RuleSplitAsWritten) | Day19Aplenty.RuleSplit, Day19Aplenty.SplitRoutes |
| src/bin/20.rs:133 | a conjunction's inputs are the lines whose output text `contains` its name, a substring test | a conjunction `ab` and the line `%c -> abc` | membership of the name among the `", "`-separated outputs | not executed | Day20Pulses.SubstringInput (with Day20Pulses.InputsAsWritten) | Day20Pulses.InputsExact (with Day20Pulses.Inputs) |
| src/bin/22.rs:58-63 | `fall` stops a brick only if the first settled brick (by `find`) whose top is at `z - 1` overlaps it | three unit cubes: one on the ground, one beside it, one above the second | check every settled brick whose top is at `z - 1` | not executed | Day22Bricks.FallThroughAsWritten (with Day22Bricks.DescendAsWritten) | Day22Bricks.FallOntoCorrected (with Day22Bricks.Descend) |
