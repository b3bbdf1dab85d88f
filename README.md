# Advent of Code solutions, modelled and verified in Dafny

This project models the puzzle solutions in the repository: the Rust
programs for Advent of Code 2022 (days 1 to 14, including the second-part
variants under `2022/crates/`) and the Go programs for days 1 to 3 of 2023.
Each program reads its puzzle input as one string, parses it with its own
small grammar, runs a computation or a simulation, and reports one answer
or an error message. The model keeps each program's grammar, branches,
error texts and the integer limits its parsers check, and proves what the
answer means. Running totals and products are unbounded in the model; where
a program's fixed-width total can overflow, "## Left out" says so.

There is one Dafny module per source program:

| module | program |
|---|---|
| `CalorieCounting` | 2022 day 1: the largest total of a blank-line separated group |
| `RockPaperScissors`, `RockPaperScissorsOutcome` | 2022 day 2 and its second part: the tournament score |
| `Rucksack`, `RucksackBadges` | 2022 day 3 and its second part: priorities of shared items and of group badges |
| `CampCleanup`, `CampCleanupOverlap` | 2022 day 4 and its second part: ranges that contain or overlap each other |
| `SupplyStacks` | 2022 day 5: the crate drawing, the `Supply` stacks and the moves carried out in place |
| `PacketMarker`, `StartMarker` | 2022 day 6 with four explicit comparisons, and its second part's general search: the first window of distinct bytes |
| `NoSpaceLeft` | 2022 day 7 (second part): the directory tree rebuilt from a terminal session, and the directory to delete |
| `TreetopMatrix`, `TreetopHouse`, `TreetopHouseWide` | 2022 day 8: the square matrix with its rotation, and the best scenic score with byte cells and with 32-bit cells |
| `RopeBridge` | 2022 day 9: the knots of a rope following its head, and the tail's distinct positions |
| `CathodeRay` | 2022 day 10: the CPU class and the sum of signal strengths |
| `MonkeyBusiness` | 2022 day 11: the `Monkey` and `Monkeys` classes, rounds of throwing and the level of monkey business |
| `HillGrid`, `HillSearch`, `HillClimbing`, `HillClimbingInverted` | 2022 day 12 and its second part: the grid, the breadth-first search shared by both programs, and each program's searcher class |
| `DistressSignal`, `DistressSignalExamples`, `DistressSignalKey` | 2022 day 13: nested packets, their comparison and parser, and the decoder key |
| `RegolithReservoir` | 2022 day 14: rock paths extruded into points |
| `Trebuchet` | 2023 day 1: calibration values from the first and last digit of each line |
| `CubeConundrum` | 2023 day 2: the sum of the ids of the possible games |
| `GearRatios` | 2023 day 3: the sum of the part numbers of the engine schematic |

`Common` holds what the programs take from the Rust and Go standard
libraries: `Result` and `Option`, `str::split` and `strings.Split`, the
decimal parsers of `u32`, `usize`, `i32`, `u8` and `strconv.Atoi` with
their error texts, trimming, `collect` into a `Result`, and sums. `GoCommon`
holds the line splitting and quoting of the Go programs.

Where a program changes state step by step, the model does too. The
`Supply` stacks of day 5, the CPU of day 10, the monkeys of day 11 and the
searchers of day 12 are classes. Their methods change their fields under
`modifies` clauses, and the new state is tied to a function of the old one.
Loops of the source are `while` loops with invariants: the scans of days 6
and 8, the loops of the Go programs, the rotation of the matrix and the
search queue. Each loop is proved against a specification function, and
the properties the puzzle asks for are lemmas about that function.

Highlights of what is proved:

- Day 12: the search keeps a table of recorded directions whose depths are
  true step counts. An End it finds has no nearer End. "End not found" is
  reported only when no End is reachable. The path read back is legal,
  leads to the start and has the End's depth. Both programs share this
  proof; the second inverts the map and searches from the summit down.
- Day 13: every packet compares equal with itself, swapping the packets
  flips the answer, and the comparison is transitive. The
  bracket-aware comma split is a loop proved against a recursive
  definition. Reading a packet's text gives the packet back.
- Day 5: a move preserves the multiset of crates and moves exactly the
  top crates it names.
- Day 8: a quarter turn applied four times is the identity. The score map
  built by turning and multiplying equals the product of the four
  viewing distances.
- Day 9: the rope stays together after every step.
- Day 11: a round of the in-place simulation equals the functional round.
  Items are conserved except those a monkey throws to itself.
- Days 1 to 4 and the Go programs: round trips between rendering and
  parsing, and exact error cases.

Some behaviour of the source differs from what its tests or its
description suggest, and the model follows the code:

- Day 5 (`2022/5/src/main.rs:27-47`): `move_crates` lifts the top crates
  with `drain(len - quantity..)` and keeps their order. Two crates moved
  from the sample's first stack `GDA` onto its third `IFC` therefore give
  `IFCDA` and the tops `GBA`. The test at `2022/5/src/main.rs:147-160` expects `IFCAD` and `GBD`; that is
  the one-at-a-time order, which the code does not produce.
  `SupplyStacks.SampleMove` states the code's result.
- Day 6 (`2022/6/src/main.rs:15`, `2022/crates/6/src/main.rs:7`): both
  scans stop before the window that ends at the end of the data. A marker
  completed only by the last byte is not found
  (`StartMarker.EndWindowIgnored`).
- Day 11 (`2022/11/src/main.rs`): a caught item is put at the FRONT of the
  catcher's list. An item a monkey throws to itself is lost, because the
  list is cloned and then overwritten (`MonkeyBusiness.TurnLosesSelfThrows`).
- Days 3, 4, 5, 7, 9, 10 and both programs of day 12: an input that ends
  in a newline fails. The empty last piece of the split is parsed as a
  line and rejected (the `TrailingNewlineFails` lemmas). On day 5 that
  piece is the instruction `""`, which has one token instead of six
  (`SupplyStacks.EmptyInstructionRejected`). On day 12 it is a row
  shorter than the first one, or every row is empty and there is no
  start. On day 8 the same input is not a square matrix
  (`TreetopMatrix.TrailingNewlineNotSquare`).
- Day 2: the `.rev().skip(1)` drops the last piece of the split, whatever
  it is. Without a final newline the last game is lost.
- Day 12, first program: an End square becomes a target without the climb
  check; the start is queued without being marked.
- 2023 day 2: `parseGame` does not check the word `Game`.
- 2023 day 3: the last line read has its last character cut off, even
  when the input does not end in a newline. The check `start == end` can
  never hold.

## Model

| member | source | states |
|---|---|---|
| Common.ParseUnsigned | 2022/4/src/main.rs:20-21 | `str::parse` of an unsigned type: succeeds exactly for an optional `+` and one or more digits whose value is below the limit, and gives that value |
| Common.ParseSigned | 2022/crates/4/src/main.rs:20-21 | `str::parse` of a signed type and `strconv.Atoi`: a success is an optional sign and one or more digits, their value negated after `-`, within the bounds; every such text within the bounds succeeds |
| Common.ParseDecimal | 2022/4/src/main.rs:20-21 | every value below the limit parses back from its decimal text |
| Common.ParseRejectsNoDigits | 2022/4/src/main.rs:20-21 | nothing, or a sign alone, never parses |
| Common.LeadingDigits | 2022/4/src/main.rs:20-21 | the longest run of digits at the start of the text: a prefix of it, all digits, followed by a non-digit or nothing |
| Common.UnsignedParseError | 2022/4/src/main.rs:20-21 | the `ParseIntError` text: "cannot parse integer from empty string" exactly for the empty text; "number too large to fit in target type" exactly when the leading digits already reach the limit, even if a non-digit follows; otherwise "invalid digit found in string" |
| Common.SignedParseError | 2022/crates/4/src/main.rs:20-21 | the same for a signed type: "number too small" exactly after `-` when the leading digits pass the lower bound, "number too large" exactly without `-` when they pass the upper bound, "invalid digit" only when a non-digit or nothing follows the sign |
| Common.OverflowBeforeInvalidDigit | 2022/4/src/main.rs:20 | `4294967296x` is too large for a `u32`, not an invalid digit |
| Common.OkValues | 2022/3/src/main.rs:33-48 | one value per result, each success giving its own value |
| Common.SumResults | 2022/3/src/main.rs:33-48 | collecting and summing succeeds exactly when every result does, and is then the sum of their values; otherwise the first error |
| GoCommon.AtoiReason | 2023/02/main.go:18-21 | the reason `strconv.Atoi` gives: "value out of range" exactly when the leading digits after the sign reach 2^64 or the text after the sign is all digits; otherwise "invalid syntax" |
| GoCommon.AtoiRangeBeforeSyntax | 2023/02/main.go:18-21 | twenty or more nines followed by a non-digit are out of range, not a syntax error |
| CalorieCounting.GroupTotal | 2022/1/src/main.rs:16-28 | a group's total is an error exactly when one of its lines is neither empty nor a `u32`, and is otherwise the sum of its numbers |
| CalorieCounting.GroupTotalAppend | 2022/1/src/main.rs:18-28 | the totals of two runs of lines add up to the total of the joined lines |
| CalorieCounting.EmptyLineIgnored | 2022/1/src/main.rs:19-21 | an empty line anywhere in a group leaves its total unchanged |
| CalorieCounting.MaxOf | 2022/1/src/main.rs:15-30 | succeeds exactly when every group total does; the result is some group's total and no group's total is larger |
| CalorieCounting.MostCalories | 2022/1/src/main.rs:13-30 | the same for the groups cut at every blank line (`"\n\n"`) |
| CampCleanup.TryNew | 2022/4/src/main.rs:11-16 | refuses a range exactly when its end is before its start; otherwise the range itself |
| CampCleanup.ParseStringPair | 2022/4/src/main.rs:33-39 | succeeds exactly when the separator cuts the text into two parts, which joined by the separator give the text back |
| CampCleanup.TryParse | 2022/4/src/main.rs:18-23 | succeeds exactly when the text splits at one `-` into two `u32` texts in order, and is then the range of those two numbers; a bad start gives the `ParseIntError` text of the start |
| CampCleanup.TryParseDecimal | 2022/4/src/main.rs:18-23 | parsing `START-END` gives back every valid `u32` range |
| CampCleanup.ContainsIsInclusion | 2022/4/src/main.rs:25-27 | `contains` is inclusion of the sets of section ids |
| CampCleanup.ContainsPartialOrder | 2022/4/src/main.rs:25-27 | `contains` is reflexive, transitive and antisymmetric |
| CampCleanup.ContainsSamples | 2022/4/src/main.rs:76-103 | the six cases of the test: disjoint, touching, nested and overlapping ranges |
| CampCleanup.ParseAssignmentPair | 2022/4/src/main.rs:41-46 | succeeds exactly when the line splits at one `,` into two halves that both parse, and is then the pair of the two halves' ranges |
| CampCleanup.NoCommaInRange | 2022/4/src/main.rs:41-46 | a written range holds no comma |
| CampCleanup.ParseAssignmentPairRoundTrip | 2022/4/src/main.rs:41-46 | a written pair of valid `u32` ranges `A-B,C-D` parses back to itself |
| CampCleanup.ParseAll | 2022/4/src/main.rs:58-61 | collecting succeeds exactly when every line parses, and then keeps every pair in order |
| CampCleanup.CountReconsiderable | 2022/4/src/main.rs:62-64 | the count is at most the number of pairs; 0 exactly when no pair has one range inside the other, all exactly when every pair does |
| CampCleanup.CountReconsiderableAppend | 2022/4/src/main.rs:62-64 | the count over joined lists is the sum of the counts |
| CampCleanup.ReconsiderableAssignments | 2022/4/src/main.rs:58-64 | the answer is the number of pairs in which one range contains the other, over the parsed lines; otherwise the first parse error |
| CampCleanup.TrailingNewlineFails | 2022/4/src/main.rs:58-61 | an input that ends in a newline always fails: the empty last piece is not a pair |
| CampCleanupOverlap.TryParseSigned | 2022/crates/4/src/main.rs:18-23 | succeeds exactly when the text splits at one `-` into two `i32` texts in order, and is then the range of those two numbers; a bad start gives the `ParseIntError` text of the start |
| CampCleanupOverlap.TryParseSignedDecimal | 2022/crates/4/src/main.rs:18-23 | parsing `START-END` gives back every range of non-negative `i32` bounds |
| CampCleanupOverlap.NegativeStartRejected | 2022/crates/4/src/main.rs:18-19 | a range with a negative start never parses: its sign is taken for the separator |
| CampCleanupOverlap.OverlapsIffShared | 2022/crates/4/src/main.rs:25-29 | `max(starts) <= min(ends)` exactly when some section belongs to both ranges |
| CampCleanupOverlap.OverlapsSymmetric | 2022/crates/4/src/main.rs:25-29 | overlapping is symmetric |
| CampCleanupOverlap.OverlapsTouchingAndContained | 2022/crates/4/src/main.rs:25-29 | ranges sharing an endpoint overlap, and a range overlaps every range it contains |
| CampCleanupOverlap.OverlapsSamples | 2022/crates/4/src/main.rs:78-109 | the cases of the test, among them (2,4)/(6,8) and (68,79)/(42,67) apart and (2,6)/(4,8) overlapping |
| CampCleanupOverlap.ParseSignedPair | 2022/crates/4/src/main.rs:43-48 | succeeds exactly when the line splits at one `,` into two halves that both parse, and is then the pair of the two halves' ranges |
| CampCleanupOverlap.ParseSignedPairRoundTrip | 2022/crates/4/src/main.rs:43-48 | a written pair of ranges with non-negative `i32` bounds parses back to itself |
| CampCleanupOverlap.ParseAllSigned | 2022/crates/4/src/main.rs:60-63 | collecting succeeds exactly when every line parses, and then keeps every pair in order |
| CampCleanupOverlap.CountOverlapping | 2022/crates/4/src/main.rs:64-66 | at most the number of pairs; 0 exactly when no pair overlaps, all exactly when every pair does |
| CampCleanupOverlap.CountOverlappingAppend | 2022/crates/4/src/main.rs:64-66 | the count over joined lists is the sum of the counts |
| CampCleanupOverlap.CountOverlappingOne | 2022/crates/4/src/main.rs:64-66 | one pair counts 1 exactly when its ranges overlap, so the count is the number of overlapping pairs |
| CampCleanupOverlap.ContainingPairsAreOverlapping | 2022/crates/4/src/main.rs:64-66 | every pair the first part counts is counted here too |
| CampCleanupOverlap.OverlappingAssignments | 2022/crates/4/src/main.rs:60-66 | the answer is the number of overlapping pairs over the parsed lines; otherwise the first parse error |
| RockPaperScissors.ScoreAgainstIsOutcome | 2022/2/src/main.rs:10-22 | the nine-case table scores 6 exactly for a win under the cyclic rule, 3 for a draw and 0 for a loss; `score(a,b) + score(b,a) == 6`; every pair of distinct hands has exactly one winner |
| RockPaperScissors.ReadHand | 2022/2/src/main.rs:25-32 | accepts exactly `A B C X Y Z`; `A`/`X` are Rock and `B`/`Y` Paper |
| RockPaperScissors.GameScore | 2022/2/src/main.rs:50-60 | scores exactly the lines of two tokens that are both hands; the score is 6 for a win, 3 for a draw and 0 for a loss, plus the value of the player's hand (also lines 3-22) |
| RockPaperScissors.SumScores | 2022/2/src/main.rs:46-62 | the sum succeeds exactly when every game scores, and is then the sum of the games' scores |
| RockPaperScissors.Scores | 2022/2/src/main.rs:50-60 | one score per game, each game that scores giving its own score |
| RockPaperScissors.SumScoresReportsLastBadGame | 2022/2/src/main.rs:46-59 | the games are taken in reverse, so the error reported is that of the last bad game |
| RockPaperScissors.TrailingNewlineKeepsEveryGame | 2022/2/src/main.rs:44-47 | with a final newline, skipping the last piece of the split drops nothing but the empty line |
| RockPaperScissors.MissingNewlineLosesLastGame | 2022/2/src/main.rs:44-47 | without a final newline the last game is skipped |
| RockPaperScissors.SampleGames | 2022/2/src/main.rs:56-57 | the sample lines `A Y`, `B X` and `C Z` score 8, 1 and 6 |
| RockPaperScissors.TotalScore | 2022/2/src/main.rs:34-62 | the answer succeeds exactly when every piece of the split but the last scores, and is the sum of their scores |
| RockPaperScissorsOutcome.ScoreOutcome | 2022/crates/2/src/main.rs:5-12 | accepts exactly `X Y Z`, and the outcome is 0, 3 or 6 |
| RockPaperScissorsOutcome.HandForOutcome | 2022/crates/2/src/main.rs:22-29 | finds a hand exactly for the outcomes 0, 3 and 6 |
| RockPaperScissorsOutcome.HandForOutcomeInvertsScore | 2022/crates/2/src/main.rs:22-29 | the chosen hand scores the desired outcome against the opponent, it is the only hand that does, and choosing for a hand's own score gives that hand back |
| RockPaperScissorsOutcome.OutcomesNeedDistinctHands | 2022/crates/2/src/main.rs:24-26 | for one opponent the three outcomes need three different hands |
| RockPaperScissorsOutcome.HandFrom | 2022/crates/2/src/main.rs:35-42 | accepts exactly `A B C`, agreeing with the first part's reading of them |
| RockPaperScissorsOutcome.GameScore | 2022/crates/2/src/main.rs:60-74 | scores exactly the lines of two tokens, a hand and an outcome, and a score lies between 1 and 9 |
| RockPaperScissorsOutcome.GameScoreMeaning | 2022/crates/2/src/main.rs:60-74 | the hand chosen for a parsed line reaches the desired outcome against the opponent, and the score is the outcome plus the value of any hand that reaches it |
| RockPaperScissorsOutcome.SumScores | 2022/crates/2/src/main.rs:55-76 | the sum, taken from the last game, succeeds exactly when every game scores, and is then the sum of the games' scores |
| RockPaperScissorsOutcome.Scores | 2022/crates/2/src/main.rs:60-74 | one score per game, each game that scores giving its own score |
| RockPaperScissorsOutcome.TotalScore | 2022/crates/2/src/main.rs:45-76 | the answer succeeds exactly when every piece of the split but the last scores, and is the sum of their scores |
| Rucksack.ItemPriority | 2022/3/src/main.rs:5-13 | an error exactly for chars outside `a-z` and `A-Z`; priorities are 1 to 52, and at most 26 exactly for lower case |
| Rucksack.ItemPriorityInjective | 2022/3/src/main.rs:5-13 | different item types never share a priority |
| Rucksack.ItemPrioritySamples | 2022/3/src/main.rs:57-67 | the test's values: p 16, L 38, P 42, v 22, t 20, s 19 |
| Rucksack.InsertSorted | 2022/3/src/main.rs:15-20 | inserting keeps a list strictly ascending and adds exactly the new char |
| Rucksack.SortAndDedup | 2022/3/src/main.rs:15-20 | the result is strictly ascending and holds exactly the chars of the input |
| Rucksack.AscendingUnique | 2022/3/src/main.rs:15-20 | two strictly ascending lists with the same elements are equal |
| Rucksack.SortAndDedupIsTheSortedSet | 2022/3/src/main.rs:15-20 | any strictly ascending listing of the input's chars is the sorted, deduplicated result |
| Rucksack.FindCommon | 2022/3/src/main.rs:41-42 | none exactly when no element of the first list is in the second; otherwise the first element of the first list that is |
| Rucksack.FindCommonSmallest | 2022/3/src/main.rs:38-42 | on an ascending list the item found is the smallest shared item |
| Rucksack.Compartments | 2022/3/src/main.rs:35-36 | the halves make up the rucksack, and the first is larger by at most one (`ceil(len/2)`) |
| Rucksack.RucksackPriority | 2022/3/src/main.rs:34-45 | "Found a rucksack without a duplicate" when the compartments share no item; a success is the priority of a shared item |
| Rucksack.RucksackPriorityOfSmallestShared | 2022/3/src/main.rs:38-44 | the result is the priority of the smallest item in both compartments |
| Rucksack.Priorities | 2022/3/src/main.rs:33-46 | one priority per line, each line that has one giving its own |
| Rucksack.PrioritySum | 2022/3/src/main.rs:32-48 | succeeds exactly when every line has a priority, and is then the sum of the lines' priorities; otherwise the error of a line |
| Rucksack.TrailingNewlineFails | 2022/3/src/main.rs:32-46 | an input that ends in a newline always fails: the empty last line has no shared item |
| RucksackBadges.ChunkAsThrees | 2022/crates/3/src/main.rs:22-36 | `len / 3` chunks, the `i`-th being elements `3i`, `3i+1`, `3i+2`; an incomplete last group is dropped |
| RucksackBadges.FindCommon3 | 2022/crates/3/src/main.rs:57-59 | none exactly when no element of the first list is in both others; otherwise the first element that is |
| RucksackBadges.GroupBadgeMeaning | 2022/crates/3/src/main.rs:52-62 | "Found a group without a common type" when the three share nothing; a badge is the priority of an item all three carry |
| RucksackBadges.GroupBadgeOfSmallestShared | 2022/crates/3/src/main.rs:53-61 | the badge is the priority of the smallest item all three rucksacks carry |
| RucksackBadges.Triples | 2022/crates/3/src/main.rs:22-36 | the complete groups of three in order (the reference for `ChunkAsThrees`) |
| RucksackBadges.TriplesAppend | 2022/crates/3/src/main.rs:25-33 | appending one group and fewer than three further lines adds exactly that group |
| RucksackBadges.Badges | 2022/crates/3/src/main.rs:50-62 | one badge per complete group, the `i`-th being the `i`-th group's |
| RucksackBadges.BadgesSnoc | 2022/crates/3/src/main.rs:50-62 | one more group gives one more badge, at the end |
| RucksackBadges.BadgeSum | 2022/crates/3/src/main.rs:48-65 | the sum succeeds exactly when every complete group has a badge that is a priority |
| RucksackBadges.BadgeSumAppendGroup | 2022/crates/3/src/main.rs:50-65 | appending a group adds its badge to the sum, and leftover lines add nothing |
| RucksackBadges.BadgePrioritySum | 2022/crates/3/src/main.rs:48-65 | the program's result is `BadgeSum` of the input's lines |
| RucksackBadges.ChunkSamples | 2022/crates/3/src/main.rs:86-99 | six elements make the groups `(1,2,3)` and `(4,5,6)`; of five, only `(1,2,3)` is kept |
| SupplyStacks.MovedKeepsCrates | 2022/5/src/main.rs:27-47 | a move loses and creates no crate: the multiset of all crates, and their number, is unchanged |
| SupplyStacks.MovedShape | 2022/5/src/main.rs:28-44 | the origin loses exactly its top `quantity` crates, the destination gains them on top in the same order, and every other stack is unchanged |
| SupplyStacks.MovedOntoItself | 2022/5/src/main.rs:28-44 | moving crates from a stack onto itself leaves the stacks as they were |
| SupplyStacks.MoveResult | 2022/5/src/main.rs:27-47 | a move succeeds exactly when both stacks exist and the origin holds at least `quantity` crates |
| SupplyStacks.TopCrates | 2022/5/src/main.rs:67-72 | one character per stack: the top crate of a non-empty stack, a space for an empty one |
| SupplyStacks.MovedTopCrate | 2022/5/src/main.rs:27-47 | after a move of at least one crate, the destination's top crate is the origin's former top crate |
| SupplyStacks.Columns | 2022/5/src/main.rs:55 | one column per four characters of the line (rounded up), column `k` holding the character at `1 + 4k` |
| SupplyStacks.AddLayer | 2022/5/src/main.rs:56-61 | a layer makes sure a stack exists for each of its columns and adds no other stack |
| SupplyStacks.AddLayerNothing | 2022/5/src/main.rs:56-61 | a layer without columns leaves the stacks as they are |
| SupplyStacks.LayersOf | 2022/5/src/main.rs:50 | every line of the drawing but the last (label) line is a layer |
| SupplyStacks.StackedHoldsLetters | 2022/5/src/main.rs:58-60 | only uppercase letters ever reach a stack |
| SupplyStacks.SampleDrawing | 2022/5/src/main.rs:131-145 | the three-by-three sample drawing gives the stacks `GDA`, `HEB`, `IFC` |
| SupplyStacks.SampleMove | 2022/5/src/main.rs:147-158 | moving two crates from stack 1 to stack 3 leaves `G`, `HEB`, `IFCDA`, whose tops are `GBA` |
| SupplyStacks.Supply.constructor | 2022/5/src/main.rs:52 | a supply without stacks |
| SupplyStacks.Supply.AddStack | 2022/5/src/main.rs:8-11 | one empty stack is appended |
| SupplyStacks.Supply.GetOrAddStack | 2022/5/src/main.rs:13-25 | an existing index leaves the stacks alone; otherwise exactly one empty stack is appended, and the call fails when that is still not enough |
| SupplyStacks.Supply.MoveCrates | 2022/5/src/main.rs:27-47 | a missing origin fails before any change; a missing destination fails after the origin was drained; otherwise the stacks become `Moved` |
| SupplyStacks.Supply.StackLayer | 2022/5/src/main.rs:55-61 | the stacks become the old stacks with the line's columns laid on |
| SupplyStacks.Supply.SkimTopCrates | 2022/5/src/main.rs:67-72 | one character per stack of the supply: its top crate, or a space for an empty stack |
| SupplyStacks.TryDeserialize | 2022/5/src/main.rs:49-65 | never fails; the new supply holds the layers laid bottom-up |
| SupplyStacks.ParseInstruction | 2022/5/src/main.rs:95-111 | succeeds exactly for six space-separated tokens whose second, fourth and sixth are `usize` texts, and gives those three numbers; another token count gives the "expected 6 tokens" error listing the tokens |
| SupplyStacks.ParseInstructionDecimal | 2022/5/src/main.rs:95-111 | a written-out `move Q from O to D` parses back to `(Q, O, D)` |
| SupplyStacks.EmptyInstructionRejected | 2022/5/src/main.rs:95-99 | an empty line is the single token `""`, so it fails with `Move instruction without the expected 6 tokens: [""]` |
| SupplyStacks.TrailingNewlineFails | 2022/5/src/main.rs:93-112 | a move section that ends in a newline never parses |
| SupplyStacks.ParseInstructions | 2022/5/src/main.rs:93-112 | succeeds exactly when every line parses, and then holds every line's instruction in order |
| SupplyStacks.ApplyAllKeepsCrates | 2022/5/src/main.rs:114-116 | however many moves succeed, the number of stacks and the multiset of crates are unchanged |
| SupplyStacks.ApplyAllStopsAtError | 2022/5/src/main.rs:114-116 | once a move fails, the moves after it do not change the outcome |
| SupplyStacks.RunMoves | 2022/5/src/main.rs:114-116 | the moves carried out in place give the state `ApplyAll` computes, and the first failure's message |
| SupplyStacks.Rearrange | 2022/5/src/main.rs:85-118 | the program's result is the top crates after all moves, or the first error in the order the program meets it |
| TreetopMatrix.DigitsOf | 2022/8/src/matrix.rs:35-41 | one cell per character, holding its digit value, below 10 |
| TreetopMatrix.TryFrom | 2022/8/src/matrix.rs:31-54 | succeeds exactly when every line is all digits and as long as there are lines; a non-digit anywhere gives "Non-digit in input!"; a success is square and holds each digit's value |
| TreetopMatrix.DigitChar | 2022/8/src/matrix.rs:37 | the digit character whose value is the height (the inverse of `to_digit`) |
| TreetopMatrix.RenderedRows | 2022/8/src/matrix.rs:31-45 | the rows written as digit lines without newlines, each character's value being the cell |
| TreetopMatrix.RenderTryFrom | 2022/8/src/matrix.rs:31-54 | a non-empty square grid of digits written out and parsed back is the same grid |
| TreetopMatrix.TrailingNewlineNotSquare | 2022/8/src/matrix.rs:32-51 | an empty input, or one ending in a newline, is never square |
| TreetopMatrix.DebugTryNew | 2022/8/src/matrix.rs:89-104 | succeeds exactly when every row is as long as there are rows, and keeps the rows |
| TreetopMatrix.QuarterTurn | 2022/8/src/matrix.rs:70-86 | inside the grid, cell (x, y) goes to (last - y, x) |
| TreetopMatrix.QuarterTurnFourTimes | 2022/8/src/matrix.rs:70-86 | the turn stays inside the grid, and four turns bring every cell back |
| TreetopMatrix.QuarterTurnSamples | 2022/8/src/matrix.rs:162-175 | (4,3) goes to (1,4), and (0,0) runs through (4,0), (4,4) and (0,4) back to (0,0) on a 5 by 5 grid |
| TreetopMatrix.Rotated | 2022/8/src/matrix.rs:106-117 | the turned grid is square, of the same side, and cell (i, j) is the original's (j, last - i) |
| TreetopMatrix.RotatedFourTimes | 2022/8/src/matrix.rs:106-117 | four rotations give back the grid |
| TreetopMatrix.TurnColumn | 2022/8/src/matrix.rs:110-113 | column `x` of the copy is filled from row `x` of the original at its quarter turns, and no other cell changes |
| TreetopMatrix.Rotate | 2022/8/src/matrix.rs:106-117 | the nested loops compute `Rotated` |
| TreetopHouse.ViewingDistance | 2022/8/src/main.rs:13-18 | a tree never sees more trees than the line holds |
| TreetopHouse.ViewingDistanceMeaning | 2022/8/src/main.rs:13-18 | the distance is 0 only for an empty line; every tree before the last one counted is shorter, and the last one counted is at least as tall or ends the line |
| TreetopHouse.ViewingDistancePast | 2022/8/src/main.rs:13-18 | looking past `m` shorter trees adds exactly `m` |
| TreetopHouse.ViewingDistanceSample | 2022/8/src/main.rs:99-104 | in the row 3 0 3 7 3 the trees see 2, 1, 1, 1 and 0 trees to their right |
| TreetopHouse.RightViewBlocked | 2022/8/src/main.rs:13-17 | the first tree at least as tall, at `j`, ends the view at distance `j - i` |
| TreetopHouse.RightViewUnblocked | 2022/8/src/main.rs:13-18 | with no tree as tall to the right, every tree up to the edge is seen |
| TreetopHouse.VisibleAcross | 2022/8/src/main.rs:9-22 | the mask holds, for each tree, the number of trees it sees to its right, and every counter fits its cell |
| TreetopHouse.ViewRight | 2022/8/src/main.rs:27-30 | looking right along a row of the grid is that row's right view |
| TreetopHouse.Origin | 2022/8/src/main.rs:34-36 | the cell `k` quarter turns bring to `p` stays inside the grid |
| TreetopHouse.OriginValues | 2022/8/src/matrix.rs:70-86 | one, two and three turns bring (c, n-1-r), (n-1-r, n-1-c) and (n-1-c, r) to (r, c) |
| TreetopHouse.Turned | 2022/8/src/main.rs:34-35 | a forest turned `k` times is square, of the same side |
| TreetopHouse.LineRotatedRight | 2022/8/src/main.rs:35-39 | looking right in the turned grid is looking down in the original |
| TreetopHouse.LineRotatedDown | 2022/8/src/main.rs:35-39 | looking down in the turned grid is looking left in the original |
| TreetopHouse.LineRotatedLeft | 2022/8/src/main.rs:35-39 | looking left in the turned grid is looking up in the original |
| TreetopHouse.LineRotatedUp | 2022/8/src/main.rs:35-39 | looking up in the turned grid is looking right in the original |
| TreetopHouse.LineRotated | 2022/8/src/main.rs:35-39 | a tree keeps its height under a turn, and each direction in the turned grid is the next direction in the original |
| TreetopHouse.ViewRotated | 2022/8/src/main.rs:35-39 | what a tree sees in the turned grid is what it sees in the next direction of the original |
| TreetopHouse.ViewTurned | 2022/8/src/main.rs:34-39 | after `k` turns, direction `d` at a cell is direction `d + k` at the cell's origin |
| TreetopHouse.RightViewTurned | 2022/8/src/main.rs:34-39 | looking right after `k` turns is looking in direction `k` of the original |
| TreetopHouse.EdgeScoresZero | 2022/8/src/main.rs:106-123 | a tree on the edge scores 0, as the test's outer ring shows |
| TreetopHouse.ScoreMap | 2022/8/src/main.rs:24-55 | the reference map: cell (i, j) holds the product of the four viewing distances of tree (i, j) |
| TreetopHouse.TurnedPartialMap | 2022/8/src/main.rs:36 | turning the map brings every partial product to the cell where the next pass expects it |
| TreetopHouse.PartialStep | 2022/8/src/main.rs:41-43 | one more direction's distance is multiplied in |
| TreetopHouse.MultiplyRow | 2022/8/src/main.rs:41-43 | every cell of the row is multiplied by its mask entry, and no product reaches the cell width |
| TreetopHouse.MultiplyByViews | 2022/8/src/main.rs:38-44 | after the pass, every cell of the map holds the product of one more direction for its origin |
| TreetopHouse.FinalTurnAt | 2022/8/src/main.rs:120-122 | the cell the last turn brings to (i, j) holds the score of tree (i, j) |
| TreetopHouse.FinalTurn | 2022/8/src/main.rs:120-122 | one more turn of the finished map is the reference score map |
| TreetopHouse.ScenicScoreMap | 2022/8/src/main.rs:24-55 | the loops build a square map that, turned once more, is exactly the reference score map |
| TreetopHouse.RowMax | 2022/8/src/main.rs:66 | none for an empty row; otherwise a cell of the row that none exceeds |
| TreetopHouse.MaxCell | 2022/8/src/main.rs:64-68 | none exactly when no row has a cell; otherwise a cell that no cell exceeds |
| TreetopHouse.MaxCellAtLeast | 2022/8/src/main.rs:64-68 | every cell is at most the maximum |
| TreetopHouse.TurnedMaxAtMost | 2022/8/src/matrix.rs:106-117 | the maximum of a turned grid is at most the original's |
| TreetopHouse.TurnedMaxAtLeast | 2022/8/src/matrix.rs:106-117 | the maximum of the original is at most the turned grid's |
| TreetopHouse.TurnedMax | 2022/8/src/matrix.rs:106-117 | turning keeps the largest cell |
| TreetopHouse.MaxCellRotated | 2022/8/src/main.rs:60-69 | the map the program takes the maximum of, one turn short, has the same maximum as the scores in place |
| TreetopHouse.MaxCellOfScores | 2022/8/src/main.rs:64-69 | the largest cell of a score map exists exactly for a non-empty forest, is some tree's score, and no tree scores more |
| TreetopHouse.BestScore | 2022/8/src/main.rs:57-73 | the largest scenic score: some tree's score that no tree exceeds, present exactly when there is a tree |
| TreetopHouse.ParsedForestNotEmpty | 2022/8/src/matrix.rs:32-53 | every parsed forest has a row, so "Scenic Score Map was empty" cannot happen |
| TreetopHouse.BestScenicScoreOf | 2022/8/src/main.rs:57-73 | a parse error is passed on; otherwise the answer is `BestScore` of the forest |
| TreetopHouse.BestScenicScore | 2022/8/src/main.rs:57-73 | the same with byte cells, for forests whose products fit a byte |
| TreetopHouse.Peak | 2022/8/src/main.rs:24-25 | a square 9 by 9 forest |
| TreetopHouse.PeakView | 2022/8/src/main.rs:9-22 | its middle tree sees 4 trees in every direction |
| TreetopHouse.ByteCellsOverflow | 2022/8/src/main.rs:24-43 | its middle tree scores 256, so byte cells cannot hold every score |
| TreetopHouseWide.ViewBelowSide | 2022/crates/8/src/main.rs:9-22 | no viewing distance reaches the side of the grid |
| TreetopHouseWide.Bound | 2022/crates/8/src/main.rs:37-39 | the bound 255^(k+1) is positive |
| TreetopHouseWide.PartialAtMost | 2022/crates/8/src/main.rs:32-41 | on a side of at most 256, a product of `k + 1` distances is at most 255^(k+1) |
| TreetopHouseWide.BoundsBelow | 2022/crates/8/src/main.rs:24-25 | all four bounds fit in 32 bits |
| TreetopHouseWide.SmallForestFits | 2022/crates/8/src/main.rs:24-44 | every forest of side at most 256 keeps every product inside 32 bits |
| TreetopHouseWide.ScenicScoreMap | 2022/crates/8/src/main.rs:24-44 | the 32-bit map, turned once more, is the reference score map |
| TreetopHouseWide.BestScenicScore | 2022/crates/8/src/main.rs:46-61 | a parse error is passed on; otherwise the answer is `BestScore` of the forest |
| TreetopHouseWide.SmallInputFits | 2022/crates/8/src/main.rs:46-56 | any parsed input of at most 256 lines meets the 32-bit precondition |
| StartMarker.FirstDistinctWindow | 2022/crates/6/src/main.rs:6-22 | the reference: the smallest position from `from` on, below the data's length, whose preceding `length` bytes differ pairwise, or none when no such position exists |
| StartMarker.FindHead | 2022/crates/6/src/main.rs:6-22 | the pairwise loops find exactly the first position whose preceding `length` bytes differ, or none; none when the data is shorter than `length` |
| StartMarker.FirstIsSmallest | 2022/crates/6/src/main.rs:7-18 | a distinct window with no distinct window before it is the first one |
| StartMarker.NoneFound | 2022/crates/6/src/main.rs:7-21 | when no window is distinct, nothing is found |
| StartMarker.LengthOne | 2022/crates/6/src/main.rs:6-22 | for length 1 the answer is position 1 |
| StartMarker.EndWindowIgnored | 2022/crates/6/src/main.rs:7 | a window ending at the end of the data is distinct yet not reported |
| PacketMarker.SixDifferentIsDistinct | 2022/6/src/main.rs:17-22 | the six comparisons hold exactly when the four bytes are pairwise different |
| PacketMarker.FirstPacketMarker | 2022/6/src/main.rs:15-27 | the first position after four pairwise different bytes, the same as the general search for length 4; none for shorter data |
| NoSpaceLeft.BeforeTotal | 2022/crates/7/src/main.rs:83 | the name order is irreflexive, total and asymmetric, so it can order the map's keys |
| NoSpaceLeft.BeforeTransitive | 2022/crates/7/src/main.rs:83 | the name order is transitive |
| NoSpaceLeft.SizeOfDirectory | 2022/crates/7/src/main.rs:41-46 | a directory's size is the sum of its entries' sizes, and an empty directory has size 0 (also lines 103-105) |
| NoSpaceLeft.ChildSizesCons | 2022/crates/7/src/main.rs:103-105 | one more entry adds its size to the directory's size |
| NoSpaceLeft.EntryAtMostDirectory | 2022/crates/7/src/main.rs:103-105 | with non-negative files, no entry is larger than its directory |
| NoSpaceLeft.SizeNonNegative | 2022/crates/7/src/main.rs:41-46 | with non-negative files, every size is non-negative |
| NoSpaceLeft.Lookup | 2022/crates/7/src/main.rs:131-134 | none exactly when no entry has the name; otherwise the item of an entry of that name |
| NoSpaceLeft.Insert | 2022/crates/7/src/main.rs:124-126 | the new entry is present, and nothing but it and the old entries is |
| NoSpaceLeft.InsertLookup | 2022/crates/7/src/main.rs:124-126 | after the insertion the name finds the new item and every other name finds what it found before |
| NoSpaceLeft.InsertSorted | 2022/crates/7/src/main.rs:124-126 | the insertion keeps the entries in strictly increasing name order (also line 83) |
| NoSpaceLeft.LookupSorted | 2022/crates/7/src/main.rs:83 | in name order every entry is found under its own name |
| NoSpaceLeft.InsertSize | 2022/crates/7/src/main.rs:103-126 | the insertion trades the size of the replaced entry, if any, for the new item's size |
| NoSpaceLeft.InsertAtPath | 2022/crates/7/src/main.rs:128-147 | succeeds exactly when the path leads through existing directories; a missing name gives "Path led to a non-existent directory", a file gives "Failed to convert Item to Directory"; the empty path inserts at the top |
| NoSpaceLeft.InsertAtPathResolves | 2022/crates/7/src/main.rs:128-147 | the directory at the path then holds the insertion, and the top-level entries off the path are unchanged |
| NoSpaceLeft.InsertWellFormed | 2022/crates/7/src/main.rs:124-126 | the insertion keeps every level in name order |
| NoSpaceLeft.InsertAtPathWellFormed | 2022/crates/7/src/main.rs:128-147 | insertion at a path keeps every level in name order |
| NoSpaceLeft.InsertAtPathSize | 2022/crates/7/src/main.rs:128-147 | the root grows by the new item's size less the size of the entry it replaces |
| NoSpaceLeft.AllDirectories | 2022/crates/7/src/main.rs:107-122 | the directory itself comes first |
| NoSpaceLeft.AllDirectoriesCount | 2022/crates/7/src/main.rs:107-122 | every directory of the tree is listed exactly as many times as an independent count gives |
| NoSpaceLeft.AllDirectoriesAreDirectories | 2022/crates/7/src/main.rs:113-116 | only directories are listed |
| NoSpaceLeft.RootIsLargest | 2022/crates/7/src/main.rs:103-122 | with non-negative files no listed directory is larger than the root |
| NoSpaceLeft.ParseCommand | 2022/crates/7/src/main.rs:10-28 | `ls` gives the listing command; `cd` with a name gives a change of directory to that name; nothing gives "Empty command ($ followed by nothing)" |
| NoSpaceLeft.ParseLine | 2022/crates/7/src/main.rs:56-79 | a line succeeds exactly as a command after `$`, or as `dir` or an `i32` size followed by a name, which is taken from the second token |
| NoSpaceLeft.EmptyLineRejected | 2022/crates/7/src/main.rs:67-70 | an empty line is rejected, being no file size |
| NoSpaceLeft.HandleCommand | 2022/crates/7/src/main.rs:154-172 | fails exactly for `cd ..` at the root; `cd /` clears the path, `cd ..` drops its last name, any other `cd` appends, `ls` switches to listing |
| NoSpaceLeft.EnterThenLeave | 2022/crates/7/src/main.rs:160-167 | entering a directory and leaving it again returns to the same path |
| NoSpaceLeft.Step | 2022/crates/7/src/main.rs:174-192 | an item while listing is inserted at the current path; an item outside a listing gives "Encountered an Item outside Context::Ls"; a command leaves the tree alone and is handled from the command context |
| NoSpaceLeft.ReplayStopsAtError | 2022/crates/7/src/main.rs:174-193 | once a prefix of the transcript fails, the whole transcript fails with that message |
| NoSpaceLeft.TrailingNewlineFails | 2022/crates/7/src/main.rs:175-209 | a transcript that ends in a newline always fails on its empty last line |
| NoSpaceLeft.ReplayWellFormed | 2022/crates/7/src/main.rs:149-196 | every tree the replay builds is in name order at every level |
| NoSpaceLeft.Reconstruct | 2022/crates/7/src/main.rs:149-196 | the loop gives the tree the replay of all lines builds, in name order, or the first error's message |
| NoSpaceLeft.SmallestAbove | 2022/crates/7/src/main.rs:217-230 | none exactly when nothing exceeds the bound; otherwise an element above the bound that no element above the bound undercuts (the first of the sorted list above it) |
| NoSpaceLeft.DirectorySizes | 2022/crates/7/src/main.rs:211-215 | one size per listed directory, in order |
| NoSpaceLeft.SizeToDelete | 2022/crates/7/src/main.rs:211-230 | the smallest directory size above what the update needs, with the largest size as the space used; "Didn't find a size" exactly when no size is large enough |
| NoSpaceLeft.UsedIsRootSize | 2022/crates/7/src/main.rs:217-225 | with non-negative files the space used is the root's size, and the root qualifies whenever the disk is over-full |
| NoSpaceLeft.SpaceToFree | 2022/crates/7/src/main.rs:199-235 | the program's result is the replay's error, or `SizeToDelete` of the rebuilt tree |
| RopeBridge.Add | 2022/9/src/main.rs:11-20 | the sum differs from the first point by the second |
| RopeBridge.Sub | 2022/9/src/main.rs:22-31 | subtraction is undone by addition |
| RopeBridge.NormalizeInt | 2022/9/src/main.rs:39-45 | the sign: 1 exactly for positive, -1 exactly for negative, else 0, and the sign times the value is its magnitude |
| RopeBridge.GridNormalize | 2022/9/src/main.rs:47-62 | a unit step: the signs of both coordinates on a diagonal, the sign of the larger coordinate along its axis elsewhere |
| RopeBridge.GridNormalizeZero | 2022/9/src/main.rs:47-62 | (0, 0) comes out exactly for the origin, so the fall-back arm never decides anything |
| RopeBridge.GridNormalizeSamples | 2022/9/src/main.rs:149-174 | the eight cases of the unit test |
| RopeBridge.ParseHeading | 2022/9/src/main.rs:71-85 | succeeds exactly for `U`, `D`, `L` and `R`, each giving its own heading |
| RopeBridge.ParseDirection | 2022/9/src/main.rs:92-107 | succeeds exactly for two space-separated tokens, a heading and a `u32`; any other token count gives "Tried to get a Direction from an invalid string" |
| RopeBridge.ParseDirectionRoundTrip | 2022/9/src/main.rs:92-107 | a move written out as `HEADING STEPS` parses back to itself |
| RopeBridge.Move | 2022/9/src/main.rs:118-124 | the head moves exactly one unit along one axis |
| RopeBridge.FollowTouches | 2022/9/src/main.rs:127-131 | a pulled knot ends at most one unit from the head |
| RopeBridge.FollowTouchingStays | 2022/9/src/main.rs:127-131 | a knot already next to the head does not move |
| RopeBridge.FollowMovesOneStep | 2022/9/src/main.rs:127-131 | a knot at most two units from the head moves at most one unit in each coordinate |
| RopeBridge.StepRope | 2022/9/src/main.rs:117-132 | a step keeps the number of knots |
| RopeBridge.StepRopeMeaning | 2022/9/src/main.rs:117-132 | after a step the head has moved one unit and every knot touches it |
| RopeBridge.StepKnots | 2022/9/src/main.rs:117-132 | the loop over the knots builds exactly `StepRope` |
| RopeBridge.Walk | 2022/9/src/main.rs:116-134 | `steps` unit steps record `steps` more positions and keep the earlier records |
| RopeBridge.RunFrom | 2022/9/src/main.rs:114-135 | the lines are moved through in order with an early return on the first bad line; a successful run keeps the rope's length and the positions already recorded |
| RopeBridge.Run | 2022/9/src/main.rs:111-135 | a successful run keeps the two knots it starts with |
| RopeBridge.RunFromAppend | 2022/9/src/main.rs:114-135 | running two blocks of lines in turn is running them together, and an error in the first block is final |
| RopeBridge.RunFromRecordsEveryStep | 2022/9/src/main.rs:116-133 | from any state, one position is added per unit step the lines ask for |
| RopeBridge.RunFromKeepsRopeTogether | 2022/9/src/main.rs:116-133 | from any state whose tail touches the head, the tail still touches the head after the run |
| RopeBridge.RunRecordsEveryStep | 2022/9/src/main.rs:114-135 | one position is recorded per unit step the lines ask for |
| RopeBridge.RunKeepsRopeTogether | 2022/9/src/main.rs:114-135 | after any run the tail touches the head |
| RopeBridge.WalkKeepsRopeTogether | 2022/9/src/main.rs:116-134 | a walk from a rope whose tail touches the head keeps it touching |
| RopeBridge.TrailingNewlineFails | 2022/9/src/main.rs:114-115 | an input that ends in a newline always fails on its empty last line |
| RopeBridge.TailPositions | 2022/9/src/main.rs:109-143 | the loops give the run's error, or the number of distinct positions the tail visited |
| RopeBridge.RunErrorMessage | 2022/9/src/main.rs:114-115 | the first line that does not parse decides the run's error |
| RopeBridge.RunKeepsError | 2022/9/src/main.rs:114-115 | once a prefix of the lines fails, the later lines do not change the outcome |
| CathodeRay.ParseInstruction | 2022/10/src/main.rs:8-31 | a success is `addx` or `noop` as the first token says, and an `addx` operand is an `i32` |
| CathodeRay.ParseInstructionMeaning | 2022/10/src/main.rs:8-31 | `noop` exactly when the first token is `noop`; `addx` exactly when it is followed by an `i32`, which becomes the operand; any other first token gives "Unrecognised command" |
| CathodeRay.ParseSamples | 2022/10/src/main.rs:11-27 | `noop` parses; an empty line is an unrecognised command; a bare `addx` lacks its operand |
| CathodeRay.SignedTextParses | 2022/10/src/main.rs:21 | every `i32` written in decimal parses back to itself |
| CathodeRay.ParseAddX | 2022/10/src/main.rs:17-24 | `addx N` parses to the instruction adding `N` |
| CathodeRay.SignalCycles | 2022/10/src/main.rs:47-51 | for positive cycle numbers, the remainder test picks exactly 20, 60, 100, … (the truncating and the Euclidean remainder agree on zero) |
| CathodeRay.XDuringLength | 2022/10/src/main.rs:56-67 | there is one value of `x` per cycle: two per `addx`, one per `noop` |
| CathodeRay.SignalsMeaning | 2022/10/src/main.rs:46-54 | over `n` cycles, `(n + 20) / 40` strengths are recorded, the `k`-th being cycle `20 + 40k` times `x` during that cycle |
| CathodeRay.SmallProgram | 2022/10/src/main.rs:56-67 | `noop`, `addx 3`, `addx -5` hold `x` at 1, 1, 1, 4, 4 and leave it at -1 |
| CathodeRay.CentralProcessingUnit.constructor | 2022/10/src/main.rs:39-44 | the register starts at 1 and no cycle has run |
| CathodeRay.CentralProcessingUnit.Cycle | 2022/10/src/main.rs:46-54 | one more cycle is counted, the register is unchanged, and the strength is recorded exactly on a signal cycle |
| CathodeRay.CentralProcessingUnit.RunInstruction | 2022/10/src/main.rs:56-67 | `addx` runs two cycles with the old value and then adds its operand; `noop` runs one cycle |
| CathodeRay.ParseProgram | 2022/10/src/main.rs:74-78 | a parsed program has one instruction per line |
| CathodeRay.ParseProgramMeaning | 2022/10/src/main.rs:74-78 | the program parses exactly when every line does, and then holds each line's instruction in order |
| CathodeRay.ParseProgramKeepsError | 2022/10/src/main.rs:74-78 | once a prefix fails, the later lines do not change the outcome |
| CathodeRay.ParseProgramExtend | 2022/10/src/main.rs:74-78 | a failing line after a parsed prefix is the program's error; a parsed one extends the program |
| CathodeRay.TrailingNewlineFails | 2022/10/src/main.rs:74-75 | an input ending in a newline always fails on its empty last line |
| CathodeRay.SignalsStep | 2022/10/src/main.rs:56-67 | one more instruction adds its own cycles' values and signals, and its operand to the register |
| CathodeRay.GetSignalStrengths | 2022/10/src/main.rs:70-81 | the CPU loop records exactly the signal strengths of the parsed program, or gives the first line's parse error |
| CathodeRay.SignalStrengthSum | 2022/10/src/main.rs:83-91 | the answer is the sum of those strengths |
| MonkeyBusiness.ParseOperand | 2022/11/src/main.rs:11-26 | `old` exactly for the token `old`; otherwise a success exactly for a `u32`, which becomes the operand |
| MonkeyBusiness.ParseOperation | 2022/11/src/main.rs:34-55 | succeeds exactly when the trimmed line has a fifth token `+` or `*` and a sixth that is an operand; fewer than five tokens give "Did not find operator token", five give "Did not find operand token" |
| MonkeyBusiness.ParseOperationLine | 2022/11/src/main.rs:34-55 | every operation written out as an input line parses back to itself |
| MonkeyBusiness.OperationLineSamples | 2022/11/src/main.rs:250-268 | the three lines of the unit test are such lines, so they parse to `* 13`, `+ 4` and `* old` |
| MonkeyBusiness.IndentedOperation | 2022/11/src/main.rs:38 | an indented operation line splits into its six words |
| MonkeyBusiness.TrimIndented | 2022/11/src/main.rs:38 | trimming removes the indentation and nothing more |
| MonkeyBusiness.OperationWords | 2022/11/src/main.rs:38 | the words of an operation line split at single spaces |
| MonkeyBusiness.ParseItem | 2022/11/src/main.rs:78-87 | succeeds exactly when the text before the first comma is a `u32`, which is the item |
| MonkeyBusiness.ParseItems | 2022/11/src/main.rs:74-88 | succeeds exactly when every token does, and then holds every item in order |
| MonkeyBusiness.ParseCatcher | 2022/11/src/main.rs:110-119 | succeeds exactly when the trimmed line has a sixth token that is a `usize`, which is the catcher |
| MonkeyBusiness.ParseMonkey | 2022/11/src/main.rs:66-141 | a parsed monkey needs at least six lines and has inspected nothing |
| MonkeyBusiness.ParseMonkeyMeaning | 2022/11/src/main.rs:66-141 | a parsed monkey holds the items of its second line, the operation of its third, the fourth token of its fourth as divisor and the catchers of its fifth and sixth lines |
| MonkeyBusiness.ParseMonkeyNeedsItems | 2022/11/src/main.rs:70-73 | a paragraph of one line gives "Expected a 'Starting items' line" |
| MonkeyBusiness.ParseCatchers | 2022/11/src/main.rs:108-129 | a success parsed both catcher lines and keeps the items, operation and divisor |
| MonkeyBusiness.ParseMonkeys | 2022/11/src/main.rs:171-181 | succeeds exactly when every paragraph is a monkey, and then holds them in order |
| MonkeyBusiness.ThrowTarget | 2022/11/src/main.rs:145-161 | the new worry level is the operation's result divided by 3, rounded down; the item goes to the first catcher exactly when that level is divisible by the divisor |
| MonkeyBusiness.Throws | 2022/11/src/main.rs:144-162 | one throw per item held, front item first (also line 202) |
| MonkeyBusiness.ThrowsSample | 2022/11/src/main.rs:314-336 | the test monkey throws (1, 2080), (3, 1200) and (3, 3136) |
| MonkeyBusiness.Monkey.constructor | 2022/11/src/main.rs:201-203 | the copy holds exactly the monkey's fields |
| MonkeyBusiness.Monkey.ThrowItem | 2022/11/src/main.rs:144-162 | none and no change for an empty monkey; otherwise the front item is thrown as `Throw` says, removed, and counted as inspected |
| MonkeyBusiness.Monkey.CatchItem | 2022/11/src/main.rs:164-166 | the caught item goes to the front, and nothing else changes |
| MonkeyBusiness.Catch | 2022/11/src/main.rs:203-205 | a catch changes no monkey's rules |
| MonkeyBusiness.Deliver | 2022/11/src/main.rs:202-206 | delivering throws changes no monkey's rules |
| MonkeyBusiness.DeliverMeaning | 2022/11/src/main.rs:202-206 | after the throws each monkey holds what it was thrown, newest first, in front of what it had |
| MonkeyBusiness.ThrowsTargets | 2022/11/src/main.rs:153-157 | every throw of a monkey goes to a monkey that exists |
| MonkeyBusiness.Turn | 2022/11/src/main.rs:200-208 | a turn changes no monkey's rules and keeps the monkeys well formed |
| MonkeyBusiness.TurnMeaning | 2022/11/src/main.rs:200-208 | after its turn a monkey holds nothing and has inspected each of its items once; every other monkey received its throws at the front |
| MonkeyBusiness.TotalItemsUpdate | 2022/11/src/main.rs:205-207 | replacing one monkey trades its items for the new monkey's |
| MonkeyBusiness.DeliverTotal | 2022/11/src/main.rs:202-206 | each throw adds one item to the monkeys' total |
| MonkeyBusiness.TurnLosesSelfThrows | 2022/11/src/main.rs:201-207 | a turn keeps every item except those a monkey throws to itself, which the write-back of the thrower loses |
| MonkeyBusiness.TurnsUpTo | 2022/11/src/main.rs:200-208 | the first `k` turns change no rules and keep the monkeys well formed |
| MonkeyBusiness.Round | 2022/11/src/main.rs:199-211 | a round changes no rules and keeps the monkeys well formed |
| MonkeyBusiness.Rounds | 2022/11/src/main.rs:217-219 | any number of rounds changes no rules and keeps the monkeys well formed |
| MonkeyBusiness.TurnInspected | 2022/11/src/main.rs:200-208 | a turn counts inspections for its own monkey only, one per item it held (also line 159) |
| MonkeyBusiness.TurnsUpToStep | 2022/11/src/main.rs:200-208 | turn `k` adds inspections for monkey `k` only |
| MonkeyBusiness.CountAccumulates | 2022/11/src/main.rs:159 | a count that grows by `d` at one step and stays put at the others has grown by `d` after that step |
| MonkeyBusiness.InspectionTrace | 2022/11/src/main.rs:200-208 | one count per number of turns taken, each being monkey `j`'s inspections by then |
| MonkeyBusiness.InspectionTraceSteps | 2022/11/src/main.rs:200-208 | monkey `j`'s count grows only at its own turn, by the items it then holds |
| MonkeyBusiness.TurnsUpToInspected | 2022/11/src/main.rs:200-208 | after `k` turns a monkey's count has grown by the items it held at its turn if that turn was among them, and not otherwise |
| MonkeyBusiness.RoundInspections | 2022/11/src/main.rs:199-211 | in a round each monkey inspects exactly the items it holds when its turn comes |
| MonkeyBusiness.RoundStatesExist | 2022/11/src/main.rs:200-208 | there is a record of the monkeys after each number of turns of a round, starting with the monkeys themselves |
| MonkeyBusiness.Monkeys.constructor | 2022/11/src/main.rs:171-181 | the monkeys are the parsed ones |
| MonkeyBusiness.Monkeys.RoundOfMonkeyBusiness | 2022/11/src/main.rs:199-211 | the loop over the monkeys leaves exactly the state `Round` describes |
| MonkeyBusiness.Monkeys.PlayTurnOfRound | 2022/11/src/main.rs:200-208 | turn `i` of a round takes the state after `i` turns to the state after `i + 1` |
| MonkeyBusiness.Monkeys.CatchThrow | 2022/11/src/main.rs:203-205 | the catcher is copied, catches, and replaces its slot: exactly `Catch` |
| MonkeyBusiness.Monkeys.ThrowAll | 2022/11/src/main.rs:202-206 | the thrower ends empty with every item counted, and the monkeys received exactly its throws |
| MonkeyBusiness.Monkeys.PlayTurn | 2022/11/src/main.rs:200-208 | one turn leaves exactly the state `Turn` describes |
| MonkeyBusiness.Inspections | 2022/11/src/main.rs:221-225 | one inspection count per monkey, in order |
| MonkeyBusiness.ArgMax | 2022/11/src/main.rs:227-229 | the index of a count that no count exceeds |
| MonkeyBusiness.Without | 2022/11/src/main.rs:227-229 | all counts but one, in order |
| MonkeyBusiness.TopIndices | 2022/11/src/main.rs:227-229 | a largest count and a largest of the others |
| MonkeyBusiness.TopTwoProduct | 2022/11/src/main.rs:227-229 | the product of a largest count and a largest of the others; 1 for no monkey and the count itself for one |
| MonkeyBusiness.MonkeyBusinessFromInput | 2022/11/src/main.rs:214-232 | a parse error is passed on; otherwise the answer is the product of the two largest inspection counts after 20 rounds |
| HillGrid.TryFrom | 2022/12/src/main.rs:57-72 | no row gives "Matrix doesn't have any rows"; otherwise a success exactly when every row is as long as the first, keeping the rows, the first row's width and the row count |
| HillGrid.TryFromRectangular | 2022/12/src/main.rs:57-72 | a rectangular grid with a row is accepted as it is |
| HillGrid.Get | 2022/12/src/main.rs:22-28 | a success exactly inside the grid, with the cell; the Y-axis error for a missing row and the X-axis error for a missing cell |
| HillGrid.Store | 2022/12/src/main.rs:30-36 | a success exactly inside the grid, replacing that cell and no other; the get_mut errors outside (also line 232) |
| HillGrid.StoreGet | 2022/12/src/main.rs:22-36 | a stored value is read back, other cells read as before, and a rectangular grid stays rectangular |
| HillGrid.FromElem | 2022/12/src/main.rs:40-51 | a rectangular grid of the given size, every cell the element |
| HillGrid.NegInvolution | 2022/12/src/main.rs:137-148 | negation is an involution without fixed points |
| HillGrid.StepFrom | 2022/12/src/main.rs:151-170 | none exactly for Up on the top row and Left on the first column; Down and Right always step |
| HillGrid.StepBack | 2022/12/src/main.rs:151-170 | a step is undone by the opposite step (also line 232) |
| HillGrid.StepAdjacent | 2022/12/src/main.rs:151-170 | a step moves one cell along one axis |
| HillGrid.AllDirections | 2022/12/src/main.rs:172-180 | every direction is among the four |
| HillGrid.Others | 2022/12/src/main.rs:182-184 | the three directions other than the given one, in the fixed order |
| HillGrid.OthersUp | 2022/12/src/main.rs:358-366 | the test: the others of Up are Right, Down, Left |
| HillGrid.Trail | 2022/12/src/main.rs:312-323 | at most one coordinate per direction, starting where the walk starts |
| HillGrid.TrailOfWalk | 2022/12/src/main.rs:312-323 | a walk that never leaves the top or left edge gives one coordinate per direction |
| HillGrid.CoordsFromDirections | 2022/12/src/main.rs:312-323 | the loop collects exactly the trail, stopping at the first step without a neighbour |
| HillGrid.PathBackWalks | 2022/12/src/main.rs:262-277 | the directions read back, followed from where they were read, lead to the start, one coordinate per direction |
| HillGrid.ShortestPathFrom | 2022/12/src/main.rs:262-277 | the loop returns exactly the directions read back, or the first of its errors, and ends because the table is well founded |
| HillGrid.RowNonesMark | 2022/12/src/main.rs:232 | marking an empty cell of a row leaves one fewer empty cell in it |
| HillGrid.NoneCountMark | 2022/12/src/main.rs:232 | replacing a row by one with one fewer empty cell leaves one fewer in the table |
| HillGrid.StoreMarks | 2022/12/src/main.rs:221-232 | recording a direction in an empty cell leaves one empty cell fewer, which bounds the search |
| HillGrid.Height | 2022/crates/12/src/main.rs:17-25 | an elevation's own value, 1 for Start and 26 for End |
| HillGrid.FindLast | 2022/12/src/main.rs:97-124 | none exactly when the value is absent; otherwise the last cell in reading order holding it |
| HillGrid.LastIn | 2022/12/src/main.rs:104-116 | none exactly when the value is absent from the row; otherwise its last position |
| HillSearch.Expansion | 2022/12/src/main.rs:240-253 | the first program surveys from an elevation with its value and from Start with none; the second uses the fixed heights |
| HillSearch.Deepen | 2022/12/src/main.rs:231-232 | the target gains a depth, unless it is the start |
| HillSearch.UnmarkedFresh | 2022/12/src/main.rs:221-223 | an unmarked cell other than the start has not been reached |
| HillSearch.MarkKeepsLinks | 2022/12/src/main.rs:231-232 | marking a fresh neighbour reached by a legal step keeps every reached cell linked to its parent |
| HillSearch.MarkKeepsConsistent | 2022/12/src/main.rs:231-232 | queueing and marking such a neighbour one step deeper keeps the table consistent |
| HillSearch.PopKeepsConsistent | 2022/12/src/main.rs:238 | dequeuing keeps the table consistent |
| HillSearch.ReachedIsReachable | 2022/12/src/main.rs:207-235 | a recorded depth is a number of legal steps by which the cell is reachable |
| HillSearch.ConsistentWellFounded | 2022/12/src/main.rs:262-277 | following the recorded directions always descends in depth, so the path loop ends |
| HillSearch.PathBackLegal | 2022/12/src/main.rs:262-277 | from every reached cell the path read back succeeds, is as long as the cell's depth, and is legal |
| HillSearch.LevelUp | 2022/12/src/main.rs:238 | once the queue's head is one level deeper, every cell reachable in that many steps has a depth no larger |
| HillSearch.GrownStep | 2022/12/src/main.rs:207-235 | one more survey keeps the growth of the queue and the depths |
| HillSearch.ExpandedAfterSurvey | 2022/12/src/main.rs:241-253 | surveying every direction but the one back leaves the cell expanded |
| HillSearch.ExpandKeepsFrontier | 2022/12/src/main.rs:238-256 | expanding the queue's head keeps the breadth-first frontier and its completeness |
| HillSearch.NoNearerGoal | 2022/12/src/main.rs:255 | when a cell of the current level is dequeued, no goal is reachable in fewer steps |
| HillSearch.ExhaustedReachable | 2022/12/src/main.rs:259 | with nothing queued every reachable cell was expanded, so none is a goal |
| HillSearch.Surveyed | 2022/12/src/main.rs:207-235 | a survey only adds depths and keeps the table the map's size |
| HillSearch.SurveyedAll | 2022/12/src/main.rs:241-253 | surveys in turn only add depths and keep the table the map's size |
| HillSearch.SurveyedKeeps | 2022/12/src/main.rs:207-235 | a survey from a reached cell keeps the table consistent and the remaining count, queues only fresh cells, and gives every legal target a depth |
| HillSearch.SurveyedAllConsistent | 2022/12/src/main.rs:241-253 | a round of surveys keeps the table consistent and the remaining count |
| HillSearch.SurveyedAllGrown | 2022/12/src/main.rs:241-253 | a round of surveys keeps old depths and queues only legal neighbours one step deeper |
| HillSearch.ExpandStep | 2022/12/src/main.rs:238-256 | expanding the dequeued cell keeps the loop's invariant and lowers the remaining count |
| HillClimbing.SquareOf | 2022/12/src/main.rs:106-116 | `S` is Start, `E` is End, any other character its elevation counted from `a` |
| HillClimbing.Squares | 2022/12/src/main.rs:100-119 | one square per character, one row per line |
| HillClimbing.ParseMap | 2022/12/src/main.rs:96-127 | a success exactly for a valid grid with an `S` and an `E`, holding the last of each, and then a valid map; the grid's error first, then the missing start, then the missing end |
| HillClimbing.TrailingNewlineFails | 2022/12/src/main.rs:96-127 | a map text whose lines hold only map characters and which ends in a newline has an empty last row, so parsing it fails |
| HillClimbing.Terrain | 2022/12/src/main.rs:187-205 | a valid map gives a valid hill searched from the start by the climbing rule |
| HillClimbing.MapSearcher.Init | 2022/12/src/main.rs:194-205 | the start queued at depth 0 and an empty table of the map's size, which satisfy the search invariant |
| HillClimbing.MapSearcher.Survey | 2022/12/src/main.rs:207-235 | no error; exactly the state `Surveyed` describes |
| HillClimbing.MapSearcher.SurveyDirections | 2022/12/src/main.rs:241-253 | exactly the state `SurveyedAll` describes |
| HillClimbing.MapSearcher.SearchForEnd | 2022/12/src/main.rs:237-260 | an End found is reached and no End is nearer; "End not found" only when no End is reachable |
| HillClimbing.MapSearcher.SurveyNeighbours | 2022/12/src/main.rs:239-254 | the arms for Start and an elevation keep the loop invariant and lower the remaining count |
| HillClimbing.MapSearcher.GetShortestPath | 2022/12/src/main.rs:262-277 | the path read back succeeds, is as long as the cell's depth, is legal and leads to the start |
| HillClimbing.ShortestPath | 2022/12/src/main.rs:325-352 | parser errors are passed on; a path is a legal shortest path from an End to the start; "End not found" only when no End is reachable |
| HillClimbingInverted.SquareOf | 2022/crates/12/src/main.rs:170-180 | `S` is Start, `E` is End, any other character its byte value less 96 |
| HillClimbingInverted.Squares | 2022/crates/12/src/main.rs:164-183 | one square per character, one row per line |
| HillClimbingInverted.ParseMap | 2022/crates/12/src/main.rs:160-194 | a success exactly with an `E`, a valid grid and an `S`, holding the last `S`; the missing end first, then the grid's error, then the missing start |
| HillClimbingInverted.TrailingNewlineFails | 2022/crates/12/src/main.rs:160-194 | a map text whose lines hold only map characters and which ends in a newline has an empty last row, so parsing it fails |
| HillClimbingInverted.InvertSquareHeight | 2022/crates/12/src/main.rs:135-144 | inversion mirrors every fixed height `h` to `27 - h` |
| HillClimbingInverted.InvertSquareInvolution | 2022/crates/12/src/main.rs:135-144 | on the elevations `a` to `z` inverting twice gives the square back |
| HillClimbingInverted.InvertedAdmits | 2022/crates/12/src/main.rs:287-289 | climbing at most one on the inverted map is descending at most one on the original |
| HillClimbingInverted.InvertedGoal | 2022/crates/12/src/main.rs:305-316 | the goal on the inverted map is Start or an `a` on the original |
| HillClimbingInverted.InvertedRows | 2022/crates/12/src/main.rs:127-147 | every square inverted, with the same shape |
| HillClimbingInverted.Invert | 2022/crates/12/src/main.rs:125-155 | same dimensions, every square inverted, and the start moved to the last End |
| HillClimbingInverted.InvertValid | 2022/crates/12/src/main.rs:125-155 | a parsed map inverts into a valid hill whose heights fit a byte |
| HillClimbingInverted.Terrain | 2022/crates/12/src/main.rs:254-272 | the hill searched from the start by the descending rule |
| HillClimbingInverted.MapSearcher.Init | 2022/crates/12/src/main.rs:261-272 | the start queued at depth 0 and an empty table of the map's size, which satisfy the search invariant |
| HillClimbingInverted.MapSearcher.Survey | 2022/crates/12/src/main.rs:274-295 | no error; exactly the state `Surveyed` describes |
| HillClimbingInverted.MapSearcher.SurveyDirections | 2022/crates/12/src/main.rs:301-314 | exactly the state `SurveyedAll` describes |
| HillClimbingInverted.MapSearcher.SearchForEnd | 2022/crates/12/src/main.rs:297-321 | a goal found is reached and no goal is nearer; "End not found" only when no goal is reachable |
| HillClimbingInverted.MapSearcher.SurveyNeighbours | 2022/crates/12/src/main.rs:299-315 | the arms for Start and an elevation keep the loop invariant and lower the remaining count |
| HillClimbingInverted.MapSearcher.GetShortestPath | 2022/crates/12/src/main.rs:323-338 | the path read back succeeds, is as long as the cell's depth, is legal and leads to the start |
| HillClimbingInverted.ShortestPath | 2022/crates/12/src/main.rs:386-415 | parser errors are passed on; a path is a legal shortest path from a goal of the inverted map to its start; "End not found" only when none is reachable |
| DistressSignal.CompareNat | 2022/13/src/recursive_number_list.rs:10-22 | `Less` exactly when the first is smaller, `Equal` exactly when they are equal |
| DistressSignal.SizeSingleton | 2022/13/src/recursive_number_list.rs:11-12 | wrapping a number in a list adds no weight to the list's elements, so the comparison terminates |
| DistressSignal.CompareAsLists | 2022/13/src/recursive_number_list.rs:7-26 | every comparison is a comparison of element lists, a number standing for the one-element list holding it |
| DistressSignal.Compare | 2022/13/src/recursive_number_list.rs:7-26 | every packet compares `Equal` with itself |
| DistressSignal.CompareLists | 2022/13/src/recursive_number_list.rs:13-23 | every list compares `Equal` with itself |
| DistressSignal.CompareFlip | 2022/13/src/recursive_number_list.rs:7-26 | comparing the other way round flips the answer |
| DistressSignal.CompareListsFlip | 2022/13/src/recursive_number_list.rs:13-23 | comparing lists the other way round flips the answer |
| DistressSignal.CompareTransitive | 2022/13/src/recursive_number_list.rs:7-26 | the comparison is transitive, strictly when either step is strict |
| DistressSignal.ItemsSize | 2022/13/src/recursive_number_list.rs:11-12 | a number's elements weigh what it weighs, a list's one less |
| DistressSignal.CompareListsTransitive | 2022/13/src/recursive_number_list.rs:13-23 | the list comparison is transitive, strictly when either step is strict |
| DistressSignal.SplitPrefix | 2022/13/src/recursive_number_list.rs:45-77 | the scan always has a piece open |
| DistressSignal.AppendToLast | 2022/13/src/recursive_number_list.rs:56-60 | growing the last piece keeps the number of pieces |
| DistressSignal.DepthStep | 2022/13/src/recursive_number_list.rs:51-53 | one more character moves the counter by that character |
| DistressSignal.ScanCut | 2022/13/src/recursive_number_list.rs:54-61 | a comma below depth one closes the piece and opens an empty one |
| DistressSignal.ScanKeep | 2022/13/src/recursive_number_list.rs:50-64 | any other character joins the open piece |
| DistressSignal.SplitCsvOutsideBrackets | 2022/13/src/recursive_number_list.rs:45-77 | the loop returns exactly the pieces of the scan, or "Unbalanced brackets" with the counter when it does not end at zero |
| DistressSignal.SplitOutside | 2022/13/src/recursive_number_list.rs:45-77 | an error exactly when the brackets do not balance, with the counter in the message; otherwise pieces that joined with commas give back the text |
| DistressSignal.DepthAfterOne | 2022/13/src/recursive_number_list.rs:50-53 | the counter after one more character of the input |
| DistressSignal.CutKeepsScan | 2022/13/src/recursive_number_list.rs:54-61 | the loop's pieces after a cutting comma are the scan's |
| DistressSignal.KeepKeepsScan | 2022/13/src/recursive_number_list.rs:50-64 | the loop's pieces after any other character are the scan's |
| DistressSignal.JoinSplitPrefix | 2022/13/src/recursive_number_list.rs:45-77 | the pieces joined with commas give back the input: the scan loses nothing |
| DistressSignal.StripBracketsSlice | 2022/13/src/recursive_number_list.rs:80-90 | the filter removes only a leading `[` and a trailing `]` |
| DistressSignal.KeptMiddle | 2022/13/src/recursive_number_list.rs:83-89 | past the first position the filter keeps everything but a trailing `]` |
| DistressSignal.PieceBounds | 2022/13/src/recursive_number_list.rs:96-99 | each piece is no longer than the text it came from, and shorter when there are several, so reading terminates |
| DistressSignal.DepthAppend | 2022/13/src/recursive_number_list.rs:50-53 | the counter over two texts is the sum of their counters |
| DistressSignal.BalancedAppend | 2022/13/src/recursive_number_list.rs:67-69 | two balanced texts in a row are balanced |
| DistressSignal.NoBracketsDepth | 2022/13/src/recursive_number_list.rs:50-53 | a text without brackets leaves the counter at zero |
| DistressSignal.DecimalGood | 2022/13/src/recursive_number_list.rs:35-39 | a number's text is balanced and has no comma outside brackets |
| DistressSignal.WrapGood | 2022/13/src/recursive_number_list.rs:34 | brackets around a balanced text keep every comma inside |
| DistressSignal.DepthAfterComma | 2022/13/src/recursive_number_list.rs:54-61 | after a balanced text and a comma the counter is that of what follows |
| DistressSignal.AppendToLastOfAppend | 2022/13/src/recursive_number_list.rs:56-60 | growing the last piece of two runs of pieces grows the second run's last piece |
| DistressSignal.SplitAfterBalanced | 2022/13/src/recursive_number_list.rs:54-61 | a comma after a balanced text starts the scan afresh |
| DistressSignal.SplitAfterBalancedStep | 2022/13/src/recursive_number_list.rs:50-64 | the step of that induction: one more character after the comma |
| DistressSignal.SplitSingle | 2022/13/src/recursive_number_list.rs:45-77 | a text whose commas are inside brackets is one piece |
| DistressSignal.SplitJoinGood | 2022/13/src/recursive_number_list.rs:45-77 | balanced pieces without top-level commas, joined with commas, split back into themselves |
| DistressSignal.JoinBalanced | 2022/13/src/recursive_number_list.rs:67-69 | balanced pieces joined with commas are balanced |
| DistressSignal.BalancedComma | 2022/13/src/recursive_number_list.rs:67-69 | two balanced texts around a comma are balanced |
| DistressSignal.RenderGood | 2022/13/src/recursive_number_list.rs:28-100 | every packet's text is balanced, keeps its commas inside brackets, and is not empty |
| DistressSignal.RenderEach | 2022/13/src/recursive_number_list.rs:96-99 | one text per element, in order |
| DistressSignal.SplitRendered | 2022/13/src/recursive_number_list.rs:92-99 | the scan cuts a list's inner text exactly between its elements |
| DistressSignal.RoundTrip | 2022/13/src/recursive_number_list.rs:28-100 | reading a packet's text gives the packet back when its numbers fit a `u8` |
| DistressSignal.FromStrRoundTrip | 2022/13/src/recursive_number_list.rs:79-100 | reading a list's text gives its elements back |
| DistressSignal.RenderList | 2022/13/src/recursive_number_list.rs:79-100 | a list's text is its elements' texts between brackets, joined with commas |
| DistressSignal.FromStr | 2022/13/src/recursive_number_list.rs:79-100 | nothing between the brackets is the empty list; unbalanced brackets inside give the "Unbalanced brackets" error; a success has one element per piece of the scan |
| DistressSignalExamples.InnerNumbers | 2022/13/src/recursive_number_list.rs:136-162 | the texts of the numbers inside the nested test list |
| DistressSignalExamples.OuterNumbers | 2022/13/src/recursive_number_list.rs:136-162 | the texts of the numbers around the nested test list |
| DistressSignalExamples.RenderInnermost | 2022/13/src/recursive_number_list.rs:136-162 | `[5,6,0]` is the text of its list |
| DistressSignalExamples.RenderPair | 2022/13/src/recursive_number_list.rs:136-162 | a pair's text from its elements' texts |
| DistressSignalExamples.RenderNested | 2022/13/src/recursive_number_list.rs:136-162 | `[2,[3,[4,[5,6,0]]]]` is the text of the nested test list |
| DistressSignalExamples.FourPieces | 2022/13/src/recursive_number_list.rs:138-160 | `1,t,8,9` splits into its four elements and `[1,t,8,9]` reads as its list (also lines 111-113) |
| DistressSignalExamples.TwoPieces | 2022/13/src/recursive_number_list.rs:123-126 | `2,t` splits into its two elements |
| DistressSignalExamples.NestedExamples | 2022/13/src/recursive_number_list.rs:136-162 | the first and third splitting tests and the reading test (also lines 109-126) |
| DistressSignalExamples.EmptyListSplit | 2022/13/src/recursive_number_list.rs:128-131 | `[]` stays one piece |
| DistressSignalExamples.CompareNumberExamples | 2022/13/src/recursive_number_list.rs:164-189 | the tests decided by a number or by length |
| DistressSignalExamples.CompareMixedExamples | 2022/13/src/recursive_number_list.rs:171-194 | the tests where a number meets a list or lists nest |
| DistressSignalKey.Packets | 2022/13/src/main.rs:13-25 | every packet read is a list |
| DistressSignalKey.Insert | 2022/13/src/main.rs:35 | one more element, placed first or after the first |
| DistressSignalKey.SortedTail | 2022/13/src/main.rs:35 | the rest of an ordered sequence is ordered |
| DistressSignalKey.SortedCons | 2022/13/src/main.rs:35 | a packet before an ordered sequence it does not follow keeps it ordered |
| DistressSignalKey.InsertSorted | 2022/13/src/main.rs:35 | inserting keeps the order and adds exactly the packet |
| DistressSignalKey.Sort | 2022/13/src/main.rs:35 | the sort orders the packets and is a permutation of them |
| DistressSignalKey.SortedPairs | 2022/13/src/main.rs:35 | in an ordered sequence no packet follows a later one |
| DistressSignalKey.Position | 2022/13/src/main.rs:37-48 | the first index holding the packet |
| DistressSignalKey.Ordered | 2022/13/src/main.rs:32-35 | both dividers are among the ordered packets, so the positions exist |
| DistressSignalKey.KeyOf | 2022/13/src/main.rs:37-52 | `[[2]]` is found strictly before `[[6]]`, and the key is the product of their one-based positions |
| DistressSignalKey.DecoderKey | 2022/13/src/main.rs:11-53 | a key exactly when every line reads as a packet; then `[[2]]` is found before `[[6]]` in the ordered packets and the key is the product of their one-based positions |
| DistressSignalKey.DividerCompare | 2022/13/src/main.rs:27-30 | `[[6]]` comes after `[[2]]` |
| DistressSignalKey.DividersInOrder | 2022/13/src/main.rs:35-48 | `[[2]]` is found before `[[6]]` among the ordered packets |
| DistressSignalKey.DividersParse | 2022/13/src/main.rs:27-30 | the divider texts read as the divider packets, so reading them cannot fail |
| RegolithReservoir.ExtrudeCollinearPoints | 2022/14/src/main.rs:12-36 | a span exactly for two different points sharing a column or a row; it starts at the point nearer the origin, reaches the other, is vertical exactly when the column is shared, and is not empty; the "same" error for equal points and the "not collinear" error otherwise |
| RegolithReservoir.ExtrudeSymmetric | 2022/14/src/main.rs:12-36 | the order of the two points does not matter |
| RegolithReservoir.ExtrudeEndPoints | 2022/14/src/main.rs:12-36 | a span is recovered from its two ends |
| RegolithReservoir.ExtrudeExamples | 2022/14/src/main.rs:77-110 | the three tests: a vertical pair, a horizontal pair and a repeated point |
| Trebuchet.Digits | 2023/01/main.go:15-18 | only digits, and no more characters than the line has |
| Trebuchet.DigitsEmpty | 2023/01/main.go:15-18 | a line has no digits exactly when none of its characters is one |
| Trebuchet.DigitsFirst | 2023/01/main.go:19-22 | the first digit of the line heads the digits |
| Trebuchet.DigitsLast | 2023/01/main.go:23-25 | the last digit of the line ends the digits |
| Trebuchet.DigitsAppendNone | 2023/01/main.go:16-18 | characters that are not digits add none |
| Trebuchet.FirstAndLastDigit | 2023/01/main.go:13-28 | the first and the last digit in line order; both the zero rune for a line without digits |
| Trebuchet.TwoDigits | 2023/01/main.go:42 | two digit runes convert to ten times the first plus the second |
| Trebuchet.QuoteZeroRunes | 2023/01/main.go:42-45 | Go quotes the two zero runes as `"\x00\x00"` |
| Trebuchet.ZeroRunes | 2023/01/main.go:42-45 | two zero runes are no number: the conversion fails with invalid syntax |
| Trebuchet.CalibrationValue | 2023/01/main.go:41-45 | a value exactly for a line with a digit, and then below 100 |
| Trebuchet.CalibrationOfEnds | 2023/01/main.go:41-45 | converting the two runes of `firstAndLastDigit` gives the line's calibration value, error included |
| Trebuchet.LineValue | 2023/01/main.go:41-46 | the loop body gives exactly the line's calibration value |
| Trebuchet.SingleDigit | 2023/01/main.go:19-25 | a line with one digit is worth eleven times it |
| Trebuchet.TotalKeepsError | 2023/01/main.go:43-45 | an error among the first lines ends the program with it |
| Trebuchet.TotalStep | 2023/01/main.go:46 | one more line adds its value |
| Trebuchet.TotalStops | 2023/01/main.go:43-45 | a line without a digit ends the total with its error |
| Trebuchet.SumCalibrations | 2023/01/main.go:30-49 | the loop over the terminated lines gives exactly their total, or the first line's error |
| Trebuchet.TotalBounds | 2023/01/main.go:33-47 | the total succeeds exactly when every line has a digit, and is then at most 99 per line |
| Trebuchet.TwoDigitLine | 2023/01/main.go:13-42 | a line whose first digit is `c` and last `d` is worth `10c + d` |
| Trebuchet.Examples | 2023/01/main.go:13-45 | the puzzle's lines and a line without digits |
| GoCommon.TerminatedLines | 2023/01/main.go:33-37 | every line handed out ends with its newline |
| GoCommon.TerminatedLinesCover | 2023/01/main.go:33-37 | the lines handed out and the unterminated rest make up the input |
| CubeConundrum.ParseCube | 2023/02/main.go:13-24 | a success only for text with exactly one space, whose colour has none; the item-count and amount errors otherwise |
| CubeConundrum.ParseCubeRoundTrip | 2023/02/main.go:13-24 | a written amount and colour read back as they were written |
| CubeConundrum.RevealStep | 2023/02/main.go:34-46 | one more item applies to the draw parsed so far |
| CubeConundrum.RevealKeepsError | 2023/02/main.go:35-45 | a failed item ends the draw with its error |
| CubeConundrum.ParseReveal | 2023/02/main.go:32-48 | the loop gives exactly the items of the draw applied in order, or the first item's error or "Invalid color" |
| CubeConundrum.RevealMeaning | 2023/02/main.go:32-48 | a draw parses exactly when every item parses and names a known colour; each colour then holds its last item's amount, and 0 when never named |
| CubeConundrum.RevealsStep | 2023/02/main.go:64-66 | one more draw is appended to those parsed so far |
| CubeConundrum.RevealsKeepError | 2023/02/main.go:64-66 | a failed draw ends the game with its error |
| CubeConundrum.RevealsShape | 2023/02/main.go:63-66 | one draw per `"; "` piece, each as `parseReveal` reads it |
| CubeConundrum.ParseGame | 2023/02/main.go:50-68 | the loop gives exactly the id and the draws in order, or the first header or draw error |
| CubeConundrum.GameHeaderRoundTrip | 2023/02/main.go:51-62 | a header `<word> <id>: ` is read back with the text after it, whatever the word |
| CubeConundrum.GameIsValid | 2023/02/main.go:70-83 | true exactly when every draw is within all three limits |
| CubeConundrum.PossibleMonotone | 2023/02/main.go:70-83 | raising a limit keeps a possible game possible, and a game without draws is possible |
| CubeConundrum.PossibleIdSumSnoc | 2023/02/main.go:115-117 | one more game adds its id exactly when it is possible |
| CubeConundrum.GamesStep | 2023/02/main.go:111-113 | one more line is read as a game after those before it |
| CubeConundrum.GamesKeepError | 2023/02/main.go:113 | a line that is no game ends the program with its error |
| CubeConundrum.SumPossibleIds | 2023/02/main.go:102-123 | the loop over the terminated lines gives exactly the sum of the possible games' ids, or the first parse error |
| CubeConundrum.PossibleIdSumBounds | 2023/02/main.go:115-117 | with ids that are not negative the answer lies between 0 and the sum of all ids |
| CubeConundrum.AllPossible | 2023/02/main.go:115-117 | when every game is possible the answer is the sum of all ids |
| GoCommon.SplitOnJoin | 2023/02/main.go:33-63 | splitting on a separator undoes joining with it when no piece holds the separator's first character |
| GoCommon.SplitOnNoSeparator | 2023/02/main.go:33-63 | text without the separator's first character is one piece |
| GoCommon.SplitOnAtFirstSeparator | 2023/02/main.go:51 | the first separator ends the first piece |
| GearRatios.HasSymbolMeaning | 2023/03/main.go:14 | `strings.ContainsAny` with the symbols holds exactly when some character is one of them (also line 83) |
| GearRatios.NextDigit | 2023/03/main.go:19-23 | the first digit at or after the position, or the end of the text |
| GearRatios.RunEnd | 2023/03/main.go:24-27 | one past the last digit of the run starting there |
| GearRatios.Scan | 2023/03/main.go:16-30 | the first run of digits from `from` on, maximal at both ends; without a digit the start is -1 and the end is the text's end, or -1 when nothing was scanned |
| GearRatios.NextDigitIs | 2023/03/main.go:19-23 | a position with only non-digits before it is the first digit |
| GearRatios.RunEndIs | 2023/03/main.go:24-27 | a position after only digits that holds none ends the run |
| GearRatios.ScanForNum | 2023/03/main.go:16-30 | the loop returns exactly the start and end `Scan` describes |
| GearRatios.ScanExamples | 2023/03/main_test.go:5-63 | the six tests of `scanForNum` |
| GearRatios.Window | 2023/03/main.go:32-44 | no longer than the text, and empty when the bounds cross or start past the text |
| GearRatios.ClampedStrSlice | 2023/03/main.go:32-44 | for a non-negative end, the clamped slice is exactly the window of the columns that exist |
| GearRatios.WindowAt | 2023/03/main.go:32-44 | each character of the window is the text's character at its column, and the window is as wide as the columns that exist |
| GearRatios.WindowSymbol | 2023/03/main.go:32-44 | a window holds a symbol exactly when one of its columns does (also line 83) |
| GearRatios.AdjacentMeaning | 2023/03/main.go:80-114 | the four checks find a symbol exactly when one touches the number, diagonals included |
| GearRatios.NumberValueMeaning | 2023/03/main.go:73-76 | a run of digits fails to parse exactly when it exceeds 64 bits, and is otherwise its value |
| GearRatios.NumberValueDecimal | 2023/03/main.go:73-76 | every 64-bit number is read back from its decimal text |
| GearRatios.ParseNum | 2023/03/main.go:73-76 | exactly the run's value, or the fatal "Couldn't parse num" error |
| GearRatios.NoPartsLeft | 2023/03/main.go:68-71 | with no digit left nothing more is added |
| GearRatios.NoPartsAtEnd | 2023/03/main.go:116-118 | once a number ends at the last column or beyond, no number is left, so the early break loses nothing |
| GearRatios.PartSumStep | 2023/03/main.go:68-114 | one number read: the rest of the line is summed, and the number is added when a symbol is adjacent |
| GearRatios.PartSumStops | 2023/03/main.go:73-76 | a number that does not fit ends the line with its error |
| GearRatios.IsPartNumber | 2023/03/main.go:80-114 | the first of the four checks that finds a symbol decides, exactly as `Adjacent` says |
| GearRatios.NumberStep | 2023/03/main.go:64-119 | one pass of the inner loop: either the loop leaves with the rest of the line's sum, or it moves forward past the number having added what the number contributes |
| GearRatios.ShiftCompose | 2023/03/main.go:84-111 | adding two numbers in turn adds their sum |
| GearRatios.ShiftFinish | 2023/03/main.go:64-119 | the total when the inner loop leaves: the sum, or the error that stopped it |
| GearRatios.LineSum | 2023/03/main.go:64-119 | the inner loop gives exactly the part numbers of the line added up |
| GearRatios.SampleScans | 2023/03/main.go:16-30 | the runs of the sample's first line are `467` and `114` |
| GearRatios.SampleNumbers | 2023/03/main.go:73-76 | the runs read as 467 and 114 |
| GearRatios.SampleTouches | 2023/03/main.go:107-113 | 467 touches the `*` below it |
| GearRatios.SampleAlone | 2023/03/main.go:80-114 | 114 touches no symbol |
| GearRatios.SampleLine | 2023/03/main.go:64-119 | the sample's first line adds 467 |
| GearRatios.PartSumNonNegative | 2023/03/main.go:64-119 | a line sum is never negative |
| GearRatios.NoSymbolNoParts | 2023/03/main.go:80-114 | without a symbol in the three lines no number counts |
| GearRatios.Reads | 2023/03/main.go:52-58 | one read per piece of the input |
| GearRatios.FirstLine | 2023/03/main.go:59-62 | the first read that is not empty, with only empty reads before it |
| GearRatios.BlockEnd | 2023/03/main.go:121-125 | the first empty read from there on, with only non-empty reads before it |
| GearRatios.BlockEndIs | 2023/03/main.go:121-125 | a position after only non-empty reads that is empty ends the block |
| GearRatios.LineSums | 2023/03/main.go:64-119 | one line sum per read |
| GearRatios.BlockStep | 2023/03/main.go:121-122 | one more line of the block adds its sum |
| GearRatios.BlockKeepsError | 2023/03/main.go:75 | an error in a line ends the program with it |
| GearRatios.AddLine | 2023/03/main.go:64-119 | the running total after the current line, or its error |
| GearRatios.ReadStep | 2023/03/main.go:51-126 | one pass of the outer loop keeps its invariant, and the loop leaves with exactly the block's total |
| GearRatios.SumLines | 2023/03/main.go:46-128 | the outer loop gives exactly the total of the lines from the first non-empty one up to the next empty one |
| GearRatios.SchematicSum | 2023/03/main.go:46-128 | the program's answer for the input is exactly that total |
| GoCommon.WrapInt | 2023/03/main.go:48 | the value an `int` holds: within the 64-bit range, congruent to the mathematical value modulo 2^64, and the value itself when it fits |
| GoCommon.WrappedSum | 2023/03/main.go:84-111 | a total built by `n += x` from 0 always stays within the 64-bit range |
| GoCommon.WrappedSumIsWrapOfSum | 2023/03/main.go:84-111 | wrapping after every `+=` gives the unbounded total taken modulo 2^64 |
| GoCommon.WrappedSumFits | 2023/02/main.go:117 | while the unbounded total fits an `int`, the `int` total equals it |
| GoCommon.WrapSample | 2023/03/main.go:84 | two part numbers of 9 * 10^18 add up to -446744073709551616 in an `int` |
| GearRatios.ReadsWhole | 2023/03/main.go:52-58 | with a final newline every line is read whole |
| GearRatios.ReadsChopLast | 2023/03/main.go:52-58 | without a final newline the last line loses its last character |

## Left out

- Reading standard input, command-line arguments and printing: each program is modelled from the input string to its answer or error. The 2023 day 2 colour limits, which the program takes from its arguments, are parameters. The debug output of days 8 and 12 and the path drawing of day 12 are left out.
- `common::get_input`, `Failure` and `e!` of 2022/common/src/lib.rs are taken as given. Errors are modelled as their message strings.
- The matrix module of 2022/crates/8 (2022/crates/8/src/matrix.rs) is not part of this model. `TreetopHouseWide` reuses `TreetopMatrix`, the matrix of 2022/8.
- Characters stand for the bytes of the input. There is no UTF-8 decoding, and Unicode classes are modelled on ASCII. `unicode.IsDigit` in 2023 day 1 is modelled as the ASCII digits. `strconv.Quote` is modelled for ASCII text only.
- 2022 day 14: `main` only parses the rock paths and prints them, and no sand is simulated. Only `extrude_collinear_points` and its tests are modelled.
- Panics through integer overflow (`u32`, `i32`, `usize` arithmetic in debug builds) are preconditions, or left out where named below. The one exception is 2022 day 5's `move_crates`: its `usize` subtractions are modelled as error results, as the next line says.
- SupplyStacks.MoveResult: the debug-build panics of `origin - 1`, `len - quantity` and `destination - 1` (2022/5/src/main.rs:31, 34, 41) are modelled as error results carrying the panic text `attempt to subtract with overflow`, and `SupplyStacks.RunMoves` returns that text. A release build differs. There, `origin - 1` wraps for origin 0, and the program reports "Tried to move from non-existent stack 0". Likewise `destination - 1` wraps for destination 0, giving "Tried to move to non-existent stack 0" after the origin was drained. `len - quantity` wraps to a range start past the stack, which `drain` still panics on. None of the release-build behaviour is modelled.
- NoSpaceLeft.SpaceToFree: directory sizes are unbounded integers; the `i32` width of the sizes is not modelled. `sort` followed by `find` is modelled by `SmallestAbove`, the smallest size above the bound.
- RopeBridge.TailPositions: the coordinates of the knots are unbounded integers; `i32` overflow is not modelled. `sort` followed by `dedup` is modelled by the number of distinct positions.
- CathodeRay.SignalStrengthSum: the register and the strengths are unbounded integers; `i32` overflow is not modelled. The sample answer 13140 of the puzzle is not proved.
- CalorieCounting.GroupTotal: the total is an unbounded sum. `.sum::<u32>()` panics in a debug build, and wraps in a release build, once a group's total passes 2^32 - 1 (the lines `4294967295` and `1` in one group); neither is modelled.
- CalorieCounting.MostCalories: the group totals it compares are unbounded, as for `GroupTotal`, so an input whose group overflows a `u32` is answered with the true total.
- MonkeyBusiness.MonkeyBusinessFromInput: requires every monkey to be well formed (`WellFormed`): a divisor above 0, and both catchers among the monkeys. The program only panics when a monkey actually divides by 0 or throws to a missing monkey. Inputs where such a monkey never acts, or never takes the bad branch, run in the program but are outside the model.
- MonkeyBusiness.MonkeyBusinessFromInput: the inspection counters and their product are unbounded; `u32` overflow of `items_inspected` is not modelled. Worry levels that overflow are excluded by the precondition `RunFits`. The sample answer 10605 is not proved.
- Trebuchet.SumCalibrations: the total is unbounded; the wrap-around of Go's 64-bit `uint` is not modelled. `Uint` models the conversion `uint(i)`.
- CubeConundrum.SumPossibleIds: the total `n` is an unbounded sum. The program keeps it in a 64-bit `int`, so `n += id` (2023/02/main.go:117) wraps past 2^63 - 1; the wrap is not modelled. The `int` total is `WrapInt` of the model's total, by `GoCommon.WrappedSumIsWrapOfSum`. Cube amounts and ids are unbounded beyond the 64-bit range check of `strconv.Atoi`.
- GearRatios.SumLines: input without a non-empty line makes the program loop forever, so `SumLines` requires a non-empty line (`HasLine`). Lines after the first empty line that follows the block are never read.
- GearRatios.SumLines: the total is an unbounded sum. The program keeps `n` in a 64-bit `int` (2023/03/main.go:48), so the `n += num` at lines 84, 93, 102 and 111 wrap past 2^63 - 1; the wrap is not modelled. The program's total is `WrapInt` of the model's, by `GoCommon.WrappedSumIsWrapOfSum`.
- GearRatios.LineSum: a line's part numbers are added without a bound, where the program adds them to its 64-bit `int` total and wraps past 2^63 - 1 (two 19-digit part numbers on one line are enough).
- GearRatios.AddLine: the line's sum is added to an unbounded total; the 64-bit wrap of `n` is not modelled.
- GearRatios.SchematicSum: the answer is the unbounded total. For `9000000000000000000*9000000000000000000` the program prints -446744073709551616 (`GoCommon.WrapSample`), while the model gives 18000000000000000000. The two agree whenever the total fits an `int` (`GoCommon.WrappedSumFits`).
- GearRatios.ClampedStrSlice: requires `end >= 0`, as every call does (it passes the end of a number plus one). With a negative end, `start` is lowered to `end` and `str[end:end]` panics; that panic is not modelled.
- TreetopHouse.BestScenicScore: overflow of the `u8` cells is a precondition (`ProductsFit` with `U8_LIMIT`); wrap-around is not modelled. The finding below shows an input that breaks it.
- HillClimbing.ParseMap: the first program computes `c - 97` as a `u32` and panics below `a`. Its map characters are therefore required to be `S`, `E` or at least `a` (`MapChar`).
- HillClimbingInverted.ParseMap: the second program's characters are required to be byte values that the inversion handles (`MapChar`, `InvertibleChars`). The `.expect` in `invert` cannot fire for them.
- DistressSignalKey.Sort: the packets are sorted by a stable insertion sort. The `Ord` implementation that `sort` uses is not among the source files, so the model relies on `partial_cmp` alone. `partial_cmp` never returns `None` for `u8` numbers.
- DistressSignal.RoundTrip: requires every number to fit a `u8` (`U8Valued`), since larger numbers are parse errors.
- HillGrid.CoordsFromDirections: the path's coordinates are modelled; marking them in the path drawing is not.
- TreetopMatrix.QuarterTurn: the matrix of 2022/8/src/matrix.rs:70-86 turns each coordinate with `f32` sine and cosine and rounds the result. The model gives the exact integer rotation. The `f32` computation agrees with it only while the coordinates fit the 24 bits of an `f32` mantissa; larger matrices are not modelled.
- The `f64` `ceil` of half the line length in 2022 day 3 is modelled as `(len + 1) / 2`, its value for every line length.

## Findings

| source | as written | input that shows it | evidently intended | confidence | as-written member | corrected member |
|---|---|---|---|---|---|---|
| 2022/8/src/main.rs:9-43 | the viewing distances and the scenic score of each tree are kept in `u8` cells, so a product above 255 overflows | a 9 by 9 forest of height 0 with one tree of height 9 in the middle: that tree sees 4 trees in every direction and scores 4^4 = 256 | cells of 32 bits, as in 2022/crates/8/src/main.rs, which hold every score of a forest with at most 256 rows | not executed | TreetopHouse.ByteCellsOverflow | TreetopHouseWide.SmallInputFits |
