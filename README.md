# Roulette and trading tools, modelled in Dafny

This project models the logic of a set of small roulette and trading tools.

- **Roulette tables:** the colour, sector and wheel tables and the dozen counts.
- **Strategy tester:** its selection of numbers and its single-number betting simulation, flat or martingale.
- **Sequence analysis:** the runs through predefined lists, their statistics, and the "combined lists" construction.
- **Subsequence splitter:** splits the spins into runs and classifies the doubles and triples.
- **Training-data encoding:** the number-to-position and number-to-class tables, the dataset windows and the prediction windows.
- **Martingale calculator.**
- **Three number loggers:**
  - a Streamlit one, with HTML spans, history rows and undo;
  - a Tkinter one, with tagged history text and a line break after every 20 numbers;
  - a Streamlit counter, with analyze and total-matches queries.
- **Spreadsheet cell extractor and row flattener.**
- **Daily trading checklist page.**
- **Option-chain strike and direction rules.**

Files, CSVs and spreadsheets are in-memory sequences. Each module follows one source file:

| module | file | source |
|---|---|---|
| `Seqs` | seqs.dfy | shared sequence helpers |
| `Text` | text.dfy | `str.split`, `str.strip`, `str(int(x))`, `f"{num}"` |
| `Roulette` | roulette.dfy | the number sets shared by the roulette tools |
| `Strategy` | strategy.dfy | strategy_builder.py |
| `Analysis` | analysis.dfy | analysis.py |
| `Subsequences` | subsequences.dfy | test.py |
| `Wheel` | wheel.dfy | cloude_train_git.py |
| `Martingale` | martingale.dfy | mcal.py |
| `RouletteApp` | roulette_app.dfy | roulette_app.py |
| `TkApp` | tk_app.dfy | tk_roulette_app.py |
| `Excel` | excel.dfy | excel.py |
| `StreamlitApp` | streamlit_app.dfy | streamlit_app.py |
| `Checklist` | checklist.dfy | streamlit_checks.py |
| `OptionChain` | options.dfy | test2.py |

Three kinds of code take different forms:
- **Loops over local state** (`simulate`, `analyze_continuous_sequences`, `get_subsequences`, the martingale loop, the flattening loop and others) are methods with loop invariants. Each is proved equal to a recursive specification function, and the properties are lemmas about that function.
- **Objects that update their own fields** (the number logs, the Tkinter window, the checklist page) are classes.
- **Pure expressions** are functions.

## Model

| member | source | states |
|---|---|---|
| Text.Split | excel.py:9 | every token of `str.split()` is non-empty and free of whitespace |
| Text.SplitJoin | excel.py:9 | splitting the space-join of whitespace-free tokens gives the tokens back |
| Text.Strip | streamlit_checks.py:61-62 | `strip()` is the input with its leading and trailing whitespace removed: a slice whose outside is all whitespace and whose ends are not; it is empty exactly when the input is blank |
| Text.NatToString | excel.py:9 | `str(n)` for a natural is a canonical digit string (no leading zero unless it is "0") |
| Text.IntToString | roulette_app.py:39 | `f"{num}"` is the canonical decimal digits whose value is the number, led by '-' exactly when the number is negative |
| Text.SignOfString | roulette_app.py:39 | the rendered number starts with '-' exactly when it is negative |
| Text.IntToStringInjective | roulette_app.py:39 | two numbers with the same rendering are equal |
| Text.StripLeadingZeros | excel.py:9 | removing leading zeros from a digit string gives a canonical digit string |
| Text.ValueOfString | excel.py:9 | `int(str(n)) == n` |
| Text.StripKeepsValue | excel.py:9 | dropping leading zeros keeps the value of a digit string |
| Text.CanonicalRoundTrip | excel.py:9 | `str(int(s)) == s` for a canonical digit string |
| Text.StringOfValue | excel.py:9 | `str(int(s))` is `s` without its leading zeros |
| Roulette.ColoursPartition | strategy_builder.py:5-6 | red and black are disjoint and together are exactly 1..36 |
| Roulette.SectorsPartition | strategy_builder.py:7-9 | Voisins, Orphelins and Tiers are pairwise disjoint and together are exactly 0..36 |
| Roulette.ColorName | tk_roulette_app.py:53-56 | the colour is green, red or black |
| Roulette.ColorNameOfSpin | tk_roulette_app.py:53-56 | on a spin: green exactly for 0, red exactly for the red numbers, black exactly for the black numbers |
| Roulette.SectorName | tk_roulette_app.py:59-64 | the sector colour is green, blue or orange |
| Roulette.SectorNameOfSpin | tk_roulette_app.py:59-64 | on a spin: green exactly for Voisins, blue exactly for Orphelins, orange exactly for Tiers; anything else is orange |
| Roulette.DozenCount | roulette_app.py:61-62 | the count of numbers within the bounds is at most the length |
| Roulette.DozensPartition | roulette_app.py:71-73 | on spins, the three dozen counts plus the zeros add up to the number of spins |
| Strategy.AddIf | strategy_builder.py:66-75 | `update` with a ticked group adds exactly that group |
| Strategy.Ticked | strategy_builder.py:76-78 | the ticked-number loop adds exactly the indices whose box is ticked |
| Strategy.Selection | strategy_builder.py:64-79 | a number is selected exactly when it is in a ticked group or its own box is ticked |
| Strategy.GatherSelection | strategy_builder.py:64-79 | the loop builds exactly that selection |
| Strategy.SelectionHoldsSpins | strategy_builder.py:64-79 | with at most 37 number boxes, every selected number is a spin 0..36 |
| Strategy.Step | strategy_builder.py:112-129 | one spin: profit moves only while betting, by plus or minus the stake; a hit always ends idle with gap 0; a loss while betting keeps betting; betting starts only once the gap reaches `break_n`, with stake 1 |
| Strategy.Run | strategy_builder.py:111-129 | the loop over the spins; a run that ends on a hit ends idle with gap 0 |
| Strategy.Simulate | strategy_builder.py:105-130 | the loop's profit is that of the step function run over the spins; without martingale, abs(profit) is at most the number of spins |
| Strategy.RunTest | strategy_builder.py:94-99 | an empty selection is an error and is never simulated; otherwise the profit is the simulated profit |
| Strategy.RunAppend | strategy_builder.py:111 | running over a + b is running over b from the state after a |
| Strategy.IdleStep | strategy_builder.py:122-124 | while idle a spin never changes profit, and an idle hit only resets the gap to 0 |
| Strategy.BettingHit | strategy_builder.py:112-117 | a hit while betting adds the stake, resets stake to 1 and gap to 0, and goes idle |
| Strategy.TrailingMisses | strategy_builder.py:122-126 | the number of misses at the end of the spins: all of them miss and the spin before them hits |
| Strategy.IdleGapCountsMisses | strategy_builder.py:122-126 | while idle, the gap equals the number of trailing misses |
| Strategy.Activation | strategy_builder.py:125-129 | from idle, the next spin switches betting on exactly when it is a miss that brings the trailing misses to `break_n`, and then the stake is 1 |
| Strategy.MartingaleLosses | strategy_builder.py:118-121 | under martingale, k losses multiply the stake by 2^k and cost stake * (2^k - 1) |
| Strategy.FlatLosses | strategy_builder.py:118-121 | without martingale, k losses cost k * stake and keep the stake |
| Strategy.MartingaleCycle | strategy_builder.py:112-121 | under martingale, k losses then a hit gain exactly the opening stake and return to idle with stake 1 and gap 0 |
| Strategy.Waiting | strategy_builder.py:125-127 | fewer than `break_n` idle misses only grow the gap |
| Strategy.WaitThenBet | strategy_builder.py:125-129 | exactly `break_n` idle misses from gap 0 pass through gaps 0..n-1 and start betting with stake 1 |
| Strategy.RunKeepsStakeInvariant | strategy_builder.py:109-129 | the stake is always 1 when idle, a power of two under martingale, and 1 without it |
| Strategy.FlatStakeBound | strategy_builder.py:114-121 | without martingale the stake stays 1 and profit moves by at most one per spin |
| Analysis.Owner | analysis.py:26-36 | the list a number is credited to is the first list holding it; none exactly when no list holds it |
| Analysis.ScanStep | analysis.py:25-40 | one number of the scan keeps the scan state well-formed |
| Analysis.Scanned | analysis.py:24-41 | after any prefix of the numbers the scan state is well formed: a run is open exactly when its count is positive, it belongs to an existing list, and every closed run is at least 1 long |
| Analysis.StepHit | analysis.py:27-34 | a number of the current list extends its run; a number of another list closes the current run and opens a run of 1 |
| Analysis.StepMiss | analysis.py:37-40 | a number in no list closes the current run and clears it |
| Analysis.Streaks | analysis.py:17-44 | one list of runs per named list, every run at least 1 long |
| Analysis.StreaksTotal | analysis.py:24-44 | the run lengths add up to the count of numbers that fall in some list |
| Analysis.SeriesStats | analysis.py:46-59 | keeps the runs; an empty list reports 0 and 0; otherwise the series after the first are one fewer than the runs, and average * count == sum |
| Analysis.AverageAtLeastOne | analysis.py:49-51 | a list with runs has average run length at least 1 |
| Analysis.AnalyzeContinuousSequences | analysis.py:17-61 | the nested loops give, per list, the statistics of that list's runs |
| Analysis.Resolved | analysis.py:24-36 | the count of numbers in some list is at most the length |
| Analysis.CountIn | analysis.py:67-70 | a list's count is at most the number of entries |
| Analysis.CountNumbersByList | analysis.py:63-71 | the loops count, per list, the entries belonging to it |
| Analysis.OwnedAtMostCounted | analysis.py:26-36 | the numbers credited to a list by the run scan are at most those counted for it |
| Analysis.KeyIndex | analysis.py:104 | the dictionary lookup finds an entry with that name, and finds none only when there is none |
| Analysis.KeyIndexOfDistinct | analysis.py:104 | with distinct names, looking up an entry's name finds that entry |
| Analysis.Assign | analysis.py:105-110 | `d[name] = numbers`: an existing name keeps its place and now holds the numbers; a new name is added at the end, growing the size by one; every entry of another name keeps its place |
| Analysis.AssignAll | analysis.py:108-110 | assigning entries in turn never shrinks the dictionary, and every entry of the result comes from the dictionary or the assigned entries |
| Analysis.SelectedNumbers | analysis.py:102-104 | a number is in the extended list exactly when one of the selected lists holds it |
| Analysis.Unselected | analysis.py:108-110 | the unselected entries are exactly the predefined entries whose name is not selected |
| Analysis.UnselectedDistinct | analysis.py:108-110 | the unselected entries keep distinct names |
| Analysis.AssignAllFresh | analysis.py:105-110 | assigning fresh, distinct keys appends them in order |
| Analysis.CombineLists | analysis.py:99-110 | the construction loop builds the combined dictionary |
| Analysis.Combined | analysis.py:99-110 | the combined dictionary is empty exactly when nothing is selected |
| Analysis.CombinedShape | analysis.py:99-110 | an empty selection gives an empty dictionary; otherwise the joined name maps to the selected numbers in selection order, followed by the unselected lists |
| Analysis.JoinWithLength | analysis.py:105 | a join is at least as long as its first part, plus separator and second part when there are two |
| Analysis.JoinedNameFresh | analysis.py:105 | a joined name of selected keys is never the name of an unselected entry |
| Analysis.ClassListsNames | analysis.py:89-93 | the predefined keys are distinct and Big, Orph and Small sit at 0, 1 and 2 |
| Analysis.ClassListsCombined | analysis.py:96-110 | for any selection of the predefined keys, the combined dictionary has the joined list first and the unselected lists after it |
| Subsequences.Kept | test.py:6-23 | the kept numbers are at most the input |
| Subsequences.KeptSnoc | test.py:6-23 | a number is kept exactly when it or its predecessor is in the list |
| Subsequences.FeedKeepsSplitInv | test.py:7-23 | one loop step keeps the splitter invariant |
| Subsequences.FedInvariant | test.py:6-23 | after the loop: in a run exactly when the last number is in the list; closed runs end with a miss; the runs and the open run concatenate to the kept numbers |
| Subsequences.Subsequences | test.py:1-29 | every run is non-empty and starts in the list, all but its last element are in the list, every run but the last ends outside it, and the runs concatenate to the kept numbers |
| Subsequences.GetSubsequences | test.py:1-29 | the loop returns those runs |
| Subsequences.KeptInList | test.py:1-29 | the runs, read for list members only, hold every list member of the input in order |
| Subsequences.KeptHoldsInList | test.py:6-23 | keeping drops no member of the list |
| Subsequences.Example | test.py:52-56 | the example input splits into [[1, 7, 11], [5, 1, 4, 6], [4, 32], [5, 9, 12]] |
| Subsequences.ExampleRun4 | test.py:52-56 | the loop state after the whole example input |
| Subsequences.CategorizeSubsequences | test.py:31-49 | the loop fills the four lists as the doubles and triples filters say |
| Subsequences.CountLong | test.py:38 | the count of runs of at least n elements is at most the number of runs |
| Subsequences.EachRunClassifiedOnce | test.py:37-47 | every run of length at least 2 (at least 3) is a successful or failed double (triple), exactly once |
| Subsequences.TriplesAmongDoubles | test.py:38-47 | every successful triple is a successful double |
| Subsequences.DoublesMembers | test.py:38-42 | doubles come from the input, have at least 2 elements, and succeed exactly when both first elements are in the list |
| Subsequences.TriplesMembers | test.py:43-47 | triples come from the input, have at least 3 elements, and succeed exactly when the first three are in the list |
| Subsequences.DoublesInOrder | test.py:38-42 | the successful and the failed doubles each keep the order of the runs |
| Subsequences.TriplesInOrder | test.py:43-47 | the successful and the failed triples each keep the order of the runs |
| Subsequences.FailuresOfSplit | test.py:1-47 | on split output, a failed double is a hit followed by a miss, and a failed triple is two hits followed by a miss |
| Wheel.IndexMap | cloude_train_git.py:10 | the enumerate comprehension maps each element to an index holding it, the last one |
| Wheel.IndexMapInverse | cloude_train_git.py:10 | on a sequence of distinct elements the map inverts indexing |
| Wheel.WheelIsPermutation | cloude_train_git.py:9 | the wheel layout holds 37 distinct numbers, exactly the spins 0..36 |
| Wheel.PositionInverse | cloude_train_git.py:9-10 | NUMBER_TO_POSITION is defined exactly on the spins and inverts WHEEL_LAYOUT both ways |
| Wheel.WheelHoldsSpins | cloude_train_git.py:9 | the layout has 37 entries, each a spin |
| Wheel.PositionRoundTrip | cloude_train_git.py:131 | a number's position indexes WHEEL_LAYOUT back to the number |
| Wheel.LastClass | cloude_train_git.py:18 | the class kept by the dict comprehension is the last one holding the number |
| Wheel.ClassMap | cloude_train_git.py:18 | NUMBER_TO_CLASS maps a number to the name of its last class, and only numbers in some class |
| Wheel.LastClassOfSpin | cloude_train_git.py:12-18 | Voisins numbers end in class 0, Orphelins in 1, Tiers in 2, and non-spins in none |
| Wheel.ClassOfSpin | cloude_train_git.py:12-18 | NUMBER_TO_CLASS is defined exactly on the spins: Big, Orph and Small for the three sectors |
| Wheel.ClassIndexInverse | cloude_train_git.py:19 | CLASS_TO_INDEX maps Big, Orph and Small to 0, 1 and 2 and inverts the key order |
| Wheel.ClassIndexRoundTrip | cloude_train_git.py:132 | a class's index reads back through the key list to the class |
| Wheel.SpinLookups | cloude_train_git.py:24-25 | both lookups are defined exactly on the spins |
| Wheel.ClassesHaveIndices | cloude_train_git.py:25 | every class name has an index |
| Wheel.Positions | cloude_train_git.py:24 | the positions tensor holds each number's wheel position |
| Wheel.ClassIndices | cloude_train_git.py:25 | the classes tensor holds each number's class index |
| Wheel.MakeDataset | cloude_train_git.py:22-26 | construction succeeds (no KeyError) exactly when every number has a position and class; the result is well-formed |
| Wheel.EncodableSpins | cloude_train_git.py:24-25 | a number can be encoded exactly when it is a spin |
| Wheel.DatasetOfSpins | cloude_train_git.py:22-26 | with the module tables, construction succeeds exactly on lists of spins |
| Wheel.ImagesRoundTrip | cloude_train_git.py:131-134 | a stored position decodes back through WHEEL_LAYOUT to the number, and a class index to its class name |
| Wheel.Length | cloude_train_git.py:28-29 | `__len__` is the data length minus the window length, when that is not negative |
| Wheel.SliceImages | cloude_train_git.py:32-34 | slicing the three tensors alike keeps each number with its own position and class |
| Wheel.GetItem | cloude_train_git.py:31-38 | an item is the window and the next number, each with its own position and class |
| Wheel.PredictionWindows | cloude_train_git.py:119-121 | the prediction loop yields each window of the given length with the number after it |
| Wheel.PredictionMatchesDataset | cloude_train_git.py:119-121 | the prediction windows are the dataset's items: as many, with the same contents |
| Martingale.NextBet | mcal.py:20-32 | after a win the bet resets to the risk; after a loss it doubles |
| Martingale.Settled | mcal.py:17-32 | a settled round changes the balance by `bet * (ratio - 1)` on a win and by `-bet` on a loss; a losing round never ends below 0; the odd-numbered rounds (1, 3, 5, ...) are the wins |
| Martingale.Played | mcal.py:9-35 | a played list of rounds opens on the initial balance with the risk as bet, and each later round starts with the balance the previous one ended on |
| Martingale.Stopped | mcal.py:9 | before any round, the loop does not run exactly when the initial balance is already at the target or cannot cover the risk |
| Martingale.CalculateMartingaleRounds | mcal.py:3-37 | the steps are the rounds played by the rules, and the loop stops at the target or when the next bet cannot be covered; the result is the round count when the target is reached and -1 otherwise; a balance already at the target plays no round and returns 0 |
| Martingale.BetPattern | mcal.py:19-32 | the bets alternate: risk on the first round and on every losing round, 2 * risk on every later winning round |
| Martingale.PairGain | mcal.py:17-32 | each losing round and the win after it change the balance by risk * (2 * ratio - 3) |
| RouletteApp.NumberLog.constructor | roulette_app.py:14-16 | a fresh log holds no numbers |
| RouletteApp.NumberLog.SaveNumber | roulette_app.py:21-24 | saving appends one number at the end |
| RouletteApp.NumberLog.UndoLast | roulette_app.py:26-30 | undo drops the last number and leaves an empty log unchanged |
| RouletteApp.SaveThenUndo | roulette_app.py:21-30 | a save followed by an undo restores the log |
| RouletteApp.WrapInjective | roulette_app.py:39 | a span with a semicolon-free colour determines its colour and text |
| RouletteApp.SpanInjective | roulette_app.py:39 | the HTML span of color_number and sector_color determines its colour and text |
| RouletteApp.ColorNumber | roulette_app.py:32-39 | color_number: a span of the number's colour and its decimal text; ColorNumberReads and ColorNumberInjective state what it determines |
| RouletteApp.SectorColor | roulette_app.py:41-48 | sector_color: a span of the number's sector colour and its decimal text; SectorColorReads and SectorColorInjective state what it determines |
| RouletteApp.ColorNumberReads | roulette_app.py:32-39 | reading a color_number span back gives the number's colour and its digits |
| RouletteApp.SectorColorReads | roulette_app.py:41-48 | reading a sector_color span back gives the number's sector colour and its digits |
| RouletteApp.ColorNumberInjective | roulette_app.py:32-39 | different numbers render differently |
| RouletteApp.SectorColorInjective | roulette_app.py:41-48 | different numbers render differently |
| RouletteApp.Render | roulette_app.py:59 | one rendering per number, in order |
| RouletteApp.Row | roulette_app.py:55 | one row: the rendered numbers joined by single spaces |
| RouletteApp.Rows | roulette_app.py:53-57 | one rendered row per chunk, in order |
| RouletteApp.Chunks | roulette_app.py:54-55 | every chunk has 1 to per_row numbers, and there are as many chunks as per_row-sized pieces needed |
| RouletteApp.ChunksFlatten | roulette_app.py:54-55 | the chunks concatenate back to the reversed history |
| RouletteApp.ChunksFull | roulette_app.py:54-55 | every chunk but the last holds exactly per_row numbers |
| RouletteApp.DisplayHistory | roulette_app.py:50-59 | without per_row, the numbers last to first rendered and space-joined; with per_row, the chunks of per_row rendered as rows joined by `<br>` |
| RouletteApp.DozenMetrics | roulette_app.py:71-73 | on spins, the three metrics count every number except the zeros |
| RouletteApp.ButtonNumbers | roulette_app.py:82-87 | the button loops produce 0..36 in order, each once |
| TkApp.RouletteApp.constructor | tk_roulette_app.py:73 | the window starts with the loaded numbers, mirroring the file |
| TkApp.RouletteApp.AddNumber | tk_roulette_app.py:134-137 | the number is appended to both the file and the list, which keeps them mirrored |
| TkApp.RouletteApp.Undo | tk_roulette_app.py:139-143 | the last number leaves both the file and the list (an empty one is kept), which keeps them mirrored |
| TkApp.RouletteApp.DozenCounts | tk_roulette_app.py:146-148 | on spins, the three dozen counts and the zeros account for every number |
| TkApp.AddThenUndo | tk_roulette_app.py:134-143 | adding then undoing restores both the list and the file |
| TkApp.TagHistory | tk_roulette_app.py:159-161 | one tagged piece per number, from last to first, each with its colour tag |
| TkApp.ShowHistory | tk_roulette_app.py:156-162 | show_history inserts the numbers from last to first, tagged with their colour names |
| TkApp.SlotStep | tk_roulette_app.py:167-171 | each number goes one place after the previous one, or two places after a 20th number |
| TkApp.TagLines | tk_roulette_app.py:167-171 | the sector loop places number p (last first) at p + p / 20, with a line break right after every 20th number |
| TkApp.SlotOrder | tk_roulette_app.py:167-171 | the places grow with the index |
| TkApp.SlotsCover | tk_roulette_app.py:167-171 | every place holds a number or the break after a 20th number, and nothing else |
| TkApp.ShowSectorHistory | tk_roulette_app.py:164-172 | show_sector_history: the sector-tagged numbers, last first, with a line break after every 20 |
| TkApp.NumberTextNotBreak | tk_roulette_app.py:169-171 | a number's text never reads as a line break |
| TkApp.ButtonGrid | tk_roulette_app.py:92-96 | button n sits at cell divmod(n, 12) |
| TkApp.GridCellsDistinct | tk_roulette_app.py:92-96 | the 37 buttons fall in 4 rows of 12 columns, each in its own cell |
| Excel.DigitTokens | excel.py:9 | the tokens kept are digit strings, no more of them than the tokens |
| Excel.DigitTokensMembers | excel.py:9 | a token is kept exactly when it is one of the split tokens and all digits |
| Excel.DigitTokensInOrder | excel.py:9 | the kept tokens keep the order of the split |
| Excel.DigitTokensCount | excel.py:9 | each digit token is kept as many times as it occurs, and every other token is not kept |
| Excel.Normalised | excel.py:9 | one normalised string per token |
| Excel.ExtractAndProcess | excel.py:3-18 | a cell with a space gives a list (one canonical digit string per digit token); a digit cell gives the natural number whose decimal text is the cell without leading zeros; any other cell comes back unchanged |
| Excel.ExtractCases | excel.py:3-18 | a cell with a space gives its digit tokens in order, each without leading zeros and with the same value; a digit cell gives its value; any other cell comes back unchanged |
| Excel.Matrix | excel.py:36-57 | at most one row list per sheet row |
| Excel.NanCellEmpty | excel.py:53 | a "nan" cell contributes nothing |
| Excel.NanRowEmpty | excel.py:42-43 | an all-"nan" row contributes nothing |
| Excel.SkipKeepsConcatenation | excel.py:39-55 | skipping the all-"nan" rows leaves the concatenated list as it would be without the skip |
| Excel.SkipKeepsConcatenationOfSheet | excel.py:36-57 | the same for the module's extractor |
| Excel.ProcessRows | excel.py:36-57 | the nested loops build the per-row lists of the rows that are not all "nan", and the concatenated list is their concatenation |
| Excel.ProcessGrid | excel.py:36-57 | the same for the module's extractor |
| StreamlitApp.Occurrences | streamlit_app.py:30 | the count of a number is its multiplicity in the stored entries |
| StreamlitApp.Matches | streamlit_app.py:37 | the matches are at most the entries; none exactly when no entry is in the list; all exactly when every entry is |
| StreamlitApp.MatchesSnoc | streamlit_app.py:37 | a new entry adds a match exactly when it is in the list |
| StreamlitApp.OccurrencesSnoc | streamlit_app.py:30 | a new entry adds one to its own count and nothing to others |
| StreamlitApp.NumberStore.constructor | streamlit_app.py:12-14 | a fresh file holds no entries |
| StreamlitApp.NumberStore.SaveNumber | streamlit_app.py:16-24 | saving appends one entry at the end |
| StreamlitApp.NumberStore.AnalyzeNumber | streamlit_app.py:26-31 | the count of entries equal to the number |
| StreamlitApp.NumberStore.TotalMatches | streamlit_app.py:33-39 | the entries in the predefined list and all entries; the first is at most the second |
| StreamlitApp.PressButton | streamlit_app.py:49-52 | after a press the count is the old count plus one, the total grows by one, and the matches grow by one exactly when the number is in the list |
| StreamlitApp.ButtonColumns | streamlit_app.py:48-58 | the two columns hold 0..18 and 19..36, together every number once in order |
| Checklist.Page.Load | streamlit_checks.py:40-45 | without a stored record the items are the defaults and nothing is ticked; otherwise the stored items and ticks; no box has been read yet |
| Checklist.Page.AddItem | streamlit_checks.py:61-62 | a submitted text that is not blank is appended stripped; otherwise nothing changes |
| Checklist.Page.CollectChecked | streamlit_checks.py:66-70 | the loop reads one box per item, by position, and collects the items whose box is ticked |
| Checklist.Ticked | streamlit_checks.py:66-70 | the ticked items are items, at most as many, and all of them exactly when every box is ticked |
| Checklist.TickedInOrder | streamlit_checks.py:66-70 | the ticked items keep the checklist order |
| Checklist.TickedMembers | streamlit_checks.py:66-70 | a text is ticked exactly when a box showing it is ticked |
| Checklist.TickedAll | streamlit_checks.py:66-70 | with every box ticked, the ticked list is the whole checklist |
| Checklist.Page.DeleteSelected | streamlit_checks.py:75-77 | pressing delete removes the selected items from the items and the stored ticks, and drops their boxes |
| Checklist.KeptBoxesAll | streamlit_checks.py:66-77 | every box left after a delete is ticked exactly when the box of every item not deleted was ticked |
| Checklist.KeptBoxesLength | streamlit_checks.py:66-77 | after a delete there is one box per remaining item |
| Checklist.Without | streamlit_checks.py:76 | an item remains exactly when it was there and not selected |
| Checklist.WithoutInOrder | streamlit_checks.py:76 | the remaining items keep their order |
| Checklist.Page.AllCompleted | streamlit_checks.py:90-91 | complete means some items remain, one box per item, and every box ticked |
| Checklist.Page.AllCompletedAsWritten | streamlit_checks.py:90 | the page's own test: as many ticks as items and some items; AsWrittenAfterDelete shows it holding with an unticked item |
| Checklist.AsWrittenWithoutDelete | streamlit_checks.py:90-91 | without a delete, the written count test holds exactly when some items exist and every box was ticked |
| Checklist.AsWrittenAfterDelete | streamlit_checks.py:66-91 | items a, b with a ticked and then deleted: the counts agree, yet b is not ticked and the per-box test fails |
| Checklist.CompletedMeans | streamlit_checks.py:66-91 | with every remaining box ticked, every remaining item is among the saved ticks |
| Checklist.ByTextMissesRepeats | streamlit_checks.py:66-70 | items a, a with only the first box ticked: every text is among the ticks, yet fewer ticks than items, so a test by text would miss the repeat |
| Checklist.Session | streamlit_checks.py:53-93 | one page run saves the items after add and delete, with the ticks taken before the delete; it reports the page's count comparison and the corrected test (some item remains and the box of every item not deleted was ticked); without a delete the two agree |
| OptionChain.NearestStrikes | test2.py:15-17 | three strikes: a multiple of 100 at or below the price and within 100 of it, then 50 and 100 above it |
| OptionChain.BaseUnique | test2.py:16 | that base is the only such multiple of 100 |
| OptionChain.CheckDigit | test2.py:20-25 | '-' becomes 0, every other value is kept, and '-' never comes out |
| OptionChain.Ratio | test2.py:90-93 | the larger total over the smaller, so ratio * smaller == larger; at least 1 when both are positive; none where the division is by zero |
| OptionChain.RatioSymmetric | test2.py:112-115 | the ratio does not depend on which side is the call side, for unequal totals |
| OptionChain.FirstStrategy | test2.py:94-106 | no reading unless the ratio is below 225; then bearish exactly when the difference is positive, buying the highest strike; otherwise bullish, buying the lowest |
| OptionChain.SecondStrategy | test2.py:122-136 | no reading unless the ratio is below 225; then bearish exactly when calls exceed puts, buying the highest strike and 100 above it; otherwise bullish, buying the lowest and 100 below it |
| OptionChain.SignalSides | test2.py:94-136 | bearish readings buy only strikes above the price, bullish ones only at or below it, all multiples of 100 |
| OptionChain.SecondStrategySwap | test2.py:122-136 | swapping unequal call and put sums swaps bearish and bullish and keeps "no reading" |

## Left out

- File, CSV, JSON and Excel I/O (`ensure_csv`, `load_numbers`, `read_csv`, `to_csv`, `read_excel`, `json.load` and `json.dump`) is replaced by in-memory sequences and grids. Loading failures and missing columns are not modelled.
- The `new_df` write at excel.py:68 is left out: `new_df` is never filled. The conversion of row lists into a DataFrame at excel.py:57 is left out too; the model keeps the row lists.
- User input is a parameter: the widgets, buttons, messageboxes, plotly charts, the window-size controls and `st.experimental_rerun`.
  - **Checkboxes:** the checkbox states are a function from index to ticked. Their initial values (`item in checked`) are not modelled.
  - **Colour tags:** the Tkinter text tags are the `tag` of each piece.
- The `datetime` cutoff reminder in streamlit_checks.py:85-89 and the timestamped CSV name in tk_roulette_app.py:8-9 depend on the clock.
- The two Streamlit buttons, Undo and Add, are separate calls. The rerun order between them is not modelled.
- The torch model, training, inference and the accuracy percentages in cloude_train_git.py are left out: they are neural-network and floating-point code. online_training.py, r_layout.py (matplotlib drawing) and excel_color.py (styling) are not part of this model.
- test2.py:28-78 is left out: the pandas comma-stripping, float conversion and column sums. The strategies take the totals as real numbers. Float rounding is not modelled. A division by zero, which gives inf or nan in numpy, is `None`; inf and nan never pass the `< 225` test.
- Martingale.CalculateMartingaleRounds: money is `int`. The method requires `risk > 0` and `riskToReward >= 2`. With `risk = 0` (allowed by mcal.py:43) the source loop never ends. The form asks for a ratio of at least 10 (mcal.py:44).
- Excel.ExtractAndProcess: Python `isdigit` is read as ASCII digits only. Unicode digits such as superscripts are not modelled. Under this reading the `ValueError` branch at excel.py:12-13 cannot occur, so it is not modelled.
- Excel.ProcessRows: a row is skipped when all its cells are the string "nan". After `astype(str)` the `pd.isna` test at excel.py:39 never holds, so it is not modelled.
- RouletteApp.DisplayHistory: `per_row` is a natural number. 0 stands for `None`; both are falsy.
- Text.Split: whitespace is the set of characters Python's `str.split()` treats as whitespace, taken one character at a time.
- Wheel.PredictionWindows: only the windows are modelled. The tensors, the model call and the argmax are left out.
- Analysis.SeriesStats: the average is an exact real. The float rounding of `sum(seqs) / len(seqs)` at analysis.py:51 is not modelled.

## Findings

| source | as written | input that shows it | evidently intended | confidence | as-written member | corrected member |
|---|---|---|---|---|---|---|
| streamlit_checks.py:90 | `len(checked_today) == len(items) and items` compares the ticks collected before a delete with the items left after it | items ["a", "b"], box 0 ticked, "a" deleted: one tick, one item, "All checklist items completed" although "b" is unticked | complete only when every remaining item's checkbox is ticked | medium, not executed | Checklist.AsWrittenAfterDelete | Checklist.Session |
