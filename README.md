# gntagger curation engine in Dafny

gntagger is a terminal tool for curating the scientific names that a name
finder found in a text. The text is cleaned of non-printable runes and
word-wrapped to the terminal width. The found names are then shown one at a
time in a names pane, beside a text pane scrolled to the name. The operator
gives each name a verdict (NotName, Accepted, Species, Genus, Uninomial). A
verdict on one name can travel to later occurrences of the same string. A
statistics line summarises the verdicts so far. If the output directory holds
data from an earlier run with a different input or curator version, the old
files are moved aside under their save timestamp.

This project models that engine and proves properties of it. The modules:

- `Basics` (basics.dfy): Option/Result, Go's truncating division, decimal printing.
- `Annotations` (annotation.dfy): the verdict enum of annotation/annotation.go, with its string table, parser, colours, "Annot:" line and membership test.
- `LegacyNames` (legacy_names.dfy): the older revision of the same table in names.go, and the four display lines of a name.
- `Occurrences` (occurrence.dfy):
  - the found-name record and the configuration record;
  - `IsDoubtful`;
  - the same-name propagation rule of `UpdateAnnotations`.
- `Scenarios` (scenarios.dfy): the propagation scenarios of gntagger_test.go, replayed on that rule.
- `Viewport` (viewport.dfy): the window arithmetic of the two panes.
- `Curation` (session.dfy): the session state of termui/gui.go as a `Session` class over an array of names:
  - moving forward and back, and express mode;
  - setting a verdict, and the autosave counter;
  - the per-word aggregation behind the statistics.
- `Apportionment` (apportion.dfy): the truncate-then-bump loop that makes the four percentages sum to 100, shared by termui/stats.go and stats.go.
- `TermStats` (termstats.dfy): termui/stats.go and `updateStats`.
- `AdjustedStats` and `RateStats` (older_stats.dfy): the earlier revisions stats.go and Stats.go.
- `TextPrep` (text.dfy): text.go, covering `printableBytes`, `wrap`, `preparePath`, the file table and the error collection.
- `WrapScenario` (wrap_scenario.dfy): the width-35 expectation of private_test.go, replayed on `WrapOf` word by word.
- `Staleness` (file_creator.dfy): file_creator.go, covering the warning choice, the missing-file rule and the backup renames over a file system modelled as a map from path to contents.

The propagation rule is applied by `Names.UpdateAnnotations`, whose
implementing file is not part of this model. It is modelled from the
scenarios and comment in gntagger_test.go:70-141:

- The current name always takes the new verdict.
- A later name with the identical string follows, but only when the verdict is NotName or Accepted and the cursor is no more than `lookBack` names behind the furthest reviewed name.
- If the current name was NotAssigned or Doubtful, the later name copies the new verdict.
- Otherwise the later name is reverted: to Doubtful when its odds make it doubtful, else to NotAssigned.

## Model

| member | source | states |
|---|---|---|
| Annotations.OfCode | annotation/annotation.go:7-15 | every integer code 0..6 names the annotation declared at that position |
| Annotations.NamesMap | annotation/annotation.go:27-33 | the start-up map sends each table string to the annotation at its index and holds no other key |
| Annotations.NewAnnotation | annotation/annotation.go:35-41 | parsing succeeds exactly on the seven table strings, and printing the result gives the input back; any other string fails with "Annotation name '<s>' does not exist." |
| Annotations.NewAnnotationOfString | annotation/annotation.go:35-45 | parsing the string of any annotation gives that annotation |
| Annotations.StringOfNewAnnotation | annotation/annotation.go:35-45 | printing a parsed annotation gives the parsed string |
| Annotations.NewAnnotationEdgeCases | annotation/annotation.go:17-41 | "" parses to NotAssigned; "NotAssigned" is refused; every unknown string yields code -1 |
| Annotations.String | annotation/annotation.go:43-45 | the printed name is one of the seven table strings, and it is empty exactly for NotAssigned |
| Annotations.Format | annotation/annotation.go:47-51 | the line is ESC "[", the two-digit colour code of the annotation, ";40;2mAnnot: ", the annotation's name and ESC "[0m": 17 runes before the name and 4 after it |
| Annotations.Color | annotation/annotation.go:53-72 | the colour is 32 iff Accepted, 31 iff NotName, 34 iff Doubtful, 35 iff one of the three ranks, 33 iff NotAssigned |
| Annotations.FormatRoundTrip | annotation/annotation.go:47-51 | the "Annot:" line determines the annotation it was built from |
| Annotations.In | annotation/annotation.go:74-81 | the search answers true iff the annotation occurs in the list, so false on an empty list |
| LegacyNames.IndexOf | names.go:73-77 | the search returns the first index holding the string, or None when no index does |
| LegacyNames.AnnotationOfName | names.go:69-81 | "NotAssigned" is an extra alias for NotAssigned; otherwise a string is accepted iff it is in the table, at the index of the result; otherwise the error is "annotation name <s> isn't supported" |
| LegacyNames.AnnotationOfNameRoundTrip | names.go:32-40 | looking up the table string of any annotation gives that annotation back, and "" gives NotAssigned |
| LegacyNames.LegacyColor | names.go:83-102 | this revision's colours: Doubtful is 37, the others as in the newer table |
| LegacyNames.FormatString | names.go:108-112 | the line is ESC "[" + two-digit colour + ";40;2mAnnot: " + name + ESC "[0m" |
| LegacyNames.FormatStringRoundTrip | names.go:104-112 | the annotation can be read back from this revision's line |
| LegacyNames.NameStrings | names.go:47-67 | exactly four lines (counter, odds or type, name highlighted iff current, annotation line), or the lookup error for an unknown annotation string |
| LegacyNames.CurrentName | names.go:124-126 | the record under the cursor is one of the names |
| Occurrences.IsDoubtful | termui/gui.go:481 | unscored names (odds 0) and names at or above OddsHigh are not doubtful; every other name is; OddsLow is not used |
| Occurrences.Updated | gntagger_test.go:84-87 | the current name takes the verdict; only annotations change; earlier names and names with another string are untouched |
| Occurrences.UpdatedFrame | gntagger_test.go:84-87 | the current name takes the new verdict; only annotations change; earlier names, other strings and unguarded verdicts are untouched |
| Occurrences.UpdatedCopiesFreshDecision | gntagger_test.go:84-86 | a verdict on a NotAssigned or Doubtful name is copied to every later same-string name |
| Occurrences.UpdatedRevertsChangedDecision | gntagger_test.go:86-87 | changing a decided name sends later same-string names back to Doubtful or NotAssigned by their odds |
| Occurrences.ReversalUndoesPropagation | gntagger_test.go:84-87 | deciding a pristine name and then changing the decision at the same place restores every other name |
| Scenarios.TestNames | gntagger_test.go:70-83 | the twelve test names |
| Scenarios.TestNamesPristine | gntagger_test.go:70-83 | in the test data a name is Doubtful exactly when its odds make it doubtful |
| Scenarios.AcceptBefore | gntagger_test.go:96-100 | the test loop accepts exactly the names before the edge; every other field of every name (string, kind, odds, offsets) is unchanged |
| Scenarios.IsDoubtfulExamples | gntagger_test.go:53-67 | odds above OddsHigh are not doubtful, odds 10 are, odds 0 are not |
| Scenarios.VenusScenario | gntagger_test.go:89-119 | NotName on the first Venus reaches the two later ones but not Mollusca; Accepted on the second sends the third back to Doubtful |
| Scenarios.GastropodaScenario | gntagger_test.go:121-141 | Accepted on the first Gastropoda reaches the last name; NotName afterwards sends it back to NotAssigned; Mollusca is never touched |
| Scenarios.GastropodaRoundTrip | gntagger_test.go:121-141 | the accept-then-reject sequence leaves every other test name as loaded |
| Viewport.Window | termui/gui.go:416 | the window is (maxY-2)/4/2 with Go's truncation, 0 for panes under 10 rows |
| Viewport.NamesSliceOf | termui/gui.go:419-432 | the slice is in bounds, contains the cursor, spans at most 2w+1 names (exactly that away from the ends), and puts the current name's line on row centerOffset+1 whatever the cursor |
| Viewport.TextWindowOf | termui/gui.go:362-396 | the shown range contains the name; the backward scan counts at most centerOffset+1 newlines and stops early only at the start of the text; padding plus counted newlines puts the name on row centerOffset+1; the forward scan counts at most maxY/2-1 newlines |
| Viewport.ScanBack | termui/gui.go:363-370 | the backward scan stops before the name, counts the newlines it passed, never more than centerOffset+1, and stops early only at the start of the text |
| Viewport.ScanForward | termui/gui.go:372-378 | the forward scan stops after the name, counts the newlines it passed, and stops before the end of the text only after maxY/2-1 of them |
| Curation.Tick | termui/gui.go:406-412 | the autosave counter stays below 30 and drops to 0 exactly on the 30th render |
| Curation.KeyAnnotation | termui/gui.go:250-273 | each of Space, `y`, `s`, `g`, `u` sets exactly one verdict (NotName, Accepted, Species, Genus, Uninomial), each verdict comes from only that key, and no other key sets a verdict |
| Curation.Step | termui/gui.go:305-309 | the step is 0 or 1, never leaves the list, and is 0 only on the last name or a Doubtful one |
| Curation.ForwardAsWritten | termui/gui.go:305-324 | as written the cursor only moves forward, past decided names only, and can reach one past the last index, but only in express mode |
| Curation.SkipDecided | termui/gui.go:312-324 | the express loop passes only decided names and stops on the first undecided one or at the end |
| Curation.Forward | termui/gui.go:305-324 | the corrected cursor is always a valid index |
| Curation.ForwardMoves | termui/gui.go:305-324 | the corrected move never goes back; it stays on the last name and on a Doubtful one; it steps one without express; in express mode it passes only decided names and stops on an undecided one or the last |
| Curation.ForwardAsWrittenOverruns | termui/gui.go:312-324 | as written, express mode leaves the cursor at the number of names exactly when every later name is decided |
| Curation.ForwardOverrunExample | termui/gui.go:312-324 | two accepted names with the cursor on the first: the cursor lands on index 2 |
| Curation.SkipReachesEnd | termui/gui.go:312-324 | over decided names only, the express loop reaches the end |
| Curation.Mark | termui/gui.go:472-483 | one occurrence raises exactly the flags its verdict and its odds call for, and never lowers one |
| Curation.Aggregate | termui/gui.go:461-484 | every reviewed name string has a word state |
| Curation.AggregateKeys | termui/gui.go:461-471 | the word states have one entry per distinct name string of the reviewed names |
| Curation.AggregateFlag | termui/gui.go:461-484 | a word's flag is set iff some reviewed occurrence of that word raises it |
| Curation.Session.constructor | termui/gui.go:36-47 | a loaded session: cursor where the names left it, nothing reviewed, counters zero |
| Curation.Session.UpdateAnnotations | gntagger_test.go:84-87 | the loop leaves the array equal to the propagation rule applied to the old array |
| Curation.Session.Save | termui/gui.go:245-248 | the saved snapshot becomes the current names and cursor |
| Curation.Session.RenderNamesView | termui/gui.go:400-450 | the counter ticks and the names are saved on the 30th render; the centre offset is fixed by the pane height; the slice holds the cursor |
| Curation.Session.RenderTextView | termui/gui.go:353-398 | the shown range contains the current name, whose line lands on row centerOffset+1, in the colour of its verdict |
| Curation.Session.SetKey | termui/gui.go:276-288 | the verdict is applied by the propagation rule with the furthest reviewed name as edge; both panes are redrawn and the name's line is on the same row in both |
| Curation.Session.ListForward | termui/gui.go:290-336 | a NotAssigned name is accepted first (the counter then ticks twice); the cursor moves as `Forward` says; the furthest reviewed name becomes the maximum of the old one and the cursor; the panes line up |
| Curation.Session.MoveForward | termui/gui.go:305-328 | the cursor move and the update of the furthest reviewed name, nothing else |
| Curation.Session.NextName | termui/gui.go:305-324 | the step and express skip compute `Forward` |
| Curation.Session.ExpressTarget | termui/gui.go:312-324 | the loop ends on the first undecided name from its start, clamped to the last index |
| Curation.Session.ListBack | termui/gui.go:338-351 | at index 0 nothing at all changes (cursor, counter, centre offset, saved snapshot); otherwise the cursor moves back by one, the names pane is redrawn (counter ticked, snapshot saved on the 30th render, centre offset set) and verdicts and the furthest reviewed name stay |
| Curation.Session.ToggleExpress | termui/gui.go:225-236 | express mode flips; cursor, furthest reviewed name, counter, centre offset and saved snapshot are unchanged |
| Curation.Session.WordStates | termui/gui.go:461-484 | the loop builds the word states of names 0 to the furthest reviewed one |
| Curation.Session.RenderStats | termui/gui.go:452-498 | the counters are the sizes of the word sets each counter selects; the line shows zeros when nothing was counted, and otherwise the ratios and the percentages reconciled with the raw-rate key, as written |
| Apportionment.Truncs | termui/stats.go:51-61 | each bucket starts at its truncated percentage |
| Apportionment.TruncBounds | termui/stats.go:56 | the truncated percentage is the floor of 100·count/total |
| Apportionment.TruncDeficit | termui/stats.go:58-70 | with total equal to the sum of the counts, the truncated percentages sum to between 97 and 100 |
| Apportionment.PickBucket | termui/stats.go:71-86 | the pick is -1 iff every bucket was already raised; otherwise it is an unraised bucket that beats every other unraised one (a larger key, or an equal key and an earlier position) |
| Apportionment.Reconcile | termui/stats.go:63-88 | with total equal to the sum of the counts, the loop ends; the percents sum to 100, no bucket is raised twice, and the raised buckets are the top ones by key with ties to the earlier bucket |
| Apportionment.ApportionedUnique | termui/stats.go:63-88 | exactly one result satisfies those conditions |
| Apportionment.ApportionedNearQuota | termui/stats.go:51-88 | each percentage is within one point of the exact 100·count/total |
| Apportionment.LargestRemainder | termui/stats.go:71-86 | with the percentage key, a raised bucket's remainder is at least an unraised one's |
| Apportionment.ThirdsExample | termui/stats.go:51-88 | counts 1,1,1,0 give 34,33,33,0 under either key |
| Apportionment.RawRateMisrounds | termui/stats.go:80-85 | as written, counts 4,1,1,2 give 51,12,12,25, so an exact 50% is shown as 51% |
| Apportionment.LargestRemainderRounds | termui/stats.go:80-85 | with the percentage key the same counts give 50,13,12,25 |
| TermStats.Precision | termui/stats.go:34-38 | None iff the denominator is 0; otherwise a ratio in [0,1] whose product with the denominator is the accepted count |
| TermStats.Recall | termui/stats.go:40-44 | likewise for accepted over accepted plus added |
| Basics.NatToStringValue | termui/stats.go:108-111 | the decimal text `%d` prints denotes the number and has no leading zero |
| TermStats.Percent3 | termui/stats.go:108-111 | `%3d%%` of 0..999 is the decimal text of n right-aligned in three columns, padded with spaces, then '%' |
| TermStats.Stats.constructor | termui/gui.go:453 | a fresh record is all zeros |
| TermStats.Stats.UpdateStats | termui/gui.go:500-522 | each counter grows by the number of words it selects, and the total stays the sum of the counters |
| TermStats.CountWords | termui/gui.go:500-522 | the loop over the word states counts exactly the words each counter selects |
| TermStats.CountStep | termui/gui.go:501-520 | visiting one more word adds one to a counter iff the word lands in it |
| TermStats.CountersDisjointFromAdded | termui/gui.go:502-519 | a doubtful word lands only in "added"; all four selections are words of the map |
| TermStats.Stats.CalculatePercentage | termui/stats.go:46-89 | no change without counts; otherwise the percents are the apportionment of the counts ranked by the raw-rate key, as written (counts 4,1,1,2 give 51,12,12,25) |
| TermStats.Tally | termui/gui.go:453-491 | a fresh record counts exactly the words each counter selects, and the line is formatted from those counts and their percents apportioned with the raw-rate key |
| TermStats.Stats.Format | termui/stats.go:91-132 | "0.00" and "  0%" everywhere without counts; otherwise precision, recall and the percents reconciled with the raw-rate key |
| AdjustedStats.Precision | stats.go:30-32 | None without a total; otherwise the value times the total is the total minus the rejections, and it lies in [0,1] |
| AdjustedStats.Percent | stats.go:94-96 | `%d%%` is the decimal number followed by '%' |
| AdjustedStats.Stats.constructor | stats.go:17-28 | the counters are as given, the total is their sum, the percents are zero |
| AdjustedStats.Stats.AdjustPercentsTo100 | stats.go:34-76 | no change without counts; otherwise the percents are the apportionment of the counts ranked by the raw-rate key, as written |
| AdjustedStats.Stats.Format | stats.go:78-117 | "n/a" everywhere without counts; otherwise precision and three percents reconciled with the raw-rate key; recall and additions are always "n/a" |
| RateStats.Rate | Stats.go:12-31 | 0 without a total; otherwise the largest r with r·total ≤ 100·count |
| RateStats.AddedRate | Stats.go:33-38 | 0 iff the total is 0, else the placeholder -1 |
| RateStats.Precision | Stats.go:40-45 | 0 without a total; otherwise the value times the total is the rejections |
| RateStats.Recall | Stats.go:47-52 | 0 iff the total is 0, else the placeholder -1 |
| RateStats.RatesAreTruncations | Stats.go:12-31 | the three rates are the truncated percentages the later revisions start from; with the added share they sum to between 97 and 100 |
| TextPrep.Printable | text.go:147-165 | the filtered text is no longer than the input, and every rune in it is kept |
| TextPrep.PrintableBytes | text.go:147-165 | the loop computes the filter |
| TextPrep.PrintableKeepsKept | text.go:160-162 | a text of kept runes passes unchanged |
| TextPrep.PrintableIdempotent | text.go:147-165 | filtering twice changes nothing |
| TextPrep.PrintableAppend | text.go:152-163 | the filter works rune by rune, so it distributes over concatenation |
| TextPrep.WrapOf | text.go:167-218 | the wrapped text always ends with the rune 0 written at the end of input |
| TextPrep.Separate | text.go:191-211 | a separator writes an optional newline (only before a non-empty word that does not fit), the held word and itself; an original newline resets the column |
| TextPrep.Wrap | text.go:167-218 | the loop computes `WrapOf` |
| TextPrep.WrapOnlyInsertsNewlines | text.go:179-216 | the output is the input followed by the rune 0, with only newline runes inserted |
| TextPrep.RunInserts | text.go:179-216 | after any prefix, the held word ends the input and the written text is the rest with newlines inserted |
| TextPrep.FeedHolds | text.go:190-215 | one more rune keeps that invariant |
| TextPrep.SeparateHolds | text.go:191-211 | a separator keeps it and leaves nothing held |
| TextPrep.WordHolds | text.go:212-214 | a word rune keeps it with the rune held |
| TextPrep.SeparateInserts | text.go:191-211 | a separator writes the held word and itself after at most one inserted newline |
| TextPrep.InsertedAppend | text.go:205-210 | appending the same runes to both sides keeps "only newlines inserted" |
| TextPrep.InsertedNewline | text.go:195 | an extra newline keeps "only newlines inserted" |
| TextPrep.WrapDefaultWidth | text.go:168-170 | a non-positive width wraps like width 5 |
| TextPrep.WrapExample | text.go:190-211 | "ab cd" at width 3 is "ab \ncd" then the rune 0 |
| TextPrep.WrapLongWord | text.go:192-197 | "a bcd" at width 2 is "a \nbcd" then the rune 0: a word longer than the width is never split |
| TextPrep.WriteWord | text.go:191-211 | the separator branch of the loop performs `Separate` on the column, text and held word |
| TextPrep.RunSnoc | text.go:179-216 | feeding one more rune is one more step of the loop |
| TextPrep.FeedWordRune | text.go:212-214 | a rune that is not white space joins the held word and writes nothing |
| TextPrep.RunWord | text.go:212-214 | a run of such runes only lengthens the held word |
| TextPrep.RunTwoWords | text.go:190-215 | a word, a separator and a word leave the first word written by `Separate` and the second held |
| WrapScenario.RunOutGrows | text.go:179-216 | reading more input only appends to what has been written |
| WrapScenario.WordStep | text.go:190-215 | a word and the separator after it, read with no word held, are handled by one `Separate` step with that word held |
| WrapScenario.FitStep | text.go:191-211 | a word that fits on the line is copied with its space, and the column moves past both |
| WrapScenario.FitWords | text.go:190-215 | words that all fit on the line are copied unchanged, and the column moves past them |
| WrapScenario.BreakStep | text.go:192-197 | a word that reaches the width gets a newline before it, and the column restarts after it |
| WrapScenario.LineEndStep | text.go:198-203 | a word that fits, ended by a newline, is copied, and the column restarts at 0 |
| WrapScenario.FirstLine | private_test.go:12-20 | "This is a text that has English " fits on the first line at width 35 |
| WrapScenario.SecondLine | private_test.go:12-21 | "and" does not fit: a newline is inserted before it, and the newline after "Russian." ends the second line |
| WrapScenario.ThirdLine | private_test.go:13-22 | "Например, мы вводим большое " fits on the third line |
| WrapScenario.WrapWidth35 | private_test.go:12-23 | the test's text wrapped at width 35 begins with the 73 runes "This is a text that has English \n", "and Russian.\n", "Например, мы вводим большое" |
| TextPrep.SplitPath | text.go:224 | the two parts concatenate to the path, the file part holds no '/', and the directory part ends in '/' |
| TextPrep.PreparePath | text.go:220-227 | "" gives "./gntagger_input"; any other path gets "_gntagger" appended, the split and the join cancelling out |
| TextPrep.SplitPathOf | text.go:224 | splitting a directory followed by a bare file name gives back the two |
| TextPrep.PreparePathExample | gntagger_test.go:17-21 | "testdata/seashells_book.txt" gives "testdata/seashells_book.txt_gntagger" |
| TextPrep.Text.constructor | text.go:70-90 | the path is prepared, the metadata recorded, the file table installed |
| TextPrep.Text.FilePath | text.go:125-127 | the path starts with the output directory and ends with the file's name, with one '/' between them when the directory does not already end in one |
| TextPrep.Text.Process | text.go:115-122 | the processed text is the filtered input wrapped at the width, or at 100 on Windows |
| TextPrep.Text.AddError | text.go:103-111 | an error is stored only when no error with the same digest is stored |
| TextPrep.Text.Errors | text.go:94-100 | one entry per stored error, and exactly the stored messages |
| TextPrep.CollectDistinct | text.go:103-111 | with a digest that tells messages apart, a run of `AddError` keeps each distinct message exactly once |
| Staleness.Warning | file_creator.go:18-26 | no warning without an earlier checksum or with an unchanged checksum and version; a changed input wins over a changed version; both messages end in the backup notice |
| Staleness.Prompt | file_creator.go:43-47 | the printed text starts with the warning and ends with the newline `Println` adds |
| Staleness.Rename | file_creator.go:36 | the contents move to the new path, the old path disappears, nothing else changes |
| Staleness.JoinPathInjective | text.go:125-127 | joining one directory with two names gives one path only if the names are equal |
| Staleness.PathsDistinct | file_creator.go:34-35 | with the table of `NewText` the three sources and the three backup paths are six different paths |
| Staleness.MoveStep | file_creator.go:34-40 | one rename keeps the backup invariant with one more file done |
| Staleness.MoveOldFiles | file_creator.go:33-41 | the run fails iff a file of the table is missing; otherwise every file sits at `<dir>/<timestamp>_<file>`, no source remains, and no other path changed |
| Staleness.PreviousMeta | file_creator.go:49-69 | the empty record when any file of the table is missing; otherwise the decoded meta file |
| Staleness.ShowWarningIfPreviousData | file_creator.go:17-31 | no earlier data means no warning and no renames; an earlier run with the same checksum and version also gives none; otherwise the warning is shown and all three files are backed up under the old timestamp |

## Left out

- The gocui drawing: windows, layout, key bindings as such, the `Fprint` calls, the clipboard copy, and the "+40 invisible characters" padding of the statistics line. The model keeps what rendering computes: the names slice, the text window, the colour and the statistics line.
- The root gui.go prototype, the command-line entry points and `NewNames` (the name finder itself).
- File I/O and JSON: `Names.Save` becomes a snapshot in the session, and the meta file's decoding is a parameter. SHA-1, `time.Now`, `unicode.IsPrint`, `%.2f` and `math.Log10` formatting are parameters, and `runtime.GOOS` is a boolean parameter.
- Floating point: rates and ratios are exact reals or integer divisions. float32 rounding can differ at exact percentage boundaries. NaN and infinities from a zero denominator are `None`.
- UTF-8 decoding: texts are sequences of runes. Invalid bytes, which Go reads as U+FFFD, are not modelled.
- WrapScenario.WrapWidth35: the test compares the first 96 bytes of the UTF-8 output. Over runes the same prefix is 73 runes, the 23 Cyrillic letters taking two bytes each.
- `filepath.Clean`: `JoinPath` and `SplitPath` do not remove "." or ".." elements or doubled separators.
- The session stores typed annotations, not strings. So the error path of `listForward`, `renderTextView` and `renderStats` for an unknown annotation string cannot arise. `LegacyNames.NameStrings` keeps that path.
- The implementing file of `UpdateAnnotations` is not part of this model. Its rule is the one stated above, and how close to the edge a name must be is the `lookBack` parameter.
- Curation.Session.RenderTextView: the newlines counted before the name are stated only as a bound, `before <= centerOffset + 1`. The exact count over the scanned text is stated by Viewport.TextWindowOf, which it calls.
- Curation.Session.RenderNamesView: it does not call `RenderStats`, which changes no session state. The two are separate methods.
- Curation.Session.ListForward: what the autosave writes inside the call is not stated.
- Curation.Session.ListForward, Curation.Session.NextName, Curation.Session.ExpressTarget: they model the corrected express skip, which stops on the last name. As written the loop can move the cursor to the length of the list and later lookups index past the end; that behaviour is modelled by Curation.ForwardAsWritten (see Findings).
- Occurrences.IsDoubtful: `OddsLow`, described in gntagger.go as the lower limit for doubtful names, is not used by the program's test, and not by the model.
- Curation.Session.UpdateAnnotations: the tests' direct assignments of `Meta.CurrentName` have no session method. The scenarios are therefore replayed on the propagation rule in `Scenarios`.
- AdjustedStats.Stats.AdjustPercentsTo100 and TermStats.Stats.CalculatePercentage: both require the total to be the sum of the four counters. `updateStats` always keeps this, and without it the Go loop can index with -1 or fail to stop.
- Staleness.MoveOldFiles, Staleness.PreviousMeta, Staleness.ShowWarningIfPreviousData: they require the file table of `NewText`, the only table a `Text` is built with. A `log.Panic` is the `None` result.
- The `WordState` record of stats.go is declared but no operation of that revision uses it.

## Findings

| source | as written | input that shows it | evidently intended | confidence | as-written member | corrected member |
|---|---|---|---|---|---|---|
| termui/gui.go:312-324 | the express loop advances `CurrentName` past every decided name with no upper bound | two Accepted names, cursor on the first, express on: the cursor becomes 2, one past the last index, and the next `GetCurrentName` is out of range | stop on the last name | not executed | Curation.ForwardAsWrittenOverruns, Curation.ForwardOverrunExample | Curation.Forward, Curation.ForwardMoves |
| termui/stats.go:80-85 (also stats.go:68-72) | the bucket to bump is ranked by the fractional part of the raw rate count/total, which is just the rate itself | counts 4,1,1,2 of 8: the percents become 51,12,12,25, so an exact 50% is shown as 51% | rank by the fractional part of the percentage 100·count/total (largest remainder) | not executed | Apportionment.RawRateMisrounds | Apportionment.LargestRemainderRounds, Apportionment.Reconcile with the percentage key |
