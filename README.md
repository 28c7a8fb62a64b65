# go-timertxt in Dafny

A model of the core of `go-timertxt`, a Go library for `timer.txt` files. A timer.txt file is a
plain-text time log with one entry per line:

```
[x <finish> ]<start> <notes> @context... +project... key:value...
```

The model covers three Go files:

- `timer.go` holds one entry (`Timer`). `String` writes its line, `ParseTimer` reads a line back,
  `Finish` and `Reopen` change its state, and `Duration`, `ActiveOnDay`, `HasContext` and
  `HasProject` answer queries about it.
- `timerlist.go` holds the list (`TimerList`): filtering, the text of the whole list, adding,
  looking up and removing entries, and the line loop that loads a file.
- `sort.go` holds the five sort orders, the date comparator behind them and the in-place sort.

The Dafny modules follow that structure:

| module | file | contents |
|---|---|---|
| `Wrappers` | wrappers.dfy | `Option`, `Result`, `Outcome` |
| `Strings` | strings.dfy | the parts of Go's `strings` package the core uses: `Fields`, `Trim`, `Split`, `Join`, `HasPrefix`, `TrimPrefix` |
| `StringOrder` | string_order.dfy | `sort.Strings`: byte-wise order, a sorting function and sorted key lists of a map |
| `Timestamps` | timestamps.dfy | `time.Time` as a count of seconds: zero value, `Before`, `After`, the calendar day, and the layout that `Format` writes and `Parse` reads |
| `Timers` | timer.dfy | the `Timer` datatype, `String` (a method with loops) and its specification `Text`, `ParseTimer` (a method with a loop) and its specification `Parse`, the transitions and the queries |
| `TimerLaws` | timer_laws.dfy | what the parser does with each word; the round trip `Parse(t.Text())`; what the Go parser does as written; laws of the transitions and queries |
| `Sorting` | sort.dfy | the flags, `sortByDate`, the comparators, an insertion sort on an `array<Timer>` by swaps of neighbours |
| `TimerLists` | timerlist.dfy | the `TimerList` class over a `seq<Timer>` field, and the functions that specify its methods |

How Go constructs are stated in Dafny:

- A `Timer` is a value, as the Go list holds `Timer` structs by value. `Finish(now)` and `Reopen()` return
  the updated entry.
- `TimerList` is a class whose `timers` field the methods reassign.
- Every method that loops (`Timer.String`, `ParseTimer`, `Filter`, `GetTimer`, `RemoveTimer`,
  `LoadFromFile`, ...) is a Dafny method with that loop. It is proved equal to a specification
  function, and the properties are proved about that function.
- The current time is a parameter `now` wherever the Go code calls `time.Now()`.
- `LoadFromFile` takes the file's lines as a sequence of strings.
- Errors are `Result`/`Outcome` values.

Where the code and its description disagree, the model follows the code. The one exception is the
line parser: the model's `Parse` is the corrected parser of the "## Findings" table, and the loader uses
it. `ParseAsWritten` models the Go parser as written. The cases where the code and its description disagree:

- `AddTimer` prepends. It gives the new entry id 1 and leaves the other ids as they are. Its loop
  `t.Id++` (timerlist.go:70-73) increments a copy of each entry, not the entry in the list.
  `PrependRepeatsIds` shows that adding to a loaded list produces two entries with id 1.
- Sorting ascending by a date puts entries with a zero date first (sort.go:65), not last.
- Descending `sortByDate` holds in both directions for two zero dates (sort.go:71). The comparator is then
  not a strict order, so "sorted" is stated with its strict part `StrictLess`. This is proved to be a
  strict weak order.

## Model

| member | source | states |
|---|---|---|
| StringOrder.SortedUnique | timer.go:53 | two sorted sequences of the same strings, counted with multiplicity, are equal |
| StringOrder.SortStringsUnique | timer.go:53-70 | any sorted permutation of the strings is the one `sort.Strings` produces |
| Strings.SplitJoin | timer.go:117 | cutting at a separator the parts that were joined with it, none holding it, gives the parts back |
| Timers.Timer.String | timer.go:42-76 | the line written is the stamps, the notes, then ` @c` for each context, ` +p` for each project and ` k:v` for each tag, each group sorted ascending |
| Timers.AppendPrefixed | timer.go:52-63 | the context (project) loop appends one space-preceded prefixed word per sorted element, in order |
| Timers.AppendGroup | timer.go:52-63 | the context (project) block appends the words of the sorted contexts (projects), and nothing when there are none |
| Timers.CollectKeys | timer.go:66-69 | the key loop collects exactly the keys of the tag map, each once |
| Timers.AppendTags | timer.go:64-74 | the tag block appends ` k:v` for every key of the map in ascending key order |
| Timers.AppendTagWords | timer.go:71-73 | the loop over sorted keys appends ` k:v` per key, in key order |
| Timers.NewTimer | timer.go:79-83 | a new entry is open, starts at `now`, has no finish stamp and no notes, contexts, projects or tags |
| Timers.Timer.Finish | timer.go:138-143 | afterwards the entry is finished; an already finished entry is unchanged; otherwise the finish stamp becomes `now`; no other field changes |
| Timers.Timer.Reopen | timer.go:147-152 | afterwards the entry is open; a finished entry gets the zero finish stamp; an open entry is unchanged; no other field changes |
| Timers.Timer.Duration | timer.go:154-160 | the duration runs from the start to the finish stamp, or to `now` when there is none, in nanoseconds, saturated to the 64-bit range as `Time.Sub` does |
| Timers.Timer.ActiveOnDay | timer.go:166-175 | definition: active when the start or finish stamp falls on the day of `day`, or the start is before `day` and the finish after it |
| Timers.Timer.HasContext | timer.go:177-184 | definition: holds exactly when some context equals the argument |
| Timers.Timer.HasProject | timer.go:186-193 | definition: holds exactly when some project equals the argument |
| Timers.Parse | timer.go:86-128 | a line with no words fails with EmptyLine; a marked line without a valid finish stamp fails with BadFinishDate; a line is accepted exactly when its finish stamp (if marked) and its start stamp are present and parse, and fails with BadStartDate exactly when only the start stamp is missing or bad; a parsed entry has id 0, the trimmed line as original, finished exactly when marked, and the stamps read from the marker-aware positions |
| Timers.ParseRest | timer.go:101-127 | after the stamps, the start stamp must parse (else BadStartDate); the result carries the given flag, finish stamp and original |
| Timers.ParseTimer | timer.go:86-128 | the word loop computes exactly `Parse` |
| Timers.ClassifyWords | timer.go:106-124 | the word loop gathers exactly what `Classify` gathers from the words, from an empty start |
| Timers.ClassifyAsWritten | timer.go:106-124 | the Go loop panics exactly when some word would store a tag in the nil map, and otherwise classifies as `Classify` |
| Timers.ParseAsWritten | timer.go:86-128 | where the Go parser does not panic it returns what `Parse` returns |
| Timestamps.ParseFormat | timer.go:14 | reading back a written stamp gives the same instant, in the one layout used for both |
| Timestamps.MarkerIsNotATime | timer.go:93-96 | the marker `x` is never read as a stamp |
| Timestamps.DayOfMonotone | timer.go:166-170 | a later instant never falls on an earlier day |
| TimerLaws.ClassifyAppend | timer.go:106-124 | the classification loop over two word runs is the loop over the first, then the second |
| TimerLaws.ClassifyGathersContexts | timer.go:107-110 | every `@` word, prefix stripped, becomes a context, in line order |
| TimerLaws.ClassifyGathersProjects | timer.go:111-114 | every `+` word that is not an `@` word, prefix stripped, becomes a project, in line order |
| TimerLaws.ClassifyGathersNotes | timer.go:121-125 | the words with no prefix and no colon become the notes, in line order |
| TimerLaws.ClassifyTagKeys | timer.go:115-120 | a key is stored exactly when some word has that non-empty key before its first colon and a non-empty value |
| TimerLaws.ClassifyTagLast | timer.go:115-120 | the value stored for a key is the value part of the last word that stores that key; later words overwrite earlier ones |
| TimerLaws.ClassifyTagUntouched | timer.go:115-120 | when no word stores a key, its presence and value in the tag map are as before the loop |
| TimerLaws.StepKeepsOtherTag | timer.go:106-124 | a word that does not store a key leaves that key's presence and value alone |
| TimerLaws.MalformedTagDropped | timer.go:115-120 | a colon word with an empty key or value changes nothing |
| TimerLaws.TagValueCutAtSecondColon | timer.go:117-119 | in `k:a:b` only `a` is stored; text after a second colon is dropped |
| TimerLaws.InsertTagsContents | timer.go:115-120 | storing the tags of a key list keeps the earlier keys, adds the listed ones and maps each to its value |
| TimerLaws.InsertAllKeys | timer.go:115-120 | storing every key of a tag map, in any order, into an empty map rebuilds the map |
| TimerLaws.InsertSortedKeys | timer.go:64-74 | storing the keys in the ascending order `String` writes them rebuilds the tag map |
| TimerLaws.ParsedFromBody | timer.go:104-125 | the contexts, projects and notes of a parsed entry are those gathered from the words after the start stamp |
| TimerLaws.ParsedHasContext | timer.go:177-184 | a parsed entry has a context exactly when its line holds the `@` word |
| TimerLaws.ParsedHasProject | timer.go:186-193 | a parsed entry has a project exactly when its line holds the `+` word |
| TimerLaws.WordsOfText | timer.go:42-76 | splitting a written line into words gives the stamp words, the note words, then the annotation words |
| TimerLaws.ClassifyBody | timer.go:106-124 | classifying the words a line holds after its stamps gives back the sorted contexts, sorted projects, the tag map and the note words |
| TimerLaws.ParseText | timer.go:86-128 | parsing the line of a well-formed entry gives the entry back, with id 0, the line as original, and contexts and projects sorted |
| TimerLaws.ParseTextSameEntry | timer.go:42-128 | after writing and reading back, the stamps, flag, notes and tags are equal and the contexts and projects are the same multisets |
| TimerLaws.TextMarksFinished | timer.go:44-49 | a written line starts with `x ` exactly when the entry is finished |
| TimerLaws.FinishedWithoutStampMisread | timer.go:44-49 | a finished entry without a finish stamp is written so that reading it back takes the start stamp for the finish stamp |
| TimerLaws.EmptyLinePanicsAsWritten | timer.go:93 | on a line with no words the Go parser indexes an empty slice; the model returns EmptyLine |
| TimerLaws.BlankLinePanicsAsWritten | timer.go:93 | the line `" "` panics as written and gives EmptyLine in the model |
| TimerLaws.LoneMarkerPanicsAsWritten | timer.go:96 | a line that is only `x` panics as written and gives BadFinishDate in the model |
| TimerLaws.MissingStartPanicsAsWritten | timer.go:101 | `x <finish>` with nothing after it panics as written and gives BadStartDate in the model |
| TimerLaws.TagsPanicAsWritten | timer.go:88 | any line whose parse stores a tag panics as written, because the tag map is nil |
| TimerLaws.NoTagsAgreeAsWritten | timer.go:86-128 | on lines the model accepts that store no tag, the Go parser returns the same entry |
| TimerLaws.TaggedTextPanicsAsWritten | timer.go:119 | the Go parser cannot read back the line of any entry with a tag |
| TimerLaws.TextIsPlain | timer.go:42-76 | a written line is non-empty and its only white space is plain spaces |
| TimerLaws.HeadIsPlain | timer.go:44-50 | the stamp part of a line is non-empty and its only white space is plain spaces |
| TimerLaws.AnnotationTokens | timer.go:52-74 | with space-free contexts and projects and well-formed tags, every annotation word written is a token |
| TimerLaws.NewTimerWellFormed | timer.go:79-83 | a new entry can be written and read back |
| TimerLaws.FinishWellFormed | timer.go:138-143 | finishing at a non-zero time keeps an entry writable and readable |
| TimerLaws.ReopenWellFormed | timer.go:147-152 | reopening keeps an entry writable and readable |
| TimerLaws.FinishIdempotent | timer.go:138-143 | finishing twice is finishing once; the first finish time stays |
| TimerLaws.ReopenIdempotent | timer.go:147-152 | reopening twice is reopening once |
| TimerLaws.ReopenUndoesFinish | timer.go:138-152 | reopening a just-finished open entry restores it |
| TimerLaws.FinishAfterReopen | timer.go:138-152 | reopening and then finishing sets the flag and the finish stamp to `now`, nothing else |
| TimerLaws.DurationFixedOnceStamped | timer.go:154-160 | with a finish stamp the duration does not depend on `now` |
| TimerLaws.SaturateMonotone | timer.go:159 | saturating to the 64-bit range keeps the order |
| TimerLaws.DurationMonotone | timer.go:154-160 | without a finish stamp the duration does not shrink as `now` moves on |
| TimerLaws.ActiveThroughout | timer.go:166-175 | an entry is active on every instant between its start and finish stamps |
| TimerLaws.ActiveWithinDays | timer.go:166-175 | for an entry with start not after finish, an active day lies between the start day and the finish day |
| Sorting.OrderOf | sort.go:20-31 | flags 0 to 4 select the five orders (start and finish flags also give the direction); any other flag is unrecognised |
| Sorting.SortByDate | sort.go:60-72 | definition: with two set dates, `Before` (ascending) or `After` (descending); otherwise ascending holds when the second date is set, descending when it is zero |
| Sorting.Less | sort.go:74-97 | definition: the start and finish orders compare those dates with `SortByDate`; the default order puts an entry without a finish stamp before one with it, and otherwise compares start dates descending |
| Sorting.SortByDateAscending | sort.go:60-66 | ascending: two set dates compare by instant; a zero date comes before a set one; nothing comes before a zero date |
| Sorting.SortByDateDescending | sort.go:67-71 | descending: two set dates compare by instant, later first; a set date comes before a zero one, never after |
| Sorting.DescendingNotIrreflexive | sort.go:71 | descending, two zero dates each come before the other |
| Sorting.AscendingStrictIsLess | sort.go:60-66 | ascending comparators are already strict |
| Sorting.OpenBeforeFinished | sort.go:88-94 | in the default order an entry with no finish stamp comes strictly before one with a finish stamp |
| Sorting.UnfinishedThenStartTies | sort.go:88-97 | entries alike in having a finish stamp compare by start date, descending |
| Sorting.ComparesOneDate | sort.go:74-86 | the start (finish) orders look at the start (finish) dates only |
| Sorting.StrictLessIsRankLess | sort.go:60-97 | the strict part of each comparator is a lexicographic comparison of ranks |
| Sorting.StrictLessNegativelyTransitive | sort.go:60-97 | when neither x before y nor y before z is required, x before z is not either |
| Sorting.StrictLessAsymmetric | sort.go:60-97 | no two entries each come strictly before the other |
| Sorting.SortedOpenFirst | sort.go:88-97 | in a list sorted by the default order, every open entry precedes every finished one |
| Sorting.SortedByStartAscending | sort.go:74-79 | sorted by start ascending: zero start dates first, then set dates in increasing order |
| Sorting.SortedByFinishDescending | sort.go:81-86 | sorted by finish descending: set dates first, later first, zero dates last |
| Sorting.Swap | sort.go:43-45 | exchanges two elements and nothing else |
| Sorting.SortTimers | sort.go:51-58 | the array ends up sorted by the order and is a permutation of what it held |
| Sorting.InsertAt | sort.go:51-58 | moving one entry down into the sorted prefix grows the prefix by one and permutes the array |
| Sorting.InsertStep | sort.go:51-58 | one swap moving the inserted element down keeps the insertion-sort invariant |
| Sorting.InsertDone | sort.go:51-58 | when the inserted element stops, the sorted prefix has grown by one |
| TimerLists.TimerList.constructor | timerlist.go:18-20 | a new list is empty |
| TimerLists.TimerList.Filter | timerlist.go:147-155 | the result is the entries passing the predicate, in list order; the list is not changed |
| TimerLists.TimerList.GetActiveTimers | timerlist.go:47-55 | the result is the entries with no finish stamp, in list order |
| TimerLists.TimerList.GetTimersInRange | timerlist.go:22-33 | the result is the entries with a start or finish stamp strictly inside the range, in list order |
| TimerLists.TimerList.GetTimersWithContext | timerlist.go:35-39 | the result is the entries holding the context, in list order |
| TimerLists.TimerList.GetTimersWithProject | timerlist.go:41-45 | the result is the entries holding the project, in list order |
| TimerLists.TimerList.String | timerlist.go:57-64 | the text is each entry's line followed by a newline, in list order |
| TimerLists.TimerList.AddTimer | timerlist.go:67-78 | the new entry, with id 1, goes in front; the old entries follow unchanged |
| TimerLists.TimerList.GetTimer | timerlist.go:82-89 | finds the first entry with the id; fails with TimerNotFound exactly when none has it |
| TimerLists.TimerList.RemoveTimerById | timerlist.go:93-108 | succeeds exactly when some entry has the id, and then keeps the others in order; otherwise fails with TimerNotFound and changes nothing |
| TimerLists.TimerList.RemoveTimer | timerlist.go:112-127 | succeeds exactly when some entry writes the same line, and then keeps the entries with other lines in order; otherwise fails and changes nothing |
| TimerLists.SomeLineDropped | timerlist.go:112-127 | keeping the entries with other lines drops one exactly when some entry writes the line |
| TimerLists.TimerList.LoadFromFile | timerlist.go:159-181 | the list and outcome are those `Load` computes from the lines |
| TimerLists.TimerList.Sort | sort.go:20-31 | an unknown flag fails and changes nothing; otherwise the list becomes a sorted permutation of itself |
| TimerLists.SelectIsSubsequence | timerlist.go:147-155 | a filtered list is a subsequence of the list |
| TimerLists.SelectCount | timerlist.go:147-155 | a filtered list holds each passing entry as often as the list, and no failing entry |
| TimerLists.SelectMembers | timerlist.go:147-155 | an entry is in the filtered list exactly when it is in the list and passes |
| TimerLists.SelectAppend | timerlist.go:147-155 | filtering a concatenation is concatenating the filtered parts |
| TimerLists.SelectShorter | timerlist.go:93-108 | a pass drops an entry exactly when some entry fails the test, which is when `found` is set |
| TimerLists.SelectAll | timerlist.go:147-155 | a predicate every entry passes keeps the whole list |
| TimerLists.InRangeMeaning | timerlist.go:22-33 | the range closure holds exactly when a start or finish instant lies strictly between the bounds |
| TimerLists.PrependRepeatsIds | timerlist.go:67-78 | adding to a non-empty list numbered 1, 2, ... gives two entries with id 1 |
| TimerLists.LoadFromEntries | timerlist.go:163-168 | loading depends on the lines only through the trimmed non-blank ones |
| TimerLists.LoadFromMeaning | timerlist.go:159-181 | for any line parser: the i-th loaded entry is the parse of the i-th non-blank line with id i+1; loading passes exactly when every such line parses, and otherwise stops with the error of the first that fails |
| TimerLists.LoadMeaning | timerlist.go:159-181 | the same for the real parser, and the loaded ids are 1, 2, ... |
| TimerLists.SpaceLineStopsLoad | timerlist.go:164-172 | the loader's trim keeps plain spaces, so a line of spaces is not skipped, and loading it stops with EmptyLine |
| TimerLists.BlankLineIgnored | timerlist.go:164-168 | a line that is blank after trimming tab, newline and carriage return changes nothing |
| TimerLists.LoadDeterminedByEntries | timerlist.go:159-181 | lines with the same trimmed non-blank lines load the same |
| TimerLists.LoadAllParsed | timerlist.go:159-181 | when every non-blank line parses, loading passes and numbers the entries 1, 2, ... |
| TimerLists.TextTrimmed | timerlist.go:164 | the line of a well-formed entry survives the loader's trim and is not blank |
| TimerLists.ReadsBack | timerlist.go:164-172 | the line of a well-formed entry passes the loader's trim unchanged, is not blank, and parses to the entry read back |
| TimerLists.ReadBackRenumbered | timerlist.go:172 | renumbering a read-back entry is reading it back with the new id |
| TimerLists.LoadParsedLines | timerlist.go:159-181 | for any parser: trimmed non-blank lines that each parse load in full, the i-th with id i+1 |
| TimerLists.LoadMapped | timerlist.go:159-181 | the same for lines computed from values, each parsing to a known entry |
| TimerLists.LoadTexts | timerlist.go:159-181 | loading the lines of well-formed entries passes and gives each entry back with id i+1 |
| TimerLists.NoNewlineInText | timerlist.go:57-64 | the line of a well-formed entry holds no newline, so the list text has one line per entry |
| TimerLists.LoadJoinedLines | timerlist.go:57-64 | joining newline-free lines with a newline after each and cutting the text again loads what the lines load |
| TimerLists.WriteThenLoad | timerlist.go:159-181 | cutting the list's text at its newlines and loading it gives every well-formed entry back, numbered 1, 2, ..., contexts and projects sorted |

## Left out

- File and console I/O: `LoadFromFile` takes the lines; `bufio.Scanner`'s own errors and line-length limit are not modelled.
- `ArchiveTimerToFile`, `WriteToFile`, `WriteToFilename`, `LoadFromFilename` and the package-level wrappers: they only open, write or close files around the modelled operations.
- The clock: `NewTimer`, `Finish` and `Duration` take `now` as a parameter; `ActiveToday` is `ActiveOnDay(now)` and is not separately modelled.
- `Timer.Timer()`: an alias for `String`.
- RFC 3339 (`DateLayout`): a timestamp is a whole number of seconds and its text a signed decimal; time zones, nanoseconds, calendar arithmetic and the "2006/01/02" day layout are abstracted to `DayOf`.
- The regular expressions at timer.go:16-18: the code never uses them.
- Timers.Timer.String: does not sort the caller's `Contexts` and `Projects` slices in place, which `sort.Strings` does in Go; the model is a value.
- Timers.Timer.Finish: returns the updated entry instead of changing it through a pointer; likewise `Reopen`.
- Timers.Timer.HasContext: stated as membership, not with its loop; likewise `HasProject`.
- Sorting.SortTimers: is an insertion sort, not `sort.Sort`'s algorithm, so the order among entries the comparator ties is not the Go order.
- TimerLists.TimerList.Filter: returns a sequence, not a pointer to a new list; likewise the `GetTimers...` queries.
- TimerLists.TimerList.GetTimer: returns the position of the entry, not a pointer into the list.
- TimerLists.TimerList.AddTimer: does not set the caller's `Id` field through the pointer.
- TimerLists.TimerList.RemoveTimer: compares by the line `Text` the entry writes, whose sorting side effect on the caller is left out.
- TimerLists.TimerList.LoadFromFile: the loader is modelled with the corrected parser `Parse`, not `ParseAsWritten`. The Go loader panics on every non-blank line that stores a tag, and on a line of plain spaces, because its trim cutset (timerlist.go:164) holds no space, so that line reaches timer.go:93. On such lines the model loads the tagged entry, or stops with `EmptyLine`. `Load`, `WriteThenLoad` and the other load lemmas are stated for the corrected loader.
- Ids are unbounded integers; Go's `int` cannot overflow in practice here.

## Findings

| source | as written | input that shows it | evidently intended | confidence | as-written member | corrected member |
|---|---|---|---|---|---|---|
| timer.go:93 | `originalParts[0]` is read without checking that the line has a word | `" "` | an error for a blank line | high, not executed | TimerLaws.BlankLinePanicsAsWritten | Timers.Parse |
| timer.go:96 | `originalParts[1]` is read without checking that the marker has a successor | `"x"` | the "failed to parse FinishDate" error | high, not executed | TimerLaws.LoneMarkerPanicsAsWritten | Timers.Parse |
| timer.go:101 | after the finish stamp, `originalParts[0]` is read from a possibly empty slice | `"x 2019-02-15T10:00:00-06:00"` | the "Unable to parse StartDate" error | high, not executed | TimerLaws.MissingStartPanicsAsWritten | Timers.Parse |
| timer.go:119 | a tag is stored in `AdditionalTags`, which `Timer{}` leaves nil, so the write panics | `"2019-02-15T06:00:00-06:00 due:today"` | the tag is stored in a fresh map | high, not executed | TimerLaws.TagsPanicAsWritten | TimerLaws.ParseText |
