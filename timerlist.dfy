/**
 * The list operations of timerlist.go: a `TimerList` is an ordered sequence of
 * entries that the methods filter, search, grow, shrink, write out, load and sort.
 */
module TimerLists {
  import opened Wrappers
  import opened Strings
  import opened StringOrder
  import opened Timers
  import opened TimerLaws
  import T = Timestamps
  import S = Sorting

  /** Why a list operation fails. */
  datatype ListError = TimerNotFound | UnrecognizedSortOption

  // ---------------------------------------------------------------------------
  // Selecting entries
  // ---------------------------------------------------------------------------

  /** The entries of `s` satisfying `p`, in their order in `s`. */
  function Select<X>(s: seq<X>, p: X -> bool): seq<X>
    decreases |s|
  {
    if s == [] then [] else (if p(s[0]) then [s[0]] else []) + Select(s[1..], p)
  }

  /** `r` is `s` with some entries left out. */
  predicate IsSubsequence<X(==)>(r: seq<X>, s: seq<X>)
    decreases |s|
  {
    r == [] || (s != [] && ((r[0] == s[0] && IsSubsequence(r[1..], s[1..])) || IsSubsequence(r, s[1..])))
  }

  lemma {:induction false} SelectAppend<X>(a: seq<X>, b: seq<X>, p: X -> bool)
    ensures Select(a + b, p) == Select(a, p) + Select(b, p)
    decreases |a|
  {
    if a == [] {
      assert a + b == b;
    } else {
      var ab := a + b;
      var h := if p(a[0]) then [a[0]] else [];
      calc {
        Select(ab, p);
        { assert ab[0] == a[0] && ab[1..] == a[1..] + b; }
        h + Select(a[1..] + b, p);
        { SelectAppend(a[1..], b, p); }
        h + (Select(a[1..], p) + Select(b, p));
        { AppendAssoc(h, Select(a[1..], p), Select(b, p)); }
        h + Select(a[1..], p) + Select(b, p);
      }
    }
  }

  lemma SelectSnoc<X>(a: seq<X>, x: X, p: X -> bool)
    ensures Select(a + [x], p) == Select(a, p) + (if p(x) then [x] else [])
  {
    SelectAppend(a, [x], p);
    assert Select([x], p) == (if p(x) then [x] else []) + Select([], p);
  }

  /** The selection keeps the order of the list. */
  lemma {:induction false} SelectIsSubsequence<X>(s: seq<X>, p: X -> bool)
    ensures IsSubsequence(Select(s, p), s)
    decreases |s|
  {
    if s != [] {
      SelectIsSubsequence(s[1..], p);
      var r := Select(s, p);
      if p(s[0]) {
        assert r == [s[0]] + Select(s[1..], p);
        assert r[0] == s[0] && r[1..] == Select(s[1..], p);
      } else {
        assert r == Select(s[1..], p);
      }
    }
  }

  /** The selection holds every entry satisfying `p` as often as the list does, and nothing else. */
  lemma {:induction false} SelectCount<X>(s: seq<X>, p: X -> bool, x: X)
    ensures multiset(Select(s, p))[x] == if p(x) then multiset(s)[x] else 0
    decreases |s|
  {
    if s != [] {
      SelectCount(s[1..], p, x);
      assert s == [s[0]] + s[1..];
    }
  }

  lemma SelectMembers<X>(s: seq<X>, p: X -> bool, x: X)
    ensures x in Select(s, p) <==> x in s && p(x)
  {
    SelectCount(s, p, x);
    assert x in Select(s, p) <==> x in multiset(Select(s, p));
    assert x in s <==> x in multiset(s);
  }

  lemma TakeOneMore<X>(s: seq<X>, i: int)
    requires 0 <= i < |s|
    ensures s[..i + 1] == s[..i] + [s[i]]
  {
  }

  /** The selection is shorter than the list exactly when some entry fails `p`. */
  lemma {:induction false} SelectShorter<X>(s: seq<X>, p: X -> bool)
    ensures |Select(s, p)| <= |s|
    ensures |Select(s, p)| < |s| <==> exists k :: 0 <= k < |s| && !p(s[k])
    decreases |s|
  {
    if s != [] {
      SelectShorter(s[1..], p);
      if exists k :: 0 <= k < |s[1..]| && !p(s[1..][k]) {
        var k :| 0 <= k < |s[1..]| && !p(s[1..][k]);
        assert !p(s[k + 1]);
      }
      if exists k :: 0 <= k < |s| && !p(s[k]) {
        var k :| 0 <= k < |s| && !p(s[k]);
        if k > 0 {
          assert !p(s[1..][k - 1]);
        }
      }
    }
  }

  /** A selection that every entry passes is the whole list. */
  lemma {:induction false} SelectAll<X>(s: seq<X>, p: X -> bool)
    requires forall i :: 0 <= i < |s| ==> p(s[i])
    ensures Select(s, p) == s
    decreases |s|
  {
    if s != [] {
      SelectAll(s[1..], p);
      assert s == [s[0]] + s[1..];
    }
  }

  /** The entries without a finish stamp. */
  predicate IsOpen(t: Timer) {
    T.IsZero(t.finishDate)
  }

  /** The closure of `GetTimersInRange`: a start or finish stamp strictly inside the range. */
  function InRange(start: T.Time, end: T.Time): Timer -> bool {
    (t: Timer) => (T.Before(t.startDate, end) && T.After(t.startDate, start))
      || (T.Before(t.finishDate, end) && T.After(t.finishDate, start))
  }

  function WithContext(context: string): Timer -> bool {
    (t: Timer) => t.HasContext(context)
  }

  function WithProject(project: string): Timer -> bool {
    (t: Timer) => t.HasProject(project)
  }

  function IdIsNot(id: int): Timer -> bool {
    (t: Timer) => t.id != id
  }

  /** The filter of `RemoveTimer`: an entry written as a line other than `line`. */
  ghost function LineIsNot(line: string): Timer -> bool {
    (t: Timer) => t.Text() != line
  }

  lemma InRangeMeaning(start: T.Time, end: T.Time, t: Timer)
    ensures InRange(start, end)(t) <==>
      (start.seconds < t.startDate.seconds < end.seconds) || (start.seconds < t.finishDate.seconds < end.seconds)
  {
  }

  // ---------------------------------------------------------------------------
  // Adding, loading and writing
  // ---------------------------------------------------------------------------

  /** The list after `AddTimer`: the new entry with id 1 in front, the old entries untouched. */
  function Prepend(ts: seq<Timer>, t: Timer): (r: seq<Timer>)
    ensures |r| == |ts| + 1 && r[0].id == 1
    ensures r[0] == t.(id := 1) && r[1..] == ts
  {
    [t.(id := 1)] + ts
  }

  /** Ids 1, 2, ... in list order, as loading assigns them. */
  predicate IdsSequential(ts: seq<Timer>) {
    forall i :: 0 <= i < |ts| ==> ts[i].id == i + 1
  }

  /** Adding to a loaded, non-empty list gives two entries with id 1. */
  lemma PrependRepeatsIds(ts: seq<Timer>, t: Timer)
    requires IdsSequential(ts) && ts != []
    ensures Prepend(ts, t)[0].id == Prepend(ts, t)[1].id == 1
    ensures !IdsSequential(Prepend(ts, t))
  {
    assert Prepend(ts, t)[1] == ts[0];
  }

  /** What `LoadFromFile` trims from each line. */
  const LoadCutset: set<char> := {'\t', '\n', '\r'}

  /**
   * The line loop of `LoadFromFile` from some point on: blank lines are skipped,
   * each other line is parsed and appended with the next id, and the first line
   * that does not parse ends the load with what was appended so far.
   */
  function LoadFrom(parse: string -> Result<Timer, ParseError>, lines: seq<string>, nextId: int, acc: seq<Timer>): (seq<Timer>, Outcome<ParseError>)
    decreases |lines|
  {
    if lines == [] then (acc, Pass)
    else
      var text := Trim(lines[0], LoadCutset);
      if text == "" then LoadFrom(parse, lines[1..], nextId, acc)
      else match parse(text) {
        case Err(e) => (acc, Fail(e))
        case Ok(t) => LoadFrom(parse, lines[1..], nextId + 1, acc + [t.(id := nextId)])
      }
  }

  /** `LoadFromFile` over the lines of a file, each read by `ParseTimer`. */
  function Load(lines: seq<string>): (seq<Timer>, Outcome<ParseError>) {
    LoadFrom(Parse, lines, 1, [])
  }

  /** The non-blank lines, trimmed. */
  function Entries(lines: seq<string>): (r: seq<string>)
    ensures forall i :: 0 <= i < |r| ==> r[i] != ""
    decreases |lines|
  {
    if lines == [] then []
    else
      var text := Trim(lines[0], LoadCutset);
      (if text == "" then [] else [text]) + Entries(lines[1..])
  }

  /** Loading from the non-blank lines, already trimmed. */
  function LoadEntries(parse: string -> Result<Timer, ParseError>, es: seq<string>, nextId: int, acc: seq<Timer>): (seq<Timer>, Outcome<ParseError>)
    decreases |es|
  {
    if es == [] then (acc, Pass)
    else match parse(es[0]) {
      case Err(e) => (acc, Fail(e))
      case Ok(t) => LoadEntries(parse, es[1..], nextId + 1, acc + [t.(id := nextId)])
    }
  }

  lemma {:induction false} LoadFromEntries(parse: string -> Result<Timer, ParseError>, lines: seq<string>, nextId: int, acc: seq<Timer>)
    ensures LoadFrom(parse, lines, nextId, acc) == LoadEntries(parse, Entries(lines), nextId, acc)
    decreases |lines|
  {
    if lines != [] {
      var text := Trim(lines[0], LoadCutset);
      var rest := Entries(lines[1..]);
      if text == "" {
        assert Entries(lines) == rest;
        LoadFromEntries(parse, lines[1..], nextId, acc);
      } else {
        var es := [text] + rest;
        assert Entries(lines) == es;
        assert es[0] == text && es[1..] == rest;
        if parse(text).Ok? {
          LoadFromEntries(parse, lines[1..], nextId + 1, acc + [parse(text).value.(id := nextId)]);
        }
      }
    }
  }

  lemma {:induction false} LoadEntriesPrefix(parse: string -> Result<Timer, ParseError>, es: seq<string>, nextId: int, acc: seq<Timer>)
    ensures var r := LoadEntries(parse, es, nextId, acc);
      |acc| <= |r.0| <= |acc| + |es| && r.0[..|acc|] == acc
    decreases |es|
  {
    if es != [] && parse(es[0]).Ok? {
      var acc' := acc + [parse(es[0]).value.(id := nextId)];
      LoadEntriesPrefix(parse, es[1..], nextId + 1, acc');
      var r := LoadEntries(parse, es, nextId, acc);
      assert r.0[..|acc|] == r.0[..|acc'|][..|acc|];
    }
  }

  lemma {:induction false} LoadEntriesAt(parse: string -> Result<Timer, ParseError>, es: seq<string>, nextId: int, acc: seq<Timer>, i: nat)
    requires i < |LoadEntries(parse, es, nextId, acc).0| - |acc| && i < |es|
    ensures parse(es[i]).Ok?
    ensures LoadEntries(parse, es, nextId, acc).0[|acc| + i] == parse(es[i]).value.(id := nextId + i)
    decreases |es|
  {
    LoadEntriesPrefix(parse, es, nextId, acc);
    assert es != [] && parse(es[0]).Ok?;
    var acc' := acc + [parse(es[0]).value.(id := nextId)];
    LoadEntriesPrefix(parse, es[1..], nextId + 1, acc');
    var r := LoadEntries(parse, es, nextId, acc);
    if i == 0 {
      assert r.0[|acc|] == r.0[..|acc'|][|acc|] == acc'[|acc|];
    } else {
      LoadEntriesAt(parse, es[1..], nextId + 1, acc', i - 1);
      assert es[1..][i - 1] == es[i];
    }
  }

  lemma {:induction false} LoadEntriesOutcome(parse: string -> Result<Timer, ParseError>, es: seq<string>, nextId: int, acc: seq<Timer>)
    ensures var r := LoadEntries(parse, es, nextId, acc);
      && (r.1.Pass? <==> |r.0| == |acc| + |es|)
      && (r.1.Fail? ==> |acc| <= |r.0| < |acc| + |es| && parse(es[|r.0| - |acc|]) == Err(r.1.error))
    decreases |es|
  {
    if es != [] && parse(es[0]).Ok? {
      var acc' := acc + [parse(es[0]).value.(id := nextId)];
      LoadEntriesOutcome(parse, es[1..], nextId + 1, acc');
      LoadEntriesPrefix(parse, es[1..], nextId + 1, acc');
      var r := LoadEntries(parse, es, nextId, acc);
      if r.1.Fail? {
        assert es[1..][|r.0| - |acc'|] == es[|r.0| - |acc|];
      }
    }
  }

  lemma LoadFromMeaning(parse: string -> Result<Timer, ParseError>, lines: seq<string>)
    ensures var r := LoadFrom(parse, lines, 1, []); var es := Entries(lines);
      && |r.0| <= |es|
      && (forall i :: 0 <= i < |r.0| ==> parse(es[i]).Ok? && r.0[i] == parse(es[i]).value.(id := i + 1))
      && (r.1.Pass? <==> |r.0| == |es|)
      && (r.1.Fail? ==> |r.0| < |es| && parse(es[|r.0|]) == Err(r.1.error))
  {
    var es := Entries(lines);
    LoadFromEntries(parse, lines, 1, []);
    LoadEntriesPrefix(parse, es, 1, []);
    LoadEntriesOutcome(parse, es, 1, []);
    var r := LoadFrom(parse, lines, 1, []);
    forall i | 0 <= i < |r.0| ensures parse(es[i]).Ok? && r.0[i] == parse(es[i]).value.(id := i + 1) {
      LoadEntriesAt(parse, es, 1, [], i);
    }
  }

  /**
   * Loading parses the non-blank lines in order and numbers them 1, 2, ...;
   * it ends at the first line that does not parse, with the entries before it.
   */
  lemma LoadMeaning(lines: seq<string>)
    ensures var r := Load(lines); var es := Entries(lines);
      && |r.0| <= |es| && IdsSequential(r.0)
      && (forall i :: 0 <= i < |r.0| ==> Parse(es[i]).Ok? && r.0[i] == Parse(es[i]).value.(id := i + 1))
      && (r.1.Pass? <==> |r.0| == |es|)
      && (r.1.Fail? ==> |r.0| < |es| && Parse(es[|r.0|]) == Err(r.1.error))
  {
    LoadFromMeaning(Parse, lines);
  }

  lemma {:induction false} EntriesAppend(a: seq<string>, b: seq<string>)
    ensures Entries(a + b) == Entries(a) + Entries(b)
    decreases |a|
  {
    if a == [] {
      assert a + b == b;
    } else {
      assert (a + b)[1..] == a[1..] + b;
      EntriesAppend(a[1..], b);
    }
  }

  /** The loader's trim keeps plain spaces, so a line of spaces is not skipped: loading stops there with `EmptyLine`. */
  lemma SpaceLineStopsLoad()
    ensures Entries([" "]) == [" "]
    ensures Load([" "]) == ([], Fail(EmptyLine))
  {
    assert Trim(" ", LoadCutset) == " ";
    assert Entries([" "]) == [" "] + Entries([]);
    assert Parse(" ") == Err(EmptyLine) by {
      assert Trim(" ", ParseCutset) == "";
    }
    LoadFromEntries(Parse, [" "], 1, []);
  }

  /** Blank lines consume no id: loading is the same with or without them. */
  lemma BlankLineIgnored(a: seq<string>, blank: string, b: seq<string>)
    requires Trim(blank, LoadCutset) == ""
    ensures Entries(a + [blank] + b) == Entries(a + b)
    ensures Load(a + [blank] + b) == Load(a + b)
  {
    EntriesAppend(a + [blank], b);
    EntriesAppend(a, [blank]);
    EntriesAppend(a, b);
    assert Entries([blank]) == [] + Entries([]);
    assert Entries(a + [blank]) == Entries(a);
    LoadDeterminedByEntries(a + [blank] + b, a + b);
  }

  /** Loading depends only on the non-blank lines. */
  lemma LoadDeterminedByEntries(l1: seq<string>, l2: seq<string>)
    requires Entries(l1) == Entries(l2)
    ensures Load(l1) == Load(l2)
  {
    LoadFromEntries(Parse, l1, 1, []);
    LoadFromEntries(Parse, l2, 1, []);
  }

  /** When every non-blank line parses, loading keeps them all, numbered 1, 2, ... */
  lemma LoadAllParsed(parse: string -> Result<Timer, ParseError>, lines: seq<string>, vs: seq<Timer>)
    requires |Entries(lines)| == |vs|
    requires forall i :: 0 <= i < |vs| ==> parse(Entries(lines)[i]) == Ok(vs[i])
    ensures LoadFrom(parse, lines, 1, []).1 == Pass && |LoadFrom(parse, lines, 1, []).0| == |vs|
    ensures forall i :: 0 <= i < |vs| ==> LoadFrom(parse, lines, 1, []).0[i] == vs[i].(id := i + 1)
  {
    LoadFromMeaning(parse, lines);
    var r := LoadFrom(parse, lines, 1, []);
    var es := Entries(lines);
    assert r.1.Pass?;
    forall i | 0 <= i < |vs| ensures r.0[i] == vs[i].(id := i + 1) {
      assert r.0[i] == parse(es[i]).value.(id := i + 1);
    }
  }

  /** `f` applied to each element of `xs`, in order. */
  function MapSeq<X, Y>(f: X -> Y, xs: seq<X>): (r: seq<Y>)
    ensures |r| == |xs| && forall i :: 0 <= i < |xs| ==> r[i] == f(xs[i])
  {
    seq(|xs|, i requires 0 <= i < |xs| => f(xs[i]))
  }

  lemma MapSeqSnoc<X, Y>(f: X -> Y, xs: seq<X>, x: X)
    ensures MapSeq(f, xs + [x]) == MapSeq(f, xs) + [f(x)]
  {
  }

  /** The line `String` writes for one entry, named so that it can be passed to `MapSeq`. */
  ghost function Line(t: Timer): string {
    t.Text()
  }

  /** The lines of the entries, in order. */
  ghost function Texts(ts: seq<Timer>): (r: seq<string>)
    ensures |r| == |ts| && forall i :: 0 <= i < |ts| ==> r[i] == ts[i].Text()
  {
    MapSeq(Line, ts)
  }

  /** What reading back a written entry gives, as `ParseText` states it, with the id loading assigns. */
  ghost function ReadBack(t: Timer, id: int): Timer {
    t.(id := id, original := Trim(t.Text(), ParseCutset),
       contexts := SortStrings(t.contexts), projects := SortStrings(t.projects))
  }

  lemma PlainTrimmed(s: string)
    requires OnlyPlainSpaces(s)
    ensures Trim(s, LoadCutset) == s
  {
    forall i | 0 <= i < |s| ensures s[i] !in LoadCutset {
      assert s[i] == ' ' || !IsSpace(s[i]);
    }
    TrimNothing(s, LoadCutset);
  }

  /** A written line is not blank, and trimming tabs and line breaks leaves it as it is. */
  lemma TextTrimmed(t: Timer)
    requires t.WellFormed()
    ensures Trim(t.Text(), LoadCutset) == t.Text() != ""
  {
    TextIsPlain(t);
    PlainTrimmed(t.Text());
  }

  /** Lines that are already trimmed and not blank are all entries. */
  lemma {:induction false} EntriesOfTrimmed(lines: seq<string>)
    requires forall i :: 0 <= i < |lines| ==> Trim(lines[i], LoadCutset) == lines[i] != ""
    ensures Entries(lines) == lines
    decreases |lines|
  {
    if lines != [] {
      EntriesOfTrimmed(lines[1..]);
      assert lines == [lines[0]] + lines[1..];
    }
  }

  lemma ReadBackRenumbered(t: Timer, id: int, id': int)
    ensures ReadBack(t, id).(id := id') == ReadBack(t, id')
  {
  }

  /** The line of a well-formed entry passes the loader's trim unchanged and parses back. */
  lemma ReadsBack(t: Timer)
    requires t.WellFormed()
    ensures Trim(t.Text(), LoadCutset) == t.Text() != ""
    ensures Parse(t.Text()) == Ok(ReadBack(t, 0))
  {
    TextTrimmed(t);
    ParseText(t);
  }

  /** Loading trimmed, non-blank lines that all parse gives their parses, numbered 1, 2, ... */
  lemma LoadParsedLines(parse: string -> Result<Timer, ParseError>, lines: seq<string>, vs: seq<Timer>)
    requires |lines| == |vs|
    requires forall i :: 0 <= i < |lines| ==> Trim(lines[i], LoadCutset) == lines[i] != ""
    requires forall i :: 0 <= i < |lines| ==> parse(lines[i]) == Ok(vs[i])
    ensures LoadFrom(parse, lines, 1, []).1 == Pass && |LoadFrom(parse, lines, 1, []).0| == |vs|
    ensures forall i :: 0 <= i < |vs| ==> LoadFrom(parse, lines, 1, []).0[i] == vs[i].(id := i + 1)
  {
    EntriesOfTrimmed(lines);
    LoadAllParsed(parse, lines, vs);
  }

  /** Loading lines computed from values, each of which parses back to a known entry. */
  lemma LoadMapped<X>(parse: string -> Result<Timer, ParseError>, text: X -> string, read: X -> Timer, xs: seq<X>)
    requires forall i :: 0 <= i < |xs| ==> Trim(text(xs[i]), LoadCutset) == text(xs[i]) != ""
    requires forall i :: 0 <= i < |xs| ==> parse(text(xs[i])) == Ok(read(xs[i]))
    ensures LoadFrom(parse, MapSeq(text, xs), 1, []).1 == Pass && |LoadFrom(parse, MapSeq(text, xs), 1, []).0| == |xs|
    ensures forall i :: 0 <= i < |xs| ==> LoadFrom(parse, MapSeq(text, xs), 1, []).0[i] == read(xs[i]).(id := i + 1)
  {
    LoadParsedLines(parse, MapSeq(text, xs), MapSeq(read, xs));
  }

  /** `ReadBack` before loading assigns an id, named so that it can be passed to `LoadMapped`. */
  ghost function ReadBackFresh(t: Timer): Timer {
    ReadBack(t, 0)
  }

  /** Loading the lines `String` writes for well-formed entries reads every entry back, numbered 1, 2, ... */
  lemma LoadTexts(ts: seq<Timer>)
    requires forall i :: 0 <= i < |ts| ==> ts[i].WellFormed()
    ensures Load(Texts(ts)).1 == Pass && |Load(Texts(ts)).0| == |ts|
    ensures forall i :: 0 <= i < |ts| ==> Load(Texts(ts)).0[i] == ReadBack(ts[i], i + 1)
  {
    forall i | 0 <= i < |ts|
      ensures Trim(Line(ts[i]), LoadCutset) == Line(ts[i]) != "" && Parse(Line(ts[i])) == Ok(ReadBackFresh(ts[i]))
    {
      ReadsBack(ts[i]);
    }
    LoadMapped(Parse, Line, ReadBackFresh, ts);
    forall i | 0 <= i < |ts| ensures ReadBackFresh(ts[i]).(id := i + 1) == ReadBack(ts[i], i + 1) {
      ReadBackRenumbered(ts[i], 0, i + 1);
    }
  }


  // ---------------------------------------------------------------------------
  // The list
  // ---------------------------------------------------------------------------

  /** The text of the list: each entry's line followed by a newline, in list order. */
  ghost function ListText(ts: seq<Timer>): string {
    Lines(Texts(ts))
  }

  lemma NoNewlineInText(t: Timer)
    requires t.WellFormed()
    ensures '\n' !in t.Text()
  {
    TextIsPlain(t);
    assert IsSpace('\n');
  }

  /** Joining lines that hold no new line and cutting the text again loads what the lines load. */
  lemma LoadJoinedLines(es: seq<string>)
    requires forall i :: 0 <= i < |es| ==> '\n' !in es[i]
    ensures Load(Split(Lines(es), '\n')) == Load(es)
  {
    assert Entries(es + [""]) == Entries(es) by {
      EntriesAppend(es, [""]);
      assert Entries([""]) == [];
      assert Entries(es) + [] == Entries(es);
    }
    LoadDeterminedByEntries(es + [""], es);
    SplitLines(es);
  }

  /**
   * Writing a list of well-formed entries with `String`, cutting the text at its new lines and loading
   * the lines reads every entry back, numbered 1, 2, ..., with its contexts and projects sorted.
   */
  lemma WriteThenLoad(ts: seq<Timer>)
    requires forall i :: 0 <= i < |ts| ==> ts[i].WellFormed()
    ensures Load(Split(ListText(ts), '\n')).1 == Pass && |Load(Split(ListText(ts), '\n')).0| == |ts|
    ensures forall i :: 0 <= i < |ts| ==> Load(Split(ListText(ts), '\n')).0[i] == ReadBack(ts[i], i + 1)
  {
    var es := Texts(ts);
    forall i | 0 <= i < |es| ensures '\n' !in es[i] {
      NoNewlineInText(ts[i]);
    }
    LoadJoinedLines(es);
    LoadTexts(ts);
  }

  /** Keeping the entries written as some other line drops one exactly when an entry is written as `line`. */
  lemma SomeLineDropped(ts: seq<Timer>, line: string)
    ensures |Select(ts, LineIsNot(line))| < |ts| <==> exists k :: 0 <= k < |ts| && ts[k].Text() == line
  {
    var keep := LineIsNot(line);
    SelectShorter(ts, keep);
    assert forall k :: 0 <= k < |ts| ==> (!keep(ts[k]) <==> ts[k].Text() == line);
  }

  class TimerList {
    var timers: seq<Timer>

    /** `NewTimerList`. */
    constructor ()
      ensures timers == []
    {
      timers := [];
    }

    /** `Filter`: the entries satisfying `p`, in order; the list itself is left alone. */
    method Filter(p: Timer -> bool) returns (r: seq<Timer>)
      ensures r == Select(timers, p)
    {
      r := [];
      for i := 0 to |timers|
        invariant r == Select(timers[..i], p)
      {
        SelectSnoc(timers[..i], timers[i], p);
        assert timers[..i + 1] == timers[..i] + [timers[i]];
        if p(timers[i]) {
          r := r + [timers[i]];
        }
      }
      assert timers[..|timers|] == timers;
    }

    /** `GetActiveTimers`: the entries without a finish stamp, in order. */
    method GetActiveTimers() returns (r: seq<Timer>)
      ensures r == Select(timers, IsOpen)
    {
      r := [];
      for i := 0 to |timers|
        invariant r == Select(timers[..i], IsOpen)
      {
        SelectSnoc(timers[..i], timers[i], IsOpen);
        assert timers[..i + 1] == timers[..i] + [timers[i]];
        if T.IsZero(timers[i].finishDate) {
          r := r + [timers[i]];
        }
      }
      assert timers[..|timers|] == timers;
    }

    /** `GetTimersInRange`: the entries started or finished strictly between `start` and `end`. */
    method GetTimersInRange(start: T.Time, end: T.Time) returns (r: seq<Timer>)
      ensures r == Select(timers, InRange(start, end))
    {
      r := Filter(InRange(start, end));
    }

    /** `GetTimersWithContext`. */
    method GetTimersWithContext(context: string) returns (r: seq<Timer>)
      ensures r == Select(timers, WithContext(context))
    {
      r := Filter(WithContext(context));
    }

    /** `GetTimersWithProject`. */
    method GetTimersWithProject(project: string) returns (r: seq<Timer>)
      ensures r == Select(timers, WithProject(project))
    {
      r := Filter(WithProject(project));
    }

    /** `String`: every entry's line followed by a newline. */
    method String() returns (text: string)
      ensures text == ListText(timers)
    {
      text := "";
      for i := 0 to |timers|
        invariant text == ListText(timers[..i])
      {
        var line := timers[i].String();
        TakeOneMore(timers, i);
        MapSeqSnoc(Line, timers[..i], timers[i]);
        LinesSnoc(Texts(timers[..i]), line);
        text := text + line + "\n";
      }
      assert timers[..|timers|] == timers;
    }

    /** `AddTimer`: the entry goes in front with id 1; the other ids are not changed. */
    method AddTimer(t: Timer)
      modifies this
      ensures timers == Prepend(old(timers), t)
    {
      var added := t.(id := 1);
      var n := |timers|;
      var grown := timers + [NewTimer(T.Zero)];
      var shifted := grown[..1] + grown[..n];
      timers := [added] + shifted[1..];
    }

    /** `GetTimer`: the position of the first entry with this id. */
    method GetTimer(id: int) returns (r: Result<nat, ListError>)
      ensures r.Ok? ==> r.value < |timers| && timers[r.value].id == id
                        && forall k :: 0 <= k < r.value ==> timers[k].id != id
      ensures r.Err? <==> forall k :: 0 <= k < |timers| ==> timers[k].id != id
      ensures r.Err? ==> r.error == TimerNotFound
    {
      for i := 0 to |timers|
        invariant forall k :: 0 <= k < i ==> timers[k].id != id
      {
        if timers[i].id == id {
          return Ok(i);
        }
      }
      return Err(TimerNotFound);
    }

    /** `RemoveTimerById`: drops every entry with this id; fails and changes nothing when there is none. */
    method RemoveTimerById(id: int) returns (r: Outcome<ListError>)
      modifies this
      ensures r.Pass? <==> exists k :: 0 <= k < |old(timers)| && old(timers)[k].id == id
      ensures r.Pass? ==> timers == Select(old(timers), IdIsNot(id))
      ensures r.Fail? ==> r.error == TimerNotFound && timers == old(timers)
    {
      var ts := timers;
      var newList: seq<Timer> := [];
      var found := false;
      for i := 0 to |ts|
        invariant timers == ts
        invariant newList == Select(ts[..i], IdIsNot(id))
        invariant found <==> exists k :: 0 <= k < i && ts[k].id == id
      {
        SelectSnoc(ts[..i], ts[i], IdIsNot(id));
        assert ts[..i + 1] == ts[..i] + [ts[i]];
        if ts[i].id != id {
          newList := newList + [ts[i]];
        } else {
          found := true;
        }
      }
      assert ts[..|ts|] == ts;
      if !found {
        return Fail(TimerNotFound);
      }
      timers := newList;
      return Pass;
    }

    /** `RemoveTimer`: drops every entry written as the same line as `t`; fails and changes nothing when there is none. */
    method RemoveTimer(t: Timer) returns (r: Outcome<ListError>)
      modifies this
      ensures r.Pass? <==> exists k :: 0 <= k < |old(timers)| && old(timers)[k].Text() == t.Text()
      ensures r.Pass? ==> timers == Select(old(timers), LineIsNot(t.Text()))
      ensures r.Fail? ==> r.error == TimerNotFound && timers == old(timers)
    {
      var ts := timers;
      var theirs := t.String();
      ghost var keep := LineIsNot(theirs);
      var newList: seq<Timer> := [];
      var found := false;
      for i := 0 to |ts|
        invariant timers == ts
        invariant newList == Select(ts[..i], keep)
        invariant found <==> |newList| < i
      {
        TakeOneMore(ts, i);
        SelectSnoc(ts[..i], ts[i], keep);
        SelectShorter(ts[..i], keep);
        var mine := ts[i].String();
        assert keep(ts[i]) == (mine != theirs);
        if mine != theirs {
          newList := newList + [ts[i]];
        } else {
          found := true;
        }
      }
      assert ts[..|ts|] == ts;
      SomeLineDropped(ts, theirs);
      if !found {
        return Fail(TimerNotFound);
      }
      timers := newList;
      return Pass;
    }

    /** The line loop of `LoadFromFile`: the list becomes what `Load` reads from the lines. */
    method LoadFromFile(lines: seq<string>) returns (r: Outcome<ParseError>)
      modifies this
      ensures (timers, r) == Load(lines)
    {
      timers := [];
      var timerId := 1;
      var i := 0;
      while i < |lines|
        invariant 0 <= i <= |lines|
        invariant LoadFrom(Parse, lines[i..], timerId, timers) == Load(lines)
      {
        assert lines[i..][1..] == lines[i + 1..];
        var text := Trim(lines[i], LoadCutset);
        if text == "" {
          i := i + 1;
          continue;
        }
        var timer := ParseTimer(text);
        assert timer == Parse(text);
        if timer.Err? {
          return Fail(timer.error);
        }
        timers := timers + [timer.value.(id := timerId)];
        timerId := timerId + 1;
        i := i + 1;
      }
      return Pass;
    }

    /** `Sort`: rearranges the entries by the order a flag selects; an unknown flag fails and changes nothing. */
    method Sort(flag: int) returns (r: Outcome<ListError>)
      modifies this
      ensures S.OrderOf(flag).None? ==> r == Fail(UnrecognizedSortOption) && timers == old(timers)
      ensures S.OrderOf(flag).Some? ==>
        && r == Pass
        && S.Sorted(S.OrderOf(flag).value, timers)
        && multiset(timers) == multiset(old(timers))
    {
      var o := S.OrderOf(flag);
      if o.None? {
        return Fail(UnrecognizedSortOption);
      }
      var s := timers;
      var a := new Timer[|s|](i requires 0 <= i < |s| => s[i]);
      assert a[..] == s;
      S.SortTimers(a, o.value);
      timers := a[..];
      return Pass;
    }
  }
}
