/**
 * One timer.txt entry (timer.go): the record, its line format (`String`),
 * the line parser (`ParseTimer`), the `Finish`/`Reopen` transitions and the
 * derived queries.
 *
 * A line reads `[x <finish> ]<start> <notes> @context... +project... key:value...`.
 */
module Timers {
  import opened Wrappers
  import opened Strings
  import opened StringOrder
  import T = Timestamps

  /** The fields of Go's `Timer` struct. `Projects` and `Contexts` are slices, `AdditionalTags` a map. */
  datatype Timer = Timer(
    id: int,
    original: string,
    startDate: T.Time,
    finishDate: T.Time,
    finished: bool,
    notes: string,
    projects: seq<string>,
    contexts: seq<string>,
    additionalTags: map<string, string>)
  {
    /** The stamps that open the line: `x <finish> ` when finished (the finish stamp only when set), then `<start> `. */
    function Head(): string {
      (if finished then "x " + (if !T.IsZero(finishDate) then T.Format(finishDate) + " " else "") else "")
      + T.Format(startDate) + " "
    }

    /**
     * The line `String` writes: the stamps, the notes, then ` @c` for each context,
     * ` +p` for each project and ` k:v` for each tag, each group in ascending order.
     */
    ghost function Text(): string {
      Head() + notes + Spaced(ContextWords(contexts)) + Spaced(ProjectWords(projects))
      + Spaced(TagWords(additionalTags, SortedSet(additionalTags.Keys)))
    }

    /** `Timer.String`: builds the line piece by piece, sorting contexts, projects and tag keys first. */
    method String() returns (text: string)
      ensures text == Text()
    {
      text := "";
      if finished {
        text := text + "x ";
        if !T.IsZero(finishDate) {
          text := text + T.Format(finishDate) + " ";
        }
      }
      text := text + T.Format(startDate) + " ";
      text := text + notes;
      assert text == Head() + notes;
      text := AppendGroup(text, "@", contexts);
      text := AppendGroup(text, "+", projects);
      text := AppendTags(text, additionalTags);
    }

    /** `Finish`: marks an open timer finished at `now`; a finished timer is left as it is. */
    function Finish(now: T.Time): (r: Timer)
      ensures r.finished
      ensures finished ==> r == this
      ensures !finished ==> r.finishDate == now
      ensures r.(finished := finished, finishDate := finishDate) == this
    {
      if finished then this else this.(finished := true, finishDate := now)
    }

    /** `Reopen`: marks a finished timer open again and clears its finish stamp; an open timer is left as it is. */
    function Reopen(): (r: Timer)
      ensures !r.finished
      ensures finished ==> T.IsZero(r.finishDate)
      ensures !finished ==> r == this
      ensures r.(finished := finished, finishDate := finishDate) == this
    {
      if finished then this.(finished := false, finishDate := T.Zero) else this
    }

    /** `Duration`: nanoseconds from the start to the finish stamp, or to `now` while no finish stamp is set. */
    function Duration(now: T.Time): (d: int)
      ensures MinDuration <= d <= MaxDuration
      ensures var span := (End(now).seconds - startDate.seconds) * NanosPerSecond;
              && (MinDuration <= span <= MaxDuration ==> d == span)
              && (span > MaxDuration ==> d == MaxDuration)
              && (span < MinDuration ==> d == MinDuration)
    {
      Saturate((End(now).seconds - startDate.seconds) * NanosPerSecond)
    }

    /** The instant a duration runs to. */
    function End(now: T.Time): T.Time {
      if T.IsZero(finishDate) then now else finishDate
    }

    /** `ActiveOnDay`: started or finished on the day of `day`, or running across `day`. */
    predicate ActiveOnDay(day: T.Time) {
      T.DayOf(startDate) == T.DayOf(day) || T.DayOf(finishDate) == T.DayOf(day)
      || (T.Before(startDate, day) && T.After(finishDate, day))
    }

    /** `HasContext`: exact membership in the contexts. */
    predicate HasContext(context: string) {
      context in contexts
    }

    /** `HasProject`: exact membership in the projects. */
    predicate HasProject(project: string) {
      project in projects
    }

    /**
     * The entries whose line `Parse` reads back field for field: the finished flag
     * agrees with a set finish stamp, the notes are single-spaced plain words, and
     * contexts, projects and tags are white-space free (tags also colon-free and
     * not starting with `@` or `+`).
     */
    ghost predicate WellFormed() {
      && finished == !T.IsZero(finishDate)
      && NotesOk(notes)
      && (forall i :: 0 <= i < |contexts| ==> SpaceFree(contexts[i]))
      && (forall i :: 0 <= i < |projects| ==> SpaceFree(projects[i]))
      && (forall k :: k in additionalTags ==> TagOk(k, additionalTags[k]))
    }
  }

  const NanosPerSecond: int := 1_000_000_000
  const MinDuration: int := -0x8000_0000_0000_0000
  const MaxDuration: int := 0x7FFF_FFFF_FFFF_FFFF

  /** Go's `Time.Sub` saturates at the bounds of the 64-bit `time.Duration`. */
  function Saturate(n: int): int {
    if n < MinDuration then MinDuration else if n > MaxDuration then MaxDuration else n
  }

  /** `NewTimer`: an empty open timer starting at `now`. */
  function NewTimer(now: T.Time): (t: Timer)
    ensures t.startDate == now && !t.finished && T.IsZero(t.finishDate)
    ensures t.notes == "" && t.contexts == [] && t.projects == [] && t.additionalTags == map[]
  {
    Timer(0, "", now, T.Zero, false, "", [], [], map[])
  }

  /** Each string with a fixed prefix. */
  function Prefixed(p: string, xs: seq<string>): (r: seq<string>)
    ensures |r| == |xs|
    ensures forall i :: 0 <= i < |xs| ==> r[i] == p + xs[i]
  {
    seq(|xs|, i requires 0 <= i < |xs| => p + xs[i])
  }

  /** The `@c` words of the line, contexts sorted. */
  function ContextWords(contexts: seq<string>): seq<string> {
    Prefixed("@", SortStrings(contexts))
  }

  /** The `+p` words of the line, projects sorted. */
  function ProjectWords(projects: seq<string>): seq<string> {
    Prefixed("+", SortStrings(projects))
  }

  /** The `k:v` words for the keys `ks`, in that order. */
  function TagWords(m: map<string, string>, ks: seq<string>): (r: seq<string>)
    requires forall i :: 0 <= i < |ks| ==> ks[i] in m
    ensures |r| == |ks|
    ensures forall i :: 0 <= i < |ks| ==> r[i] == ks[i] + ":" + m[ks[i]]
  {
    seq(|ks|, i requires 0 <= i < |ks| => ks[i] + ":" + m[ks[i]])
  }

  lemma NoWords(p: string, xs: seq<string>)
    requires |xs| == 0
    ensures Prefixed(p, SortStrings(xs)) == []
  {
  }

  lemma NoTagWords(m: map<string, string>)
    requires |m| == 0
    ensures TagWords(m, SortedSet(m.Keys)) == []
  {
    assert m.Keys == {};
  }

  /** A block of `String` that sorts the contexts (or projects) and appends their words, when there are any. */
  method AppendGroup(text: string, prefix: string, xs: seq<string>) returns (r: string)
    ensures r == text + Spaced(Prefixed(prefix, SortStrings(xs)))
  {
    if |xs| > 0 {
      r := AppendPrefixed(text, prefix, SortStrings(xs));
    } else {
      NoWords(prefix, xs);
      r := text;
    }
  }

  /** The loops of `String` that append ` @c` (or ` +p`) for each sorted context (or project). */
  method AppendPrefixed(text: string, prefix: string, sorted: seq<string>) returns (r: string)
    ensures r == text + Spaced(Prefixed(prefix, sorted))
  {
    r := text;
    for i := 0 to |sorted|
      invariant r == text + Spaced(Prefixed(prefix, sorted[..i]))
    {
      assert Prefixed(prefix, sorted[..i + 1]) == Prefixed(prefix, sorted[..i]) + [prefix + sorted[i]];
      SpacedSnoc(Prefixed(prefix, sorted[..i]), prefix + sorted[i]);
      r := r + " " + prefix + sorted[i];
    }
    assert sorted[..|sorted|] == sorted;
  }

  /** The `range` over the map in `String`: the keys, in whatever order the map yields them. */
  method CollectKeys(m: map<string, string>) returns (keys: seq<string>)
    ensures multiset(keys) == multiset(m.Keys)
  {
    keys := [];
    var rest := m.Keys;
    while rest != {}
      invariant rest <= m.Keys
      invariant multiset(keys) + multiset(rest) == multiset(m.Keys)
      decreases |rest|
    {
      var k :| k in rest;
      keys := keys + [k];
      rest := rest - {k};
    }
  }

  /** The last block of `String`: when there are tags, sort their keys and append ` k:v` for each. */
  method AppendTags(text: string, m: map<string, string>) returns (r: string)
    ensures r == text + Spaced(TagWords(m, SortedSet(m.Keys)))
  {
    if |m| > 0 {
      var collected := CollectKeys(m);
      var keys := SortStrings(collected);
      ghost var canonical := SetToSeq(m.Keys);
      assert multiset(keys) == multiset(canonical);
      SortStringsUnique(canonical, keys);
      assert keys == SortedSet(m.Keys);
      r := AppendTagWords(text, m, keys);
    } else {
      NoTagWords(m);
      r := text;
    }
  }

  method AppendTagWords(text: string, m: map<string, string>, keys: seq<string>) returns (r: string)
    requires forall j :: 0 <= j < |keys| ==> keys[j] in m
    ensures r == text + Spaced(TagWords(m, keys))
  {
    r := text;
    for i := 0 to |keys|
      invariant r == text + Spaced(TagWords(m, keys[..i]))
    {
      assert TagWords(m, keys[..i + 1]) == TagWords(m, keys[..i]) + [keys[i] + ":" + m[keys[i]]];
      SpacedSnoc(TagWords(m, keys[..i]), keys[i] + ":" + m[keys[i]]);
      r := r + " " + keys[i] + ":" + m[keys[i]];
    }
    assert keys[..|keys|] == keys;
  }

  /** A word `ParseTimer` adds to the notes. */
  predicate IsNoteWord(w: string) {
    !HasPrefix(w, "@") && !HasPrefix(w, "+") && ':' !in w
  }

  /** Notes that are plain words joined by single spaces. */
  ghost predicate NotesOk(n: string) {
    var ws := Fields(n);
    JoinSpace(ws) == n && forall i :: 0 <= i < |ws| ==> IsNoteWord(ws[i])
  }

  /** A tag that its `k:v` word stores again. */
  predicate TagOk(k: string, v: string) {
    IsToken(k) && IsToken(v) && ':' !in k && ':' !in v && k[0] != '@' && k[0] != '+'
  }

  // ---------------------------------------------------------------------------
  // Parsing
  // ---------------------------------------------------------------------------

  datatype ParseError =
    | EmptyLine      // no word at all
    | BadFinishDate  // marked finished, but the next word is missing or not a date
    | BadStartDate   // the start stamp is missing or not a date

  /** The completion marker. */
  const Marker: string := "x"

  /** The cutset `ParseTimer` trims from both ends of its input. */
  const ParseCutset: set<char> := {'\t', '\n', '\r', ' '}

  /** The words of a line, as `ParseTimer` splits it. */
  function Words(text: string): seq<string> {
    Fields(Trim(text, ParseCutset))
  }

  /** Index of the start stamp among the words: after the marker and finish stamp if there is a marker. */
  function StartIndex(ws: seq<string>): nat
    requires ws != []
  {
    if ws[0] == Marker then 2 else 0
  }

  /** What the classification loop has gathered so far. */
  datatype Annotations = Annotations(
    contexts: seq<string>, projects: seq<string>, tags: map<string, string>, notes: seq<string>)

  const NoAnnotations: Annotations := Annotations([], [], map[], [])

  /** The two parts `ParseTimer` looks at after `strings.Split(v, ":")`. */
  function TagKey(v: string): string
    requires ':' in v
  {
    Split(v, ':')[0]
  }

  function TagValue(v: string): string
    requires ':' in v
  {
    Split(v, ':')[1]
  }

  /** A word that ParseTimer stores as a tag. */
  predicate StoresTag(v: string) {
    !HasPrefix(v, "@") && !HasPrefix(v, "+") && ':' in v && TagKey(v) != "" && TagValue(v) != ""
  }

  /** How one word after the start stamp is classified. */
  function Step(acc: Annotations, v: string): Annotations {
    if HasPrefix(v, "@") then acc.(contexts := acc.contexts + [TrimPrefix(v, "@")])
    else if HasPrefix(v, "+") then acc.(projects := acc.projects + [TrimPrefix(v, "+")])
    else if ':' in v then
      (if TagKey(v) != "" && TagValue(v) != "" then acc.(tags := acc.tags[TagKey(v) := TagValue(v)]) else acc)
    else acc.(notes := acc.notes + [v])
  }

  /** The classification loop over the words after the start stamp, left to right. */
  function Classify(acc: Annotations, ws: seq<string>): Annotations
    decreases |ws|
  {
    if ws == [] then acc else Classify(Step(acc, ws[0]), ws[1..])
  }

  lemma ClassifyAt(acc: Annotations, ws: seq<string>, i: int)
    requires 0 <= i < |ws|
    ensures Classify(acc, ws[i..]) == Classify(Step(acc, ws[i]), ws[i + 1..])
  {
    assert ws[i..][0] == ws[i] && ws[i..][1..] == ws[i + 1..];
  }

  /**
   * `ParseTimer`, with the out-of-range indexing of the Go code turned into
   * errors and the tag map initialised before it is written.
   */
  function Parse(text: string): (r: Result<Timer, ParseError>)
    ensures r == Err(EmptyLine) <==> Words(text) == []
    ensures r == Err(BadFinishDate) <==>
      var ws := Words(text); ws != [] && ws[0] == Marker && (|ws| < 2 || T.Parse(ws[1]).None?)
    ensures r.Ok? <==>
      var ws := Words(text);
      && ws != [] && StartIndex(ws) < |ws|
      && (ws[0] == Marker ==> T.Parse(ws[1]).Some?)
      && T.Parse(ws[StartIndex(ws)]).Some?
    ensures r == Err(BadStartDate) <==>
      var ws := Words(text);
      && ws != [] && (ws[0] == Marker ==> |ws| >= 2 && T.Parse(ws[1]).Some?)
      && (StartIndex(ws) >= |ws| || T.Parse(ws[StartIndex(ws)]).None?)
    ensures r.Ok? ==>
      var ws := Words(text);
      && ws != [] && StartIndex(ws) < |ws|
      && r.value.id == 0 && r.value.original == Trim(text, ParseCutset)
      && (r.value.finished <==> ws[0] == Marker)
      && T.Parse(ws[StartIndex(ws)]) == Some(r.value.startDate)
      && (if r.value.finished then T.Parse(ws[1]) == Some(r.value.finishDate) else T.IsZero(r.value.finishDate))
  {
    var original := Trim(text, ParseCutset);
    var parts := Fields(original);
    if parts == [] then Err(EmptyLine)
    else if parts[0] == Marker then
      if |parts| < 2 then Err(BadFinishDate)
      else match T.Parse(parts[1]) {
        case None => Err(BadFinishDate)
        case Some(f) => ParseRest(original, true, f, parts[2..])
      }
    else ParseRest(original, false, T.Zero, parts)
  }

  /** From the start stamp on. */
  function ParseRest(original: string, finished: bool, finishDate: T.Time, parts: seq<string>): (r: Result<Timer, ParseError>)
    ensures r.Err? ==> r.error == BadStartDate
    ensures r.Err? <==> parts == [] || T.Parse(parts[0]).None?
    ensures r.Ok? ==> r.value.finished == finished && r.value.finishDate == finishDate && r.value.original == original
                      && r.value.id == 0 && Some(r.value.startDate) == T.Parse(parts[0])
  {
    if parts == [] then Err(BadStartDate)
    else match T.Parse(parts[0]) {
      case None => Err(BadStartDate)
      case Some(s) =>
        var a := Classify(NoAnnotations, parts[1..]);
        Ok(Timer(0, original, s, finishDate, finished, JoinSpace(a.notes), a.projects, a.contexts, a.tags))
    }
  }

  /** `ParseTimer`: reads one line into a timer, or reports why it cannot. */
  method ParseTimer(text: string) returns (r: Result<Timer, ParseError>)
    ensures r == Parse(text)
  {
    var original := Trim(text, ParseCutset);
    var parts := Fields(original);
    if |parts| == 0 {
      return Err(EmptyLine);
    }
    var finished := false;
    var finishDate := T.Zero;
    if parts[0] == Marker {
      finished := true;
      if |parts| < 2 {
        return Err(BadFinishDate);
      }
      var f := T.Parse(parts[1]);
      if f.None? {
        return Err(BadFinishDate);
      }
      finishDate := f.value;
      parts := parts[2..];
    }
    if |parts| == 0 {
      return Err(BadStartDate);
    }
    var s := T.Parse(parts[0]);
    if s.None? {
      return Err(BadStartDate);
    }
    parts := parts[1..];
    var contexts, projects, tags, notes := ClassifyWords(parts);
    r := Ok(Timer(0, original, s.value, finishDate, finished, JoinSpace(notes), projects, contexts, tags));
  }

  /** The word loop of `ParseTimer`: sorts each word after the start stamp into its field, left to right. */
  method ClassifyWords(parts: seq<string>) returns (contexts: seq<string>, projects: seq<string>,
                                                      tags: map<string, string>, notes: seq<string>)
    ensures Annotations(contexts, projects, tags, notes) == Classify(NoAnnotations, parts)
  {
    contexts, projects, notes := [], [], [];
    tags := map[];
    for i := 0 to |parts|
      invariant Classify(Annotations(contexts, projects, tags, notes), parts[i..]) == Classify(NoAnnotations, parts)
    {
      var v := parts[i];
      ghost var acc := Annotations(contexts, projects, tags, notes);
      ClassifyAt(acc, parts, i);
      if HasPrefix(v, "@") {
        contexts := contexts + [TrimPrefix(v, "@")];
      } else if HasPrefix(v, "+") {
        projects := projects + [TrimPrefix(v, "+")];
      } else if ':' in v {
        var tagPts := Split(v, ':');
        if tagPts[0] != "" && tagPts[1] != "" {
          tags := tags[tagPts[0] := tagPts[1]];
        }
      } else {
        notes := notes + [v];
      }
      assert Annotations(contexts, projects, tags, notes) == Step(acc, v);
    }
    assert parts[|parts|..] == [];
  }

  // ---------------------------------------------------------------------------
  // ParseTimer exactly as written in Go (None stands for a run-time panic)
  // ---------------------------------------------------------------------------

  /**
   * The classification loop as written: `AdditionalTags` is never initialised,
   * so the first tag it stores writes into a nil map and panics.
   */
  function ClassifyAsWritten(acc: Annotations, ws: seq<string>): (r: Option<Annotations>)
    ensures r.Some? ==> r.value == Classify(acc, ws) && r.value.tags == acc.tags
    ensures r.None? <==> exists i :: 0 <= i < |ws| && StoresTag(ws[i])
    decreases |ws|
  {
    if ws == [] then Some(acc)
    else if StoresTag(ws[0]) then
      assert StoresTag(ws[0]);
      None
    else
      var r := ClassifyAsWritten(Step(acc, ws[0]), ws[1..]);
      assert forall i :: 1 <= i < |ws| ==> ws[i] == ws[1..][i - 1];
      assert (exists i :: 0 <= i < |ws| && StoresTag(ws[i])) ==> exists i :: 0 <= i < |ws[1..]| && StoresTag(ws[1..][i]);
      r
  }

  /**
   * `ParseTimer` as written: `originalParts[0]` and `originalParts[1]` are
   * indexed without a length check, and tags are written into a nil map.
   * `None` is a panic; whenever the Go code returns, it returns what `Parse` does.
   */
  function ParseAsWritten(text: string): (r: Option<Result<Timer, ParseError>>)
    ensures r.Some? ==> r.value == Parse(text)
  {
    var original := Trim(text, ParseCutset);
    var parts := Fields(original);
    if parts == [] then None
    else if parts[0] == Marker && |parts| < 2 then None
    else if parts[0] == Marker && T.Parse(parts[1]).None? then Some(Err(BadFinishDate))
    else
      var rest := if parts[0] == Marker then parts[2..] else parts;
      if rest == [] then None
      else if T.Parse(rest[0]).None? then Some(Err(BadStartDate))
      else match ClassifyAsWritten(NoAnnotations, rest[1..]) {
        case None => None
        case Some(a) =>
          var finishDate := if parts[0] == Marker then T.Parse(parts[1]).value else T.Zero;
          Some(Ok(Timer(0, original, T.Parse(rest[0]).value, finishDate, parts[0] == Marker,
                        JoinSpace(a.notes), a.projects, a.contexts, a.tags)))
      }
  }
}
