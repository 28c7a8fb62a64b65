/**
 * What the timer.go code promises about its line format and its
 * state transitions, proved of the model in module Timers.
 */
module TimerLaws {
  import opened Wrappers
  import opened Strings
  import opened StringOrder
  import T = Timestamps
  import opened Timers

  // ---------------------------------------------------------------------------
  // The classification loop
  // ---------------------------------------------------------------------------

  lemma {:induction false} ClassifyAppend(acc: Annotations, a: seq<string>, b: seq<string>)
    ensures Classify(acc, a + b) == Classify(Classify(acc, a), b)
    decreases |a|
  {
    if a == [] {
      assert a + b == b;
    } else {
      assert (a + b)[0] == a[0];
      assert (a + b)[1..] == a[1..] + b;
      ClassifyAppend(Step(acc, a[0]), a[1..], b);
    }
  }

  lemma {:induction false} ClassifyNotes(acc: Annotations, ws: seq<string>)
    requires forall i :: 0 <= i < |ws| ==> IsNoteWord(ws[i])
    ensures Classify(acc, ws) == acc.(notes := acc.notes + ws)
    decreases |ws|
  {
    if ws == [] {
      assert acc.notes + ws == acc.notes;
    } else {
      ClassifyNotes(Step(acc, ws[0]), ws[1..]);
      assert acc.notes + [ws[0]] + ws[1..] == acc.notes + ws;
    }
  }

  lemma {:induction false} ClassifyContexts(acc: Annotations, cs: seq<string>)
    ensures Classify(acc, Prefixed("@", cs)) == acc.(contexts := acc.contexts + cs)
    decreases |cs|
  {
    var ws := Prefixed("@", cs);
    if cs == [] {
      assert acc.contexts + cs == acc.contexts;
    } else {
      assert HasPrefix(ws[0], "@") && TrimPrefix(ws[0], "@") == cs[0];
      assert ws[1..] == Prefixed("@", cs[1..]);
      ClassifyContexts(Step(acc, ws[0]), cs[1..]);
      assert acc.contexts + [cs[0]] + cs[1..] == acc.contexts + cs;
    }
  }

  lemma {:induction false} ClassifyProjects(acc: Annotations, ps: seq<string>)
    ensures Classify(acc, Prefixed("+", ps)) == acc.(projects := acc.projects + ps)
    decreases |ps|
  {
    var ws := Prefixed("+", ps);
    if ps == [] {
      assert acc.projects + ps == acc.projects;
    } else {
      assert ws[0][..1] == "+";
      assert !HasPrefix(ws[0], "@") && HasPrefix(ws[0], "+") && TrimPrefix(ws[0], "+") == ps[0];
      assert ws[1..] == Prefixed("+", ps[1..]);
      ClassifyProjects(Step(acc, ws[0]), ps[1..]);
      assert acc.projects + [ps[0]] + ps[1..] == acc.projects + ps;
    }
  }

  /** The tag map after storing `m[k]` under each `k` of `ks`, in order. */
  function InsertTags(b: map<string, string>, m: map<string, string>, ks: seq<string>): map<string, string>
    requires forall i :: 0 <= i < |ks| ==> ks[i] in m
    decreases |ks|
  {
    if ks == [] then b else InsertTags(b[ks[0] := m[ks[0]]], m, ks[1..])
  }

  lemma {:induction false} InsertTagsContents(b: map<string, string>, m: map<string, string>, ks: seq<string>)
    requires forall i :: 0 <= i < |ks| ==> ks[i] in m
    ensures forall k :: k in InsertTags(b, m, ks) <==> k in b || k in ks
    ensures forall k :: k in ks ==> InsertTags(b, m, ks)[k] == m[k]
    ensures forall k :: k in b && k !in ks ==> InsertTags(b, m, ks)[k] == b[k]
    decreases |ks|
  {
    if ks != [] {
      InsertTagsContents(b[ks[0] := m[ks[0]]], m, ks[1..]);
      assert forall k :: k in ks <==> k == ks[0] || k in ks[1..];
    }
  }

  /** A tag's `k:v` word is stored back as `k -> v`. */
  lemma TagWordStored(acc: Annotations, k: string, v: string)
    requires TagOk(k, v)
    ensures Step(acc, k + ":" + v) == acc.(tags := acc.tags[k := v])
  {
    var w := k + ":" + v;
    assert JoinWith([k, v], ':') == w by {
      assert JoinWith([k, v][1..], ':') == v;
    }
    SplitJoin([k, v], ':');
    assert w[0] == k[0];
    assert w[..1] == [k[0]];
    assert w[|k|] == ':';
  }

  lemma {:induction false} ClassifyTags(acc: Annotations, m: map<string, string>, ks: seq<string>)
    requires forall i :: 0 <= i < |ks| ==> ks[i] in m && TagOk(ks[i], m[ks[i]])
    ensures Classify(acc, TagWords(m, ks)) == acc.(tags := InsertTags(acc.tags, m, ks))
    decreases |ks|
  {
    var ws := TagWords(m, ks);
    if ks != [] {
      TagWordStored(acc, ks[0], m[ks[0]]);
      assert ws[1..] == TagWords(m, ks[1..]);
      ClassifyTags(Step(acc, ws[0]), m, ks[1..]);
    }
  }

  /** Storing the keys of `m`, listed in any order, into an empty map rebuilds `m`. */
  lemma InsertAllKeys(m: map<string, string>, ks: seq<string>)
    requires forall i :: 0 <= i < |ks| ==> ks[i] in m
    requires forall k :: k in m ==> k in ks
    ensures InsertTags(map[], m, ks) == m
  {
    InsertTagsContents(map[], m, ks);
    var r := InsertTags(map[], m, ks);
    assert r.Keys == m.Keys;
  }

  /** Storing every key of `m` in ascending order rebuilds `m`. */
  lemma InsertSortedKeys(m: map<string, string>)
    ensures InsertTags(map[], m, SortedSet(m.Keys)) == m
  {
    var ks := SortedSet(m.Keys);
    forall k | k in m ensures k in ks {
      assert k in multiset(m.Keys);
    }
    InsertAllKeys(m, ks);
  }

  // ---------------------------------------------------------------------------
  // Independent descriptions of what the classification loop gathers
  // ---------------------------------------------------------------------------

  /** The `@` words, prefix stripped, in order. */
  function ContextsIn(ws: seq<string>): seq<string> {
    if ws == [] then []
    else (if HasPrefix(ws[0], "@") then [ws[0][1..]] else []) + ContextsIn(ws[1..])
  }

  /** The `+` words, prefix stripped, in order. */
  function ProjectsIn(ws: seq<string>): seq<string> {
    if ws == [] then []
    else (if !HasPrefix(ws[0], "@") && HasPrefix(ws[0], "+") then [ws[0][1..]] else []) + ProjectsIn(ws[1..])
  }

  /** The words without a prefix and without a colon, in order. */
  function NotesIn(ws: seq<string>): seq<string> {
    if ws == [] then []
    else (if IsNoteWord(ws[0]) then [ws[0]] else []) + NotesIn(ws[1..])
  }

  /** The loop sends each `@` word, prefix stripped, to the contexts, in the order of the line. */
  lemma {:induction false} ClassifyGathersContexts(acc: Annotations, ws: seq<string>)
    ensures Classify(acc, ws).contexts == acc.contexts + ContextsIn(ws)
    decreases |ws|
  {
    if ws == [] {
      assert acc.contexts + [] == acc.contexts;
    } else {
      var w := ws[0];
      ClassifyGathersContexts(Step(acc, w), ws[1..]);
      var c := if HasPrefix(w, "@") then [w[1..]] else [];
      assert Step(acc, w).contexts == acc.contexts + c;
      assert acc.contexts + c + ContextsIn(ws[1..]) == acc.contexts + (c + ContextsIn(ws[1..]));
    }
  }

  /** The loop sends each `+` word, prefix stripped, to the projects, in the order of the line. */
  lemma {:induction false} ClassifyGathersProjects(acc: Annotations, ws: seq<string>)
    ensures Classify(acc, ws).projects == acc.projects + ProjectsIn(ws)
    decreases |ws|
  {
    if ws == [] {
      assert acc.projects + [] == acc.projects;
    } else {
      var w := ws[0];
      ClassifyGathersProjects(Step(acc, w), ws[1..]);
      var p := if !HasPrefix(w, "@") && HasPrefix(w, "+") then [w[1..]] else [];
      assert Step(acc, w).projects == acc.projects + p;
      assert acc.projects + p + ProjectsIn(ws[1..]) == acc.projects + (p + ProjectsIn(ws[1..]));
    }
  }

  /** The loop sends each colon-free word without a prefix to the notes, in the order of the line. */
  lemma {:induction false} ClassifyGathersNotes(acc: Annotations, ws: seq<string>)
    ensures Classify(acc, ws).notes == acc.notes + NotesIn(ws)
    decreases |ws|
  {
    if ws == [] {
      assert acc.notes + [] == acc.notes;
    } else {
      var w := ws[0];
      ClassifyGathersNotes(Step(acc, w), ws[1..]);
      var n := if IsNoteWord(w) then [w] else [];
      assert Step(acc, w).notes == acc.notes + n;
      assert acc.notes + n + NotesIn(ws[1..]) == acc.notes + (n + NotesIn(ws[1..]));
    }
  }

  /** A key is in the tag map exactly when it was there before or some word stores it. */
  lemma {:induction false} ClassifyTagKeys(acc: Annotations, ws: seq<string>, k: string)
    ensures k in Classify(acc, ws).tags <==>
      k in acc.tags || exists i :: 0 <= i < |ws| && StoresTag(ws[i]) && TagKey(ws[i]) == k
    decreases |ws|
  {
    if ws != [] {
      ClassifyTagKeys(Step(acc, ws[0]), ws[1..], k);
      assert forall i :: 1 <= i < |ws| ==> ws[i] == ws[1..][i - 1];
      if exists i :: 0 <= i < |ws| && StoresTag(ws[i]) && TagKey(ws[i]) == k {
        var i :| 0 <= i < |ws| && StoresTag(ws[i]) && TagKey(ws[i]) == k;
        if i > 0 {
          assert StoresTag(ws[1..][i - 1]) && TagKey(ws[1..][i - 1]) == k;
        }
      }
    }
  }

  /** A word that does not store `k` leaves the entry for `k` alone. */
  lemma StepKeepsOtherTag(acc: Annotations, w: string, k: string)
    requires !(StoresTag(w) && TagKey(w) == k)
    ensures k in Step(acc, w).tags <==> k in acc.tags
    ensures k in acc.tags ==> Step(acc, w).tags[k] == acc.tags[k]
  {
  }

  /** When no word stores `k`, the loop leaves the entry for `k` as it was. */
  lemma {:induction false} ClassifyTagUntouched(acc: Annotations, ws: seq<string>, k: string)
    requires forall j :: 0 <= j < |ws| ==> !(StoresTag(ws[j]) && TagKey(ws[j]) == k)
    ensures k in Classify(acc, ws).tags <==> k in acc.tags
    ensures k in acc.tags ==> Classify(acc, ws).tags[k] == acc.tags[k]
    decreases |ws|
  {
    if ws != [] {
      StepKeepsOtherTag(acc, ws[0], k);
      assert forall j :: 0 <= j < |ws| - 1 ==> ws[1..][j] == ws[j + 1];
      ClassifyTagUntouched(Step(acc, ws[0]), ws[1..], k);
    }
  }

  /** The value stored for `k` is the one of the last word that stores `k`: later words overwrite earlier ones. */
  lemma {:induction false} ClassifyTagLast(acc: Annotations, ws: seq<string>, k: string, i: int)
    requires 0 <= i < |ws| && StoresTag(ws[i]) && TagKey(ws[i]) == k
    requires forall j :: i < j < |ws| ==> !(StoresTag(ws[j]) && TagKey(ws[j]) == k)
    ensures k in Classify(acc, ws).tags && Classify(acc, ws).tags[k] == TagValue(ws[i])
    decreases |ws|
  {
    assert forall j :: 0 <= j < |ws| - 1 ==> ws[1..][j] == ws[j + 1];
    if i == 0 {
      var next := Step(acc, ws[0]);
      assert next.tags == acc.tags[k := TagValue(ws[0])];
      ClassifyTagUntouched(next, ws[1..], k);
    } else {
      ClassifyTagLast(Step(acc, ws[0]), ws[1..], k, i - 1);
    }
  }

  lemma {:induction false} ContextsInHas(ws: seq<string>, c: string)
    ensures c in ContextsIn(ws) <==> "@" + c in ws
    decreases |ws|
  {
    if ws != [] {
      ContextsInHas(ws[1..], c);
      var w := ws[0];
      if HasPrefix(w, "@") {
        assert w == "@" + w[1..];
      }
      if w == "@" + c {
        assert HasPrefix(w, "@") && w[1..] == c;
      }
      assert ws == [w] + ws[1..];
    }
  }

  lemma {:induction false} ProjectsInHas(ws: seq<string>, p: string)
    ensures p in ProjectsIn(ws) <==> "+" + p in ws
    decreases |ws|
  {
    if ws != [] {
      ProjectsInHas(ws[1..], p);
      var w := ws[0];
      if HasPrefix(w, "+") {
        assert w == "+" + w[1..];
      }
      if w == "+" + p {
        assert w[..1] == "+";
        assert !HasPrefix(w, "@") && HasPrefix(w, "+") && w[1..] == p;
      }
      assert ws == [w] + ws[1..];
    }
  }

  /** The words of a line after its start stamp. */
  function BodyWords(text: string): seq<string>
    requires Parse(text).Ok?
  {
    var ws := Words(text);
    ws[StartIndex(ws) + 1..]
  }

  lemma ParsedFromBody(text: string)
    requires Parse(text).Ok?
    ensures Parse(text).value.contexts == ContextsIn(BodyWords(text))
    ensures Parse(text).value.projects == ProjectsIn(BodyWords(text))
    ensures Parse(text).value.notes == JoinSpace(NotesIn(BodyWords(text)))
  {
    var ws := Words(text);
    var body := BodyWords(text);
    assert ws[StartIndex(ws)..][1..] == body;
    var a := Classify(NoAnnotations, body);
    assert Parse(text).value.notes == JoinSpace(a.notes);
    ClassifyGathersContexts(NoAnnotations, body);
    ClassifyGathersProjects(NoAnnotations, body);
    ClassifyGathersNotes(NoAnnotations, body);
    assert NoAnnotations.notes + NotesIn(body) == NotesIn(body);
  }

  /** `HasContext(c)` holds of a parsed line exactly when `@c` is one of its words after the start stamp. */
  lemma ParsedHasContext(text: string, c: string)
    requires Parse(text).Ok?
    ensures Parse(text).value.HasContext(c) <==> "@" + c in BodyWords(text)
  {
    ParsedFromBody(text);
    ContextsInHas(BodyWords(text), c);
  }

  /** `HasProject(p)` holds of a parsed line exactly when `+p` is one of its words after the start stamp. */
  lemma ParsedHasProject(text: string, p: string)
    requires Parse(text).Ok?
    ensures Parse(text).value.HasProject(p) <==> "+" + p in BodyWords(text)
  {
    ParsedFromBody(text);
    ProjectsInHas(BodyWords(text), p);
  }

  /** A word with a colon that does not split into a non-empty key and value is dropped. */
  lemma MalformedTagDropped(acc: Annotations, w: string)
    requires !HasPrefix(w, "@") && !HasPrefix(w, "+") && ':' in w && !StoresTag(w)
    ensures Step(acc, w) == acc
  {
  }

  /** `strings.Split` keeps only the text up to the second colon: `k:a:b` stores `k -> a`. */
  lemma TagValueCutAtSecondColon(acc: Annotations, k: string, a: string, b: string)
    requires TagOk(k, a) && ':' !in b
    ensures Step(acc, k + ":" + a + ":" + b) == acc.(tags := acc.tags[k := a])
  {
    SplitThree(k, a, b);
    FirstOfThree(k, a, b);
    StepOnSplit(acc, k + ":" + a + ":" + b, k, a, [b]);
  }

  /** A word that starts like `k` and splits at its colons into `k`, `a`, ... stores `k -> a`. */
  lemma StepOnSplit(acc: Annotations, w: string, k: string, a: string, rest: seq<string>)
    requires TagOk(k, a) && w != [] && w[0] == k[0]
    requires Split(w, ':') == [k, a] + rest
    ensures Step(acc, w) == acc.(tags := acc.tags[k := a])
  {
    assert w[..1] == [k[0]];
    assert ':' in w;
  }

  lemma FirstOfThree(k: string, a: string, b: string)
    requires k != []
    ensures var w := k + ":" + a + ":" + b; w != [] && w[0] == k[0]
  {
  }

  lemma SplitThree(k: string, a: string, b: string)
    requires ':' !in k && ':' !in a && ':' !in b
    ensures Split(k + ":" + a + ":" + b, ':') == [k, a, b]
  {
    JoinThree(k, a, b, ':');
    SplitJoin([k, a, b], ':');
  }

  // ---------------------------------------------------------------------------
  // Reading back a written line
  // ---------------------------------------------------------------------------

  /** `WellFormed` without its rule tying the finished flag to the finish stamp. */
  ghost predicate TextualOk(t: Timer) {
    && NotesOk(t.notes)
    && (forall i :: 0 <= i < |t.contexts| ==> SpaceFree(t.contexts[i]))
    && (forall i :: 0 <= i < |t.projects| ==> SpaceFree(t.projects[i]))
    && (forall k :: k in t.additionalTags ==> TagOk(k, t.additionalTags[k]))
  }

  /** The words `String` writes before the notes. */
  function HeadWords(t: Timer): seq<string> {
    (if t.finished then [Marker] + (if !T.IsZero(t.finishDate) then [T.Format(t.finishDate)] else []) else [])
    + [T.Format(t.startDate)]
  }

  /** The words `String` writes after the notes. */
  ghost function AnnotationWords(t: Timer): seq<string> {
    ContextWords(t.contexts) + ProjectWords(t.projects)
    + TagWords(t.additionalTags, SortedSet(t.additionalTags.Keys))
  }

  lemma SpaceFreeAppend(a: string, b: string)
    requires SpaceFree(a) && SpaceFree(b)
    ensures SpaceFree(a + b)
  {
    forall i | 0 <= i < |a + b| ensures !IsSpace((a + b)[i]) {
      if i >= |a| { assert (a + b)[i] == b[i - |a|]; }
    }
  }

  lemma PrefixedTokens(p: string, xs: seq<string>, ys: seq<string>)
    requires p != [] && SpaceFree(p)
    requires forall i :: 0 <= i < |ys| ==> SpaceFree(ys[i])
    requires multiset(xs) == multiset(ys)
    ensures forall i :: 0 <= i < |xs| ==> IsToken(Prefixed(p, xs)[i])
  {
    forall i | 0 <= i < |xs| ensures IsToken(Prefixed(p, xs)[i]) {
      assert xs[i] in multiset(ys);
      var j :| 0 <= j < |ys| && ys[j] == xs[i];
      SpaceFreeAppend(p, xs[i]);
    }
  }

  lemma TokensAppend(a: seq<string>, b: seq<string>, c: seq<string>)
    requires forall i :: 0 <= i < |a| ==> IsToken(a[i])
    requires forall i :: 0 <= i < |b| ==> IsToken(b[i])
    requires forall i :: 0 <= i < |c| ==> IsToken(c[i])
    ensures forall i :: 0 <= i < |a + b + c| ==> IsToken((a + b + c)[i])
  {
    forall i | 0 <= i < |a + b + c| ensures IsToken((a + b + c)[i]) {
      if i < |a| { assert (a + b + c)[i] == a[i]; }
      else if i < |a| + |b| { assert (a + b + c)[i] == b[i - |a|]; }
      else { assert (a + b + c)[i] == c[i - |a| - |b|]; }
    }
  }

  lemma TagWordsAreTokens(m: map<string, string>, ks: seq<string>)
    requires forall i :: 0 <= i < |ks| ==> ks[i] in m
    requires forall k :: k in m ==> TagOk(k, m[k])
    ensures forall i :: 0 <= i < |ks| ==> IsToken(TagWords(m, ks)[i])
  {
    forall i | 0 <= i < |ks| ensures IsToken(TagWords(m, ks)[i]) {
      SpaceFreeAppend(ks[i], ":");
      SpaceFreeAppend(ks[i] + ":", m[ks[i]]);
    }
  }

  lemma AnnotationTokens(cs: seq<string>, ps: seq<string>, m: map<string, string>)
    requires forall i :: 0 <= i < |cs| ==> SpaceFree(cs[i])
    requires forall i :: 0 <= i < |ps| ==> SpaceFree(ps[i])
    requires forall k :: k in m ==> TagOk(k, m[k])
    ensures var ws := ContextWords(cs) + ProjectWords(ps) + TagWords(m, SortedSet(m.Keys));
      forall i :: 0 <= i < |ws| ==> IsToken(ws[i])
  {
    var ks := SortedSet(m.Keys);
    var cw := ContextWords(cs);
    var pw := ProjectWords(ps);
    var tw := TagWords(m, ks);
    PrefixedTokens("@", SortStrings(cs), cs);
    PrefixedTokens("+", SortStrings(ps), ps);
    TagWordsAreTokens(m, ks);
    TokensAppend(cw, pw, tw);
  }

  lemma AnnotationWordsAreTokens(t: Timer)
    requires TextualOk(t)
    ensures forall i :: 0 <= i < |AnnotationWords(t)| ==> IsToken(AnnotationWords(t)[i])
  {
    AnnotationTokens(t.contexts, t.projects, t.additionalTags);
  }

  lemma SpacedShape(h: string, n: string, cw: seq<string>, pw: seq<string>, tw: seq<string>)
    ensures h + n + Spaced(cw) + Spaced(pw) + Spaced(tw) == h + (n + Spaced(cw + pw + tw))
  {
    SpacedAppend(cw, pw);
    SpacedAppend(cw + pw, tw);
  }

  lemma TextIsHeadNotesAnnotations(t: Timer)
    ensures t.Text() == t.Head() + (t.notes + Spaced(AnnotationWords(t)))
  {
    SpacedShape(t.Head(), t.notes, ContextWords(t.contexts), ProjectWords(t.projects),
      TagWords(t.additionalTags, SortedSet(t.additionalTags.Keys)));
  }

  lemma FieldsOfBody(notes: string, ann: seq<string>)
    requires forall i :: 0 <= i < |ann| ==> IsToken(ann[i])
    ensures Fields(notes + Spaced(ann)) == Fields(notes) + ann
  {
    if ann == [] {
      assert notes + Spaced(ann) == notes;
    } else {
      var x := ann[0] + Spaced(ann[1..]);
      assert Spaced(ann) == [' '] + x by {
        AppendAssoc(" ", ann[0], Spaced(ann[1..]));
      }
      AppendAssoc(notes, [' '], x);
      FieldsSplitAtSpace(notes, ' ', x);
      FieldsAfterToken(ann[0], Spaced(ann[1..]));
      FieldsOfSpaced(ann[1..]);
      assert [ann[0]] + ann[1..] == ann;
    }
  }

  lemma FieldsAfterWord(w: string, rest: string)
    requires IsToken(w)
    ensures Fields(w + " " + rest) == [w] + Fields(rest)
  {
    assert w + " " + rest == w + [' '] + rest;
    FieldsSplitAtSpace(w, ' ', rest);
    FieldsOfToken(w);
  }

  lemma FieldsAfterTwoWords(a: string, b: string, rest: string)
    requires IsToken(a) && IsToken(b)
    ensures Fields(a + " " + (b + " " + rest)) == [a, b] + Fields(rest)
  {
    FieldsAfterWord(a, b + " " + rest);
    FieldsAfterWord(b, rest);
  }

  lemma FieldsAfterThreeWords(a: string, b: string, c: string, rest: string)
    requires IsToken(a) && IsToken(b) && IsToken(c)
    ensures Fields(a + " " + (b + " " + (c + " " + rest))) == [a, b, c] + Fields(rest)
  {
    FieldsAfterWord(a, b + " " + (c + " " + rest));
    FieldsAfterTwoWords(b, c, rest);
  }

  lemma HeadOpen(t: Timer, body: string)
    requires !t.finished
    ensures t.Head() + body == T.Format(t.startDate) + " " + body
    ensures HeadWords(t) == [T.Format(t.startDate)]
  {
  }

  lemma HeadFinished(t: Timer, body: string)
    requires t.finished && T.IsZero(t.finishDate)
    ensures t.Head() + body == Marker + " " + (T.Format(t.startDate) + " " + body)
    ensures HeadWords(t) == [Marker, T.Format(t.startDate)]
  {
  }

  lemma HeadStamped(t: Timer, body: string)
    requires t.finished && !T.IsZero(t.finishDate)
    ensures t.Head() + body == Marker + " " + (T.Format(t.finishDate) + " " + (T.Format(t.startDate) + " " + body))
    ensures HeadWords(t) == [Marker, T.Format(t.finishDate), T.Format(t.startDate)]
  {
  }

  lemma FieldsAfterHead(t: Timer, body: string)
    ensures Fields(t.Head() + body) == HeadWords(t) + Fields(body)
  {
    var sf := T.Format(t.startDate);
    if !t.finished {
      HeadOpen(t, body);
      FieldsAfterWord(sf, body);
    } else if T.IsZero(t.finishDate) {
      HeadFinished(t, body);
      FieldsAfterTwoWords(Marker, sf, body);
    } else {
      HeadStamped(t, body);
      FieldsAfterThreeWords(Marker, T.Format(t.finishDate), sf, body);
    }
  }

  lemma WordsShape(text: string, head: string, notes: string, ann: seq<string>, hw: seq<string>)
    requires text == head + (notes + Spaced(ann))
    requires Fields(head + (notes + Spaced(ann))) == hw + Fields(notes + Spaced(ann))
    requires forall i :: 0 <= i < |ann| ==> IsToken(ann[i])
    ensures Words(text) == hw + Fields(notes) + ann
  {
    ParseCutsetIsSpace();
    FieldsOfTrim(text, ParseCutset);
    assert Words(text) == Fields(text);
    FieldsOfBody(notes, ann);
    assert Fields(text) == hw + (Fields(notes) + ann);
  }

  lemma ParseCutsetIsSpace()
    ensures forall c :: c in ParseCutset ==> IsSpace(c)
  {
  }

  /** The words of a written line: the stamps, the note words, the annotation words. */
  lemma WordsOfText(t: Timer)
    requires TextualOk(t)
    ensures Words(t.Text()) == HeadWords(t) + Fields(t.notes) + AnnotationWords(t)
  {
    TextIsHeadNotesAnnotations(t);
    AnnotationWordsAreTokens(t);
    FieldsAfterHead(t, t.notes + Spaced(AnnotationWords(t)));
    WordsShape(t.Text(), t.Head(), t.notes, AnnotationWords(t), HeadWords(t));
  }

  lemma ClassifyNotesContexts(nw: seq<string>, cs: seq<string>)
    requires forall i :: 0 <= i < |nw| ==> IsNoteWord(nw[i])
    ensures Classify(NoAnnotations, nw + Prefixed("@", cs)) == Annotations(cs, [], map[], nw)
  {
    ClassifyNotes(NoAnnotations, nw);
    assert [] + nw == nw;
    var a1 := Annotations([], [], map[], nw);
    assert Classify(NoAnnotations, nw) == a1;
    ClassifyAppend(NoAnnotations, nw, Prefixed("@", cs));
    ClassifyContexts(a1, cs);
    assert [] + cs == cs;
  }

  lemma ClassifyNotesContextsProjects(nw: seq<string>, cs: seq<string>, ps: seq<string>)
    requires forall i :: 0 <= i < |nw| ==> IsNoteWord(nw[i])
    ensures Classify(NoAnnotations, nw + Prefixed("@", cs) + Prefixed("+", ps)) == Annotations(cs, ps, map[], nw)
  {
    ClassifyNotesContexts(nw, cs);
    ClassifyAppend(NoAnnotations, nw + Prefixed("@", cs), Prefixed("+", ps));
    ClassifyProjects(Annotations(cs, [], map[], nw), ps);
    assert [] + ps == ps;
  }

  lemma ConcatAssoc(a: seq<string>, b: seq<string>, c: seq<string>, d: seq<string>)
    ensures a + (b + c + d) == a + b + c + d
  {
  }

  lemma ClassifyBodyShape(nw: seq<string>, cs: seq<string>, ps: seq<string>, m: map<string, string>)
    requires forall i :: 0 <= i < |nw| ==> IsNoteWord(nw[i])
    requires forall k :: k in m ==> TagOk(k, m[k])
    ensures Classify(NoAnnotations, nw + (Prefixed("@", cs) + Prefixed("+", ps) + TagWords(m, SortedSet(m.Keys))))
      == Annotations(cs, ps, m, nw)
  {
    var ks := SortedSet(m.Keys);
    var cw, pw, tw := Prefixed("@", cs), Prefixed("+", ps), TagWords(m, ks);
    ConcatAssoc(nw, cw, pw, tw);
    ClassifyNotesContextsProjects(nw, cs, ps);
    ClassifyAppend(NoAnnotations, nw + cw + pw, tw);
    forall i | 0 <= i < |ks| ensures ks[i] in m && TagOk(ks[i], m[ks[i]]) {
      assert ks[i] in m.Keys;
    }
    var a3 := Annotations(cs, ps, map[], nw);
    ClassifyTags(a3, m, ks);
    InsertSortedKeys(m);
    assert Classify(a3, tw) == a3.(tags := m);
  }

  /** Classifying the words after the start stamp gives back the notes, the sorted contexts and projects, and the tags. */
  lemma ClassifyBody(t: Timer)
    requires TextualOk(t)
    ensures Classify(NoAnnotations, Fields(t.notes) + AnnotationWords(t))
      == Annotations(SortStrings(t.contexts), SortStrings(t.projects), t.additionalTags, Fields(t.notes))
  {
    ClassifyBodyShape(Fields(t.notes), SortStrings(t.contexts), SortStrings(t.projects), t.additionalTags);
  }

  lemma ConcatAssoc3(a: seq<string>, b: seq<string>, c: seq<string>)
    ensures a + b + c == a + (b + c)
  {
  }

  lemma ParseUnmarkedShape(text: string, sf: string, rest: seq<string>)
    requires Words(text) == [sf] + rest && sf != Marker
    ensures Parse(text) == ParseRest(Trim(text, ParseCutset), false, T.Zero, [sf] + rest)
  {
  }

  lemma ParseMarkedShape(text: string, ff: string, f: T.Time, rest: seq<string>)
    requires Words(text) == [Marker, ff] + rest && T.Parse(ff) == Some(f)
    ensures Parse(text) == ParseRest(Trim(text, ParseCutset), true, f, rest)
  {
    assert Words(text)[2..] == rest;
  }

  lemma ParseRestShape(original: string, finished: bool, fd: T.Time, sf: string, s: T.Time, body: seq<string>)
    requires T.Parse(sf) == Some(s)
    ensures var a := Classify(NoAnnotations, body);
      ParseRest(original, finished, fd, [sf] + body)
        == Ok(Timer(0, original, s, fd, finished, JoinSpace(a.notes), a.projects, a.contexts, a.tags))
  {
    assert ([sf] + body)[1..] == body;
  }

  lemma ParseStampsShape(text: string, hw: seq<string>, body: seq<string>, finished: bool, fd: T.Time, sd: T.Time)
    requires Words(text) == hw + body
    requires finished ==> hw == [Marker, T.Format(fd), T.Format(sd)]
    requires !finished ==> hw == [T.Format(sd)] && fd == T.Zero
    ensures Parse(text) == ParseRest(Trim(text, ParseCutset), finished, fd, [T.Format(sd)] + body)
  {
    var sf := T.Format(sd);
    if finished {
      var ff := T.Format(fd);
      T.ParseFormat(fd);
      assert hw + body == [Marker, ff] + ([sf] + body);
      ParseMarkedShape(text, ff, fd, [sf] + body);
    } else {
      assert hw + body == [sf] + body;
      assert sf != Marker by {
        assert sf[0] != 'x';
      }
      ParseUnmarkedShape(text, sf, body);
    }
  }

  /** A written line splits into the stamps and then the start stamp followed by the body words. */
  lemma ParseTextStamps(t: Timer)
    requires t.WellFormed()
    ensures Parse(t.Text()) == ParseRest(Trim(t.Text(), ParseCutset), t.finished, t.finishDate,
      [T.Format(t.startDate)] + (Fields(t.notes) + AnnotationWords(t)))
  {
    WordsOfText(t);
    ConcatAssoc3(HeadWords(t), Fields(t.notes), AnnotationWords(t));
    if t.finished {
      HeadStamped(t, "");
    } else {
      HeadOpen(t, "");
    }
    ParseStampsShape(t.Text(), HeadWords(t), Fields(t.notes) + AnnotationWords(t), t.finished, t.finishDate, t.startDate);
  }

  /**
   * Round trip: parsing the line `String` writes for a well-formed timer gives
   * the same timer back, except that the id is not part of the line, `Original`
   * records the line, and contexts and projects come back sorted.
   */
  lemma ParseText(t: Timer)
    requires t.WellFormed()
    ensures Parse(t.Text()) ==
      Ok(t.(id := 0, original := Trim(t.Text(), ParseCutset),
            contexts := SortStrings(t.contexts), projects := SortStrings(t.projects)))
  {
    var body := Fields(t.notes) + AnnotationWords(t);
    ParseTextStamps(t);
    T.ParseFormat(t.startDate);
    ParseRestShape(Trim(t.Text(), ParseCutset), t.finished, t.finishDate, T.Format(t.startDate), t.startDate, body);
    ClassifyBody(t);
    assert JoinSpace(Fields(t.notes)) == t.notes;
  }

  /** Parsing a written line recovers every field of the entry, contexts and projects as multisets. */
  lemma ParseTextSameEntry(t: Timer)
    requires t.WellFormed()
    ensures Parse(t.Text()).Ok?
    ensures var p := Parse(t.Text()).value;
      && p.startDate == t.startDate && p.finishDate == t.finishDate && p.finished == t.finished
      && p.notes == t.notes && p.additionalTags == t.additionalTags
      && multiset(p.contexts) == multiset(t.contexts) && multiset(p.projects) == multiset(t.projects)
  {
    ParseText(t);
  }

  /** `String` begins with `x ` exactly for finished timers. */
  lemma TextMarksFinished(t: Timer)
    ensures HasPrefix(t.Text(), "x ") <==> t.finished
  {
    TextIsHeadNotesAnnotations(t);
    var sf := T.Format(t.startDate);
    if !t.finished {
      assert t.Text()[0] == sf[0];
    } else {
      assert t.Text()[..2] == "x ";
    }
  }

  /**
   * A finished timer without a finish stamp is written as `x <start> ...`, so
   * reading it back takes the start stamp for the finish stamp.
   */
  lemma FinishedWithoutStampMisread(t: Timer)
    requires TextualOk(t) && t.finished && T.IsZero(t.finishDate) && !T.IsZero(t.startDate)
    ensures Parse(t.Text()).Ok? ==> Parse(t.Text()).value.finishDate == t.startDate != t.finishDate
  {
    var body := Fields(t.notes) + AnnotationWords(t);
    WordsOfText(t);
    ConcatAssoc3(HeadWords(t), Fields(t.notes), AnnotationWords(t));
    HeadFinished(t, "");
    T.ParseFormat(t.startDate);
    assert Words(t.Text()) == [Marker, T.Format(t.startDate)] + body;
    ParseMarkedShape(t.Text(), T.Format(t.startDate), t.startDate, body);
  }

  // ---------------------------------------------------------------------------
  // ParseTimer as written against the corrected Parse
  // ---------------------------------------------------------------------------

  /** A line with no words indexes `originalParts[0]` of an empty slice. */
  lemma EmptyLinePanicsAsWritten(text: string)
    requires Words(text) == []
    ensures ParseAsWritten(text).None? && Parse(text) == Err(EmptyLine)
  {
  }

  /** A lone `x` indexes `originalParts[1]` past the end. */
  lemma LoneMarkerPanicsAsWritten(text: string)
    requires Words(text) == [Marker]
    ensures ParseAsWritten(text).None? && Parse(text) == Err(BadFinishDate)
  {
  }

  /** `x <finish>` with nothing after it indexes `originalParts[0]` of an empty slice. */
  lemma MissingStartPanicsAsWritten(text: string, ff: string)
    requires Words(text) == [Marker, ff] && T.Parse(ff).Some?
    ensures ParseAsWritten(text).None? && Parse(text) == Err(BadStartDate)
  {
    assert Words(text)[2..] == [];
  }

  /** The smallest line that shows the first panic: a single blank. */
  lemma BlankLinePanicsAsWritten()
    ensures ParseAsWritten(" ").None? && Parse(" ") == Err(EmptyLine)
  {
    assert Trim(" ", ParseCutset) == "";
    EmptyLinePanicsAsWritten(" ");
  }

  /** The start-stamp word of a line `Parse` accepts, and the body after it. */
  lemma ParseOkShape(text: string)
    requires Parse(text).Ok?
    ensures var ws := Words(text); var rest := ws[StartIndex(ws)..];
      && rest != [] && rest[1..] == BodyWords(text)
      && Parse(text).value.additionalTags == Classify(NoAnnotations, BodyWords(text)).tags
  {
  }

  /** Whenever `Parse` reads a line with tags, the Go code panics on the nil map instead. */
  lemma TagsPanicAsWritten(text: string)
    requires Parse(text).Ok? && Parse(text).value.additionalTags != map[]
    ensures ParseAsWritten(text).None?
  {
    ParseOkShape(text);
    var r := ClassifyAsWritten(NoAnnotations, BodyWords(text));
    assert r.None?;
  }

  /** Whenever `Parse` reads a line without tags, the Go code returns the same timer. */
  lemma NoTagsAgreeAsWritten(text: string)
    requires Parse(text).Ok? && Parse(text).value.additionalTags == map[]
    ensures ParseAsWritten(text) == Some(Parse(text))
  {
    ParseOkShape(text);
    var body := BodyWords(text);
    if exists i :: 0 <= i < |body| && StoresTag(body[i]) {
      var i :| 0 <= i < |body| && StoresTag(body[i]);
      ClassifyTagKeys(NoAnnotations, body, TagKey(body[i]));
      assert TagKey(body[i]) in Parse(text).value.additionalTags;
    }
  }

  /** The second panic in full: a well-formed timer with a tag cannot be read back by the Go code. */
  lemma TaggedTextPanicsAsWritten(t: Timer)
    requires t.WellFormed() && t.additionalTags != map[]
    ensures ParseAsWritten(t.Text()).None?
  {
    ParseText(t);
    TagsPanicAsWritten(t.Text());
  }

  // ---------------------------------------------------------------------------
  // Finish, Reopen, Duration and ActiveOnDay
  // ---------------------------------------------------------------------------

  /** An empty timer is well formed. */
  lemma NewTimerWellFormed(now: T.Time)
    ensures NewTimer(now).WellFormed()
  {
    assert Fields("") == [];
  }

  /** Finishing at a set instant keeps a timer well formed. */
  lemma FinishWellFormed(t: Timer, now: T.Time)
    requires t.WellFormed() && !T.IsZero(now)
    ensures t.Finish(now).WellFormed()
  {
  }

  /** Reopening keeps a timer well formed. */
  lemma ReopenWellFormed(t: Timer)
    requires t.WellFormed()
    ensures t.Reopen().WellFormed()
  {
  }

  /** Finishing twice is finishing once; the second call's instant is ignored. */
  lemma FinishIdempotent(t: Timer, a: T.Time, b: T.Time)
    ensures t.Finish(a).Finish(b) == t.Finish(a)
  {
  }

  /** Reopening twice is reopening once. */
  lemma ReopenIdempotent(t: Timer)
    ensures t.Reopen().Reopen() == t.Reopen()
  {
  }

  /** Reopening an open timer that was just finished gives it back. */
  lemma ReopenUndoesFinish(t: Timer, now: T.Time)
    requires !t.finished && T.IsZero(t.finishDate)
    ensures t.Finish(now).Reopen() == t
  {
  }

  /** Finishing a reopened timer at `now` stamps it with `now`, whatever it held before. */
  lemma FinishAfterReopen(t: Timer, now: T.Time)
    ensures t.Reopen().Finish(now) == t.(finished := true, finishDate := now)
  {
  }

  /** Once a finish stamp is set, the duration no longer depends on the clock. */
  lemma DurationFixedOnceStamped(t: Timer, a: T.Time, b: T.Time)
    requires !T.IsZero(t.finishDate)
    ensures t.Duration(a) == t.Duration(b)
  {
  }

  lemma SaturateMonotone(x: int, y: int)
    requires x <= y
    ensures Saturate(x) <= Saturate(y)
  {
  }

  /** While no finish stamp is set, the duration grows with the clock. */
  lemma DurationMonotone(t: Timer, a: T.Time, b: T.Time)
    requires T.IsZero(t.finishDate) && !T.After(a, b)
    ensures t.Duration(a) <= t.Duration(b)
  {
    SaturateMonotone((a.seconds - t.startDate.seconds) * NanosPerSecond,
                     (b.seconds - t.startDate.seconds) * NanosPerSecond);
  }

  /** A timer is active on every instant from its start to its finish. */
  lemma ActiveThroughout(t: Timer, d: T.Time)
    requires !T.After(t.startDate, d) && !T.After(d, t.finishDate)
    ensures t.ActiveOnDay(d)
  {
  }

  /** A timer active on `d` (with its stamps in order) was started no later than the day of `d` and finished no earlier. */
  lemma ActiveWithinDays(t: Timer, d: T.Time)
    requires !T.After(t.startDate, t.finishDate) && t.ActiveOnDay(d)
    ensures T.DayOf(t.startDate) <= T.DayOf(d) <= T.DayOf(t.finishDate)
  {
    T.DayOfMonotone(t.startDate, t.finishDate);
    if T.Before(t.startDate, d) && T.After(t.finishDate, d) {
      T.DayOfMonotone(t.startDate, d);
      T.DayOfMonotone(d, t.finishDate);
    }
  }

  // ---------------------------------------------------------------------------
  // White space in a written line
  // ---------------------------------------------------------------------------

  /** A stamp followed by its space has no white space but that space. */
  lemma StampPlain(s: string)
    requires SpaceFree(s)
    ensures OnlyPlainSpaces(s + " ")
  {
    SpaceFreeIsPlain(s);
    OnlyPlainSpacesAppend(s, " ");
  }

  lemma HeadIsPlain(t: Timer)
    ensures OnlyPlainSpaces(t.Head()) && t.Head() != []
  {
    var sf := T.Format(t.startDate);
    var pre := if t.finished then "x " + (if !T.IsZero(t.finishDate) then T.Format(t.finishDate) + " " else "") else "";
    assert t.Head() == pre + sf + " ";
    StampPlain(sf);
    if t.finished && !T.IsZero(t.finishDate) {
      StampPlain(T.Format(t.finishDate));
      OnlyPlainSpacesAppend("x ", T.Format(t.finishDate) + " ");
    } else if t.finished {
      assert pre == "x ";
    }
    OnlyPlainSpacesAppend(pre, sf + " ");
    AppendAssoc(pre, sf, " ");
  }

  lemma LinePlain(h: string, n: string, ann: seq<string>)
    requires OnlyPlainSpaces(h) && OnlyPlainSpaces(n)
    requires forall i :: 0 <= i < |ann| ==> IsToken(ann[i])
    ensures OnlyPlainSpaces(h + (n + Spaced(ann)))
  {
    OnlyPlainSpacesSpaced(ann);
    OnlyPlainSpacesAppend(n, Spaced(ann));
    OnlyPlainSpacesAppend(h, n + Spaced(ann));
  }

  /** A written line holds no white space but plain spaces, and is never empty. */
  lemma TextIsPlain(t: Timer)
    requires TextualOk(t)
    ensures OnlyPlainSpaces(t.Text()) && t.Text() != []
  {
    TextIsHeadNotesAnnotations(t);
    AnnotationWordsAreTokens(t);
    HeadIsPlain(t);
    OnlyPlainSpacesJoin(Fields(t.notes));
    assert JoinSpace(Fields(t.notes)) == t.notes;
    LinePlain(t.Head(), t.notes, AnnotationWords(t));
  }
}
