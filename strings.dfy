/**
 * The parts of Go's `strings` package that the timer.txt codec relies on:
 * `Fields`, `Trim`, `Join`, `HasPrefix`, `TrimPrefix` and `Split`, on strings
 * seen as sequences of Unicode code points.
 */
module Strings {

  /** Go's `unicode.IsSpace`: the Latin-1 spaces plus the Unicode White_Space code points. */
  predicate IsSpace(c: char) {
    c == '\t' || c == '\n' || c == '\U{000B}' || c == '\U{000C}' || c == '\r' || c == ' '
    || c == '\U{0085}' || c == '\U{00A0}' || c == '\U{1680}'
    || ('\U{2000}' <= c <= '\U{200A}')
    || c == '\U{2028}' || c == '\U{2029}' || c == '\U{202F}' || c == '\U{205F}' || c == '\U{3000}'
  }

  /** No code point of `s` is white space. */
  predicate SpaceFree(s: string) {
    forall i :: 0 <= i < |s| ==> !IsSpace(s[i])
  }

  /** A non-empty, white-space free word: what `Fields` produces. */
  predicate IsToken(s: string) {
    s != [] && SpaceFree(s)
  }

  /** Length of the white-space free run at the start of `s`. */
  function TokenLength(s: string): (n: nat)
    ensures n <= |s|
    ensures forall i :: 0 <= i < n ==> !IsSpace(s[i])
    ensures n < |s| ==> IsSpace(s[n])
  {
    if s == [] || IsSpace(s[0]) then 0 else 1 + TokenLength(s[1..])
  }

  /** `strings.Fields`: the maximal white-space free runs of `s`, in order. */
  function Fields(s: string): (r: seq<string>)
    ensures forall i :: 0 <= i < |r| ==> IsToken(r[i])
    decreases |s|
  {
    if s == [] then []
    else if IsSpace(s[0]) then Fields(s[1..])
    else
      var n := TokenLength(s);
      [s[..n]] + Fields(s[n..])
  }

  /** A run that stops before a white-space character is not lengthened by what follows it. */
  lemma {:induction false} TokenLengthStopsAtSpace(a: string, t: string)
    requires t == [] || IsSpace(t[0])
    ensures TokenLength(a + t) == TokenLength(a)
    decreases |a|
  {
    if a == [] {
      assert a + t == t;
    } else if !IsSpace(a[0]) {
      assert (a + t)[1..] == a[1..] + t;
      TokenLengthStopsAtSpace(a[1..], t);
    }
  }

  /** A white-space character separates the words before it from those after it. */
  lemma {:induction false} FieldsSplitAtSpace(a: string, c: char, b: string)
    requires IsSpace(c)
    ensures Fields(a + [c] + b) == Fields(a) + Fields(b)
    decreases |a|
  {
    var s := a + [c] + b;
    if a == [] {
      assert s[1..] == b;
    } else if IsSpace(a[0]) {
      assert s[1..] == a[1..] + [c] + b;
      FieldsSplitAtSpace(a[1..], c, b);
    } else {
      var n := TokenLength(a);
      assert s == a + ([c] + b);
      TokenLengthStopsAtSpace(a, [c] + b);
      assert s[..n] == a[..n];
      assert s[n..] == a[n..] + [c] + b;
      FieldsSplitAtSpace(a[n..], c, b);
    }
  }

  /** A single word is its own field list. */
  lemma FieldsOfToken(w: string)
    requires IsToken(w)
    ensures Fields(w) == [w]
  {
    var n := TokenLength(w);
    assert !IsSpace(w[0]);
    assert n == |w|;
    assert w[..n] == w;
    assert w[n..] == [];
  }

  /** A word followed by nothing, or by white space, is the first field. */
  lemma FieldsAfterToken(w: string, s: string)
    requires IsToken(w)
    requires s == [] || IsSpace(s[0])
    ensures Fields(w + s) == [w] + Fields(s)
  {
    FieldsOfToken(w);
    if s == [] {
      assert w + s == w;
    } else {
      assert w + s == w + [s[0]] + s[1..];
      FieldsSplitAtSpace(w, s[0], s[1..]);
    }
  }

  /** Each word preceded by one space: the shape of the annotation tail of a timer line. */
  function Spaced(ws: seq<string>): string {
    if ws == [] then "" else " " + ws[0] + Spaced(ws[1..])
  }

  /** `strings.Join(ws, " ")`. */
  function JoinSpace(ws: seq<string>): string {
    if ws == [] then "" else ws[0] + Spaced(ws[1..])
  }

  lemma {:induction false} SpacedAppend(a: seq<string>, b: seq<string>)
    ensures Spaced(a + b) == Spaced(a) + Spaced(b)
  {
    if a != [] {
      assert (a + b)[1..] == a[1..] + b;
      SpacedAppend(a[1..], b);
    } else {
      assert a + b == b;
    }
  }

  lemma SpacedSnoc(a: seq<string>, w: string)
    ensures Spaced(a + [w]) == Spaced(a) + " " + w
  {
    SpacedAppend(a, [w]);
  }

  /** Splitting words that were written one space before each gives the words back. */
  lemma {:induction false} FieldsOfSpaced(ws: seq<string>)
    requires forall i :: 0 <= i < |ws| ==> IsToken(ws[i])
    ensures Fields(Spaced(ws)) == ws
  {
    if ws != [] {
      var rest := Spaced(ws[1..]);
      AppendAssoc(" ", ws[0], rest);
      DropFirst(' ', ws[0] + rest);
      FieldsAfterToken(ws[0], rest);
      FieldsOfSpaced(ws[1..]);
    }
  }

  /** `strings.Fields` inverts `strings.Join(_, " ")` on words. */
  lemma FieldsOfJoin(ws: seq<string>)
    requires forall i :: 0 <= i < |ws| ==> IsToken(ws[i])
    ensures Fields(JoinSpace(ws)) == ws
  {
    if ws != [] {
      FieldsAfterToken(ws[0], Spaced(ws[1..]));
      FieldsOfSpaced(ws[1..]);
    }
  }

  lemma DropFirst<X>(c: X, x: seq<X>)
    ensures ([c] + x)[1..] == x
  {
  }

  /** Concatenation is associative. */
  lemma AppendAssoc<X>(x: seq<X>, y: seq<X>, z: seq<X>)
    ensures x + (y + z) == x + y + z
  {
  }

  /** Spaces in, spaces out: every code point of the text is a plain space or not white space. */
  predicate OnlyPlainSpaces(s: string) {
    forall i :: 0 <= i < |s| ==> s[i] == ' ' || !IsSpace(s[i])
  }

  lemma OnlyPlainSpacesAppend(a: string, b: string)
    requires OnlyPlainSpaces(a) && OnlyPlainSpaces(b)
    ensures OnlyPlainSpaces(a + b)
  {
    forall i | 0 <= i < |a + b| ensures (a + b)[i] == ' ' || !IsSpace((a + b)[i]) {
      if i >= |a| { assert (a + b)[i] == b[i - |a|]; }
    }
  }

  lemma {:induction false} OnlyPlainSpacesSpaced(ws: seq<string>)
    requires forall i :: 0 <= i < |ws| ==> SpaceFree(ws[i])
    ensures OnlyPlainSpaces(Spaced(ws))
  {
    if ws != [] {
      OnlyPlainSpacesSpaced(ws[1..]);
      OnlyPlainSpacesAppend(" ", ws[0]);
      OnlyPlainSpacesAppend(" " + ws[0], Spaced(ws[1..]));
    }
  }

  /** `strings.TrimLeft(s, cutset)`. */
  function TrimLeft(s: string, cut: set<char>): (r: string)
    ensures r == [] || r[0] !in cut
    ensures |r| <= |s| && r == s[|s| - |r|..]
  {
    if s != [] && s[0] in cut then TrimLeft(s[1..], cut) else s
  }

  /** `strings.TrimRight(s, cutset)`. */
  function TrimRight(s: string, cut: set<char>): (r: string)
    ensures r == [] || r[|r| - 1] !in cut
    ensures |r| <= |s| && r == s[..|r|]
  {
    if s != [] && s[|s| - 1] in cut then TrimRight(s[..|s| - 1], cut) else s
  }

  /** `strings.Trim(s, cutset)`: drop leading and trailing code points that are in `cut`. */
  function Trim(s: string, cut: set<char>): (r: string)
    ensures r == [] || (r[0] !in cut && r[|r| - 1] !in cut)
  {
    TrimRight(TrimLeft(s, cut), cut)
  }

  lemma {:induction false} FieldsOfTrimLeft(s: string, cut: set<char>)
    requires forall c :: c in cut ==> IsSpace(c)
    ensures Fields(TrimLeft(s, cut)) == Fields(s)
    decreases |s|
  {
    if s != [] && s[0] in cut {
      FieldsOfTrimLeft(s[1..], cut);
    }
  }

  lemma {:induction false} FieldsOfTrimRight(s: string, cut: set<char>)
    requires forall c :: c in cut ==> IsSpace(c)
    ensures Fields(TrimRight(s, cut)) == Fields(s)
    decreases |s|
  {
    if s != [] && s[|s| - 1] in cut {
      var t := s[..|s| - 1];
      assert s == t + [s[|s| - 1]] + [];
      FieldsSplitAtSpace(t, s[|s| - 1], []);
      FieldsOfTrimRight(t, cut);
    }
  }

  /** Trimming white space does not change the words of a line. */
  lemma FieldsOfTrim(s: string, cut: set<char>)
    requires forall c :: c in cut ==> IsSpace(c)
    ensures Fields(Trim(s, cut)) == Fields(s)
  {
    FieldsOfTrimLeft(s, cut);
    FieldsOfTrimRight(TrimLeft(s, cut), cut);
  }

  /** `strings.HasPrefix(s, p)`. */
  predicate HasPrefix(s: string, p: string) {
    |p| <= |s| && s[..|p|] == p
  }

  /** `strings.TrimPrefix(s, p)`. */
  function TrimPrefix(s: string, p: string): (r: string)
    ensures HasPrefix(s, p) ==> p + r == s
    ensures !HasPrefix(s, p) ==> r == s
  {
    if HasPrefix(s, p) then s[|p|..] else s
  }

  /** Index of the first `c` in `s`, or `|s|` when there is none. */
  function IndexOf(s: string, c: char): (i: nat)
    ensures i <= |s|
    ensures i < |s| ==> s[i] == c
    ensures forall j :: 0 <= j < i ==> s[j] != c
  {
    if s == [] || s[0] == c then 0 else 1 + IndexOf(s[1..], c)
  }

  /** `strings.Split(s, sep)` for a one-character separator. */
  function Split(s: string, c: char): (parts: seq<string>)
    ensures |parts| >= 1
    ensures c in s <==> |parts| >= 2
    ensures forall i :: 0 <= i < |parts| ==> c !in parts[i]
    decreases |s|
  {
    var i := IndexOf(s, c);
    if i == |s| then [s] else [s[..i]] + Split(s[i + 1..], c)
  }

  /** `strings.Join(parts, sep)` for a one-character separator. */
  function JoinWith(parts: seq<string>, c: char): string
    requires |parts| >= 1
  {
    if |parts| == 1 then parts[0] else parts[0] + [c] + JoinWith(parts[1..], c)
  }

  /** Joining the parts with the separator restores the string. */
  lemma {:induction false} JoinSplit(s: string, c: char)
    ensures JoinWith(Split(s, c), c) == s
    decreases |s|
  {
    var i := IndexOf(s, c);
    if i < |s| {
      JoinSplit(s[i + 1..], c);
      assert s == s[..i] + [c] + s[i + 1..];
    }
  }

  lemma PrefixCharOfAppend(x: string, y: string, c: char)
    requires x != []
    ensures HasPrefix(x + y, [c]) <==> x[0] == c
  {
    assert (x + y)[..1] == [x[0]];
  }

  lemma JoinThree(x: string, y: string, z: string, c: char)
    ensures JoinWith([x, y, z], c) == x + [c] + y + [c] + z
  {
    assert [x, y, z][1..] == [y, z] && [y, z][1..] == [z];
    assert JoinWith([y, z], c) == y + [c] + z;
    assert x + [c] + (y + [c] + z) == x + [c] + y + [c] + z;
  }

  /** Splitting separator-free parts joined by the separator gives the parts back. */
  lemma {:induction false} SplitJoin(parts: seq<string>, c: char)
    requires |parts| >= 1
    requires forall i :: 0 <= i < |parts| ==> c !in parts[i]
    ensures Split(JoinWith(parts, c), c) == parts
    decreases |parts|
  {
    var p := parts[0];
    if |parts| == 1 {
      assert IndexOf(p, c) == |p|;
    } else {
      SplitStep(p, c, JoinWith(parts[1..], c));
      SplitJoin(parts[1..], c);
      assert parts == [p] + parts[1..];
    }
  }

  /** A separator-free prefix and the separator come off as the first part. */
  lemma SplitStep(p: string, c: char, rest: string)
    requires c !in p
    ensures Split(p + [c] + rest, c) == [p] + Split(rest, c)
  {
    var s := p + [c] + rest;
    IndexAfterFreePrefix(p, c, rest);
    assert s[..|p|] == p;
    assert s[|p| + 1..] == rest;
  }

  lemma IndexAfterFreePrefix(p: string, c: char, rest: string)
    requires c !in p
    ensures IndexOf(p + [c] + rest, c) == |p|
  {
    var s := p + [c] + rest;
    assert forall j :: 0 <= j < |p| ==> s[j] == p[j] && p[j] != c;
    assert s[|p|] == c;
  }

  /** A token has no white space at all. */
  lemma SpaceFreeIsPlain(s: string)
    requires SpaceFree(s)
    ensures OnlyPlainSpaces(s)
  {
  }

  /** Words joined by single spaces contain no white space but those spaces. */
  lemma OnlyPlainSpacesJoin(ws: seq<string>)
    requires forall i :: 0 <= i < |ws| ==> SpaceFree(ws[i])
    ensures OnlyPlainSpaces(JoinSpace(ws))
  {
    if ws != [] {
      OnlyPlainSpacesSpaced(ws[1..]);
      OnlyPlainSpacesAppend(ws[0], Spaced(ws[1..]));
    }
  }

  /** Trimming a string with none of the cut code points leaves it as it is. */
  lemma TrimNothing(s: string, cut: set<char>)
    requires forall i :: 0 <= i < |s| ==> s[i] !in cut
    ensures Trim(s, cut) == s
  {
  }

  /** Each line followed by a newline. */
  function Lines(ls: seq<string>): string
    decreases |ls|
  {
    if ls == [] then "" else ls[0] + "\n" + Lines(ls[1..])
  }

  lemma {:induction false} LinesSnoc(ls: seq<string>, l: string)
    ensures Lines(ls + [l]) == Lines(ls) + l + "\n"
    decreases |ls|
  {
    if ls != [] {
      assert (ls + [l])[1..] == ls[1..] + [l];
      LinesSnoc(ls[1..], l);
    } else {
      assert Lines([l]) == l + "\n" + Lines([]);
    }
  }

  lemma {:induction false} LinesAreJoined(ls: seq<string>)
    ensures Lines(ls) == JoinWith(ls + [""], '\n')
    decreases |ls|
  {
    if ls != [] {
      assert (ls + [""])[1..] == ls[1..] + [""];
      LinesAreJoined(ls[1..]);
    }
  }

  /** Splitting newline-free lines, each ended by a newline, at the newlines gives the lines and an empty tail. */
  lemma SplitLines(ls: seq<string>)
    requires forall i :: 0 <= i < |ls| ==> '\n' !in ls[i]
    ensures Split(Lines(ls), '\n') == ls + [""]
  {
    LinesAreJoined(ls);
    SplitJoin(ls + [""], '\n');
  }
}
