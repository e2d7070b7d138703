/**
 The two in-place editors of kustomize env files: the related-image overlay
 (internal/controller/imageparams.go) and the parameter writer `writeParamsEnv`
 (internal/controller/manifests.go).

 A file's text is a string. `Parse` is what an env file means: a map from keys to values in
 which the last duplicate wins. The editors are specified by `Overlay` and `Write`; the loops
 are the methods `OverlayExistingParams` and `WriteParamsEnv`.
 */
module EnvParams {
  import opened GoText

  // ---------- The meaning of a file ----------

  /** The assignment on a line, if it has one: blank lines and comments do not. */
  function ParseLine(line: string): Option<(string, string)> {
    var t := TrimSpace(line);
    if t == "" || t[0] == '#' then None else Cut(t, '=')
  }

  function ParseLines(lines: seq<string>): map<string, string> {
    if lines == [] then map[]
    else
      var before := ParseLines(lines[..|lines| - 1]);
      match ParseLine(lines[|lines| - 1])
      case None => before
      case Some((k, v)) => before[k := v]
  }

  function Lines(text: string): seq<string> {
    Split(text, '\n')
  }

  function Parse(text: string): map<string, string> {
    ParseLines(Lines(text))
  }

  /** The keys of the assignment lines, in order and with repetitions. */
  function LineKeys(lines: seq<string>): seq<string> {
    if lines == [] then []
    else
      var before := LineKeys(lines[..|lines| - 1]);
      match ParseLine(lines[|lines| - 1])
      case None => before
      case Some((k, _)) => before + [k]
  }

  /** A key that survives being printed and parsed again. */
  predicate CleanKey(k: string) {
    '=' !in k && (k == "" || (!IsSpace(k[0]) && k[0] != '#'))
  }

  /** A value that survives being printed and parsed again. */
  predicate CleanValue(v: string) {
    v == "" || !IsSpace(v[|v| - 1])
  }

  predicate CleanMap(m: map<string, string>) {
    forall k :: k in m ==> CleanKey(k) && CleanValue(m[k])
  }

  /** Go's strings.ContainsAny(s, "\n\r"). */
  predicate HasBreak(s: string) {
    '\n' in s || '\r' in s
  }

  predicate OneLine(s: string) {
    '\n' !in s
  }

  predicate AllOneLine(lines: seq<string>) {
    forall i :: 0 <= i < |lines| ==> OneLine(lines[i])
  }

  predicate OneLineMap(m: map<string, string>) {
    forall k :: k in m ==> OneLine(k) && OneLine(m[k])
  }

  function Assignment(k: string, v: string): string {
    k + ['='] + v
  }

  lemma AssignmentOneLine(k: string, v: string)
    requires OneLine(k) && OneLine(v)
    ensures OneLine(Assignment(k, v))
  {
  }

  lemma ParsedLine(line: string)
    requires ParseLine(line).Some?
    ensures CleanKey(ParseLine(line).value.0) && CleanValue(ParseLine(line).value.1)
    ensures OneLine(line) ==> OneLine(ParseLine(line).value.0) && OneLine(ParseLine(line).value.1)
  {
    hide TrimSpace, Cut;
    TrimSpaceMiddle(line);
    CutParts(TrimSpace(line), '=');
  }

  /** A printed assignment parses to its key, and to its value without trailing white space. */
  lemma ParseAssignment(k: string, v: string)
    requires CleanKey(k)
    ensures ParseLine(Assignment(k, v)) == Some((k, TrimRight(v)))
    ensures CleanValue(v) <==> TrimRight(v) == v
  {
    hide Cut;
    var line := Assignment(k, v);
    assert line[0] == if k == "" then '=' else k[0];
    assert TrimLeft(line) == line;
    TrimRightConcat(k + ['='], v);
    CutOf(k, TrimRight(v), '=');
  }

  lemma {:induction false} TrimRightConcat(a: string, b: string)
    requires a != "" && !IsSpace(a[|a| - 1])
    ensures TrimRight(a + b) == a + TrimRight(b)
  {
    if b == "" {
      assert a + b == a;
    } else if IsSpace(b[|b| - 1]) {
      assert (a + b)[..|a + b| - 1] == a + b[..|b| - 1];
      TrimRightConcat(a, b[..|b| - 1]);
    }
  }

  /** Whatever a file says is clean. */
  lemma {:induction false} ParsedLinesAreClean(lines: seq<string>)
    ensures CleanMap(ParseLines(lines))
    ensures AllOneLine(lines) ==> OneLineMap(ParseLines(lines))
    ensures forall k :: k in LineKeys(lines) <==> k in ParseLines(lines)
  {
    hide ParseLine, CleanKey, CleanValue, OneLine;
    if lines != [] {
      var n := |lines| - 1;
      ParsedLinesAreClean(lines[..n]);
      if ParseLine(lines[n]).Some? {
        ParsedLine(lines[n]);
      }
    }
  }

  lemma LinesAreOneLine(text: string)
    ensures AllOneLine(Lines(text))
  {
    SplitParts(text, '\n');
  }

  lemma {:induction false} ParseLinesConcat(a: seq<string>, b: seq<string>)
    ensures ParseLines(a + b) == ParseLines(a) + ParseLines(b)
    ensures LineKeys(a + b) == LineKeys(a) + LineKeys(b)
  {
    hide ParseLine;
    if b == [] {
      assert a + b == a;
    } else {
      assert (a + b)[..|a + b| - 1] == a + b[..|b| - 1];
      ParseLinesConcat(a, b[..|b| - 1]);
    }
  }

  /** An empty line says nothing. */
  lemma ParseEmptyLine(lines: seq<string>)
    ensures ParseLines(lines + [""]) == ParseLines(lines)
    ensures LineKeys(lines + [""]) == LineKeys(lines)
  {
    assert (lines + [""])[..|lines|] == lines;
  }

  lemma {:induction false} LineKeyKnown(lines: seq<string>, i: nat)
    requires i < |lines| && ParseLine(lines[i]).Some?
    ensures ParseLine(lines[i]).value.0 in ParseLines(lines)
  {
    hide ParseLine;
    if i < |lines| - 1 {
      LineKeyKnown(lines[..|lines| - 1], i);
    }
  }

  // ---------- The related-image overlay ----------

  /** m with the values of the keys that ov also has. */
  function Override(m: map<string, string>, ov: map<string, string>): map<string, string> {
    map k | k in m :: if k in ov then ov[k] else m[k]
  }

  /** The keys of the file whose value the overlay changes. */
  function Pending(m: map<string, string>, ov: map<string, string>): set<string> {
    set k | k in ov && k in m && m[k] != ov[k]
  }

  function RewriteLine(line: string, m: map<string, string>): string {
    match ParseLine(line)
    case None => line
    case Some((k, _)) => if k in m then Assignment(k, m[k]) else line
  }

  function RewriteLines(lines: seq<string>, m: map<string, string>): (out: seq<string>)
    ensures |out| == |lines|
    ensures forall i :: 0 <= i < |lines| ==> out[i] == RewriteLine(lines[i], m)
  {
    seq(|lines|, i requires 0 <= i < |lines| => RewriteLine(lines[i], m))
  }

  function EndWithNewline(s: string): string {
    if s != "" && s[|s| - 1] == '\n' then s else s + ['\n']
  }

  /** Some value that would be written has a line break. */
  predicate BadOverride(m: map<string, string>, ov: map<string, string>) {
    exists k :: k in Pending(m, ov) && HasBreak(ov[k])
  }

  /** The text after overlaying ov; Err when a value that would be written has a line break. */
  function Overlay(text: string, ov: map<string, string>): Result<string> {
    var m := Parse(text);
    if BadOverride(m, ov) then Err
    else if Pending(m, ov) == {} then Ok(text)
    else Ok(EndWithNewline(Join(RewriteLines(Lines(text), Override(m, ov)), '\n')))
  }

  /** overlayExistingParams on the content of one file; an absent file is left alone. */
  method OverlayExistingParams(file: Option<string>, overrides: map<string, string>)
    returns (r: Result<Option<string>>)
    ensures file.None? ==> r == Ok(None)
    ensures file.Some? && Overlay(file.value, overrides).Err? ==> r == Err
    ensures file.Some? && Overlay(file.value, overrides).Ok? ==> r == Ok(Some(Overlay(file.value, overrides).value))
  {
    hide ParseLine, ParseLines, Split, Join, HasBreak, Assignment, Override, Pending, BadOverride;
    if file.None? {
      return Ok(None);
    }
    var lines := Lines(file.value);
    var m := ReadAssignments(lines);
    var existing, updated, ok := ApplyOverrides(m, overrides);
    if !ok {
      return Err;
    }
    if !updated {
      return Ok(Some(file.value));
    }

    var out: seq<string> := [];
    for i := 0 to |lines|
      invariant |out| == i
      invariant forall j :: 0 <= j < i ==> out[j] == RewriteLine(lines[j], existing)
    {
      match ParseLine(lines[i]) {
        case None => out := out + [lines[i]];
        case Some((k, _)) => out := out + [if k in existing then Assignment(k, existing[k]) else lines[i]];
      }
    }
    assert out == RewriteLines(lines, existing);
    return Ok(Some(EndWithNewline(Join(out, '\n'))));
  }

  /** The loop over the overrides, in whatever order the map yields them. */
  method ApplyOverrides(m: map<string, string>, ov: map<string, string>)
    returns (existing: map<string, string>, updated: bool, ok: bool)
    ensures ok <==> !BadOverride(m, ov)
    ensures ok ==> existing == Override(m, ov) && (updated <==> Pending(m, ov) != {})
  {
    hide HasBreak;
    existing, updated, ok := m, false, true;
    var todo := ov.Keys;
    while todo != {}
      invariant todo <= ov.Keys && ok
      invariant existing == map k | k in m :: if k in ov && k !in todo then ov[k] else m[k]
      invariant updated <==> Pending(m, ov) - todo != {}
      invariant forall k :: k in Pending(m, ov) && k !in todo ==> !HasBreak(ov[k])
    {
      var k :| k in todo;
      assert k in existing ==> existing[k] == m[k];
      if k in existing && existing[k] != ov[k] {
        assert k in Pending(m, ov);
        if HasBreak(ov[k]) {
          ok := false;
          return;
        }
        existing := existing[k := ov[k]];
        updated := true;
        assert k in Pending(m, ov) - (todo - {k});
      }
      todo := todo - {k};
    }
  }

  /** The overlay's reading loop. */
  method ReadAssignments(lines: seq<string>) returns (existing: map<string, string>)
    ensures existing == ParseLines(lines)
  {
    hide ParseLine;
    existing := map[];
    for i := 0 to |lines|
      invariant existing == ParseLines(lines[..i])
    {
      assert lines[..i + 1][..i] == lines[..i];
      match ParseLine(lines[i]) {
        case None =>
        case Some((k, v)) => existing := existing[k := v];
      }
    }
    assert lines[..|lines|] == lines;
  }

  /** relatedImagesFromEnv: the mapped variables that are set to something other than white space. */
  function RelatedImages(table: map<string, string>, env: map<string, string>): map<string, string> {
    map k | k in table && table[k] in env && TrimSpace(env[table[k]]) != "" :: TrimSpace(env[table[k]])
  }

  /** Rewriting lines changes values and never keys. */
  lemma {:induction false} RewriteParses(lines: seq<string>, m: map<string, string>)
    requires forall k :: k in ParseLines(lines) ==> k in m
    ensures ParseLines(RewriteLines(lines, m)) == map k | k in ParseLines(lines) :: TrimRight(m[k])
  {
    hide ParseLine, CleanKey, CleanValue, TrimRight, Assignment;
    if lines != [] {
      var n := |lines| - 1;
      RewriteParses(lines[..n], m);
      assert RewriteLines(lines, m)[..n] == RewriteLines(lines[..n], m);
      match ParseLine(lines[n]) {
        case None =>
        case Some((k, v)) =>
          ParsedLine(lines[n]);
          ParseAssignment(k, m[k]);
      }
    }
  }

  /** The lines of text that ends with a newline. */
  function Closed(lines: seq<string>): seq<string> {
    if |lines| >= 2 && lines[|lines| - 1] == "" then lines else lines + [""]
  }

  lemma ParseClosed(out: seq<string>)
    ensures ParseLines(Closed(out)) == ParseLines(out)
  {
    hide ParseLines;
    ParseEmptyLine(out);
  }

  lemma SplitEndWithNewline(text: string)
    ensures Split(EndWithNewline(text), '\n') == Closed(Split(text, '\n'))
  {
    hide Split;
    SplitLast(text, '\n');
    if text != "" && text[|text| - 1] == '\n' {
    } else {
      assert EndWithNewline(text) == text + ['\n'];
      SplitSnoc(text, '\n');
    }
  }

  lemma LinesEndWithNewline(out: seq<string>)
    requires |out| >= 1 && AllOneLine(out)
    ensures Lines(EndWithNewline(Join(out, '\n'))) == Closed(out)
  {
    hide Split, Join, EndWithNewline, Closed, AllOneLine;
    SplitOneLines(out);
    SplitEndWithNewline(Join(out, '\n'));
  }

  lemma SplitOneLines(out: seq<string>)
    requires |out| >= 1 && AllOneLine(out)
    ensures Split(Join(out, '\n'), '\n') == out
  {
    hide Split, Join;
    assert forall i :: 0 <= i < |out| ==> OneLine(out[i]);
    SplitJoin(out, '\n');
  }

  function OverlaidLines(text: string, ov: map<string, string>): (out: seq<string>)
    ensures |out| == |Lines(text)|
  {
    RewriteLines(Lines(text), Override(Parse(text), ov))
  }

  lemma OverlaidLinesAreOneLine(text: string, ov: map<string, string>)
    requires !BadOverride(Parse(text), ov)
    ensures AllOneLine(OverlaidLines(text, ov))
  {
    hide ParseLine, ParseLines, Split, CleanMap, Assignment;
    var lines, m := Lines(text), Parse(text);
    LinesAreOneLine(text);
    ParsedLinesAreClean(lines);
    forall i | 0 <= i < |lines| ensures OneLine(OverlaidLines(text, ov)[i]) {
      match ParseLine(lines[i]) {
        case None =>
        case Some((k, v)) =>
          ParsedLine(lines[i]);
          LineKeyKnown(lines, i);
          assert k in ov && ov[k] != m[k] ==> k in Pending(m, ov) && !HasBreak(ov[k]);
          assert OneLine(Override(m, ov)[k]);
          AssignmentOneLine(k, Override(m, ov)[k]);
      }
    }
  }

  /** The lines of the overlaid text. */
  lemma OverlayLines(text: string, ov: map<string, string>)
    requires Overlay(text, ov).Ok? && Pending(Parse(text), ov) != {}
    ensures Lines(Overlay(text, ov).value) == Closed(OverlaidLines(text, ov))
    ensures Parse(Overlay(text, ov).value) == ParseLines(OverlaidLines(text, ov))
  {
    hide ParseLines, Split, Join, EndWithNewline, Closed, RewriteLines, Pending, BadOverride;
    OverlaidLinesAreOneLine(text, ov);
    LinesEndWithNewline(OverlaidLines(text, ov));
    ParseClosed(OverlaidLines(text, ov));
  }

  /** Line i of the overlaid text against line i of the file. */
  predicate LineOverlaid(line: string, out: string, m: map<string, string>, ov: map<string, string>) {
    match ParseLine(line)
    case None => out == line
    case Some((k, _)) => out == line || (k in m && out == Assignment(k, if k in ov then ov[k] else m[k]))
  }

  /** Every comment, blank line and line without '=' stays verbatim at its index, assignments
      stay assignments to the same key, and at most one trailing newline is added. */
  lemma OverlayKeepsOtherLines(text: string, ov: map<string, string>)
    requires Overlay(text, ov).Ok?
    ensures |Lines(Overlay(text, ov).value)| >= |Lines(text)|
    ensures Lines(Overlay(text, ov).value)[|Lines(text)|..] <= [""]
    ensures forall i :: 0 <= i < |Lines(text)| ==>
      LineOverlaid(Lines(text)[i], Lines(Overlay(text, ov).value)[i], Parse(text), ov)
  {
    hide ParseLine, ParseLines, Split, Join, Assignment, EndWithNewline;
    if Pending(Parse(text), ov) != {} {
      OverlayLines(text, ov);
    }
  }

  lemma TrimmedValues(text: string)
    ensures forall k :: k in Parse(text) ==> TrimRight(Parse(text)[k]) == Parse(text)[k]
  {
    hide ParseLine, ParseLines, Split, TrimRight, CleanKey, CleanValue, Assignment;
    ParsedLinesAreClean(Lines(text));
    forall k | k in Parse(text) ensures TrimRight(Parse(text)[k]) == Parse(text)[k] {
      ParseAssignment(k, Parse(text)[k]);
    }
  }

  /** The values an env file shows after the overlay: an overridden key has the new value, as
      far as a file can hold it (without trailing white space); the others keep theirs. */
  function Overlaid(m: map<string, string>, ov: map<string, string>): map<string, string> {
    map k | k in m :: if k in ov && ov[k] != m[k] then TrimRight(ov[k]) else m[k]
  }

  lemma OverlaidIsTrimmedOverride(m: map<string, string>, ov: map<string, string>)
    requires forall k :: k in m ==> TrimRight(m[k]) == m[k]
    ensures (map k | k in m :: TrimRight(Override(m, ov)[k])) == Overlaid(m, ov)
    ensures Pending(m, ov) == {} ==> m == Overlaid(m, ov)
  {
    hide TrimRight;
    forall k | k in m ensures TrimRight(Override(m, ov)[k]) == Overlaid(m, ov)[k] {
      assert k in ov ==> (k in Pending(m, ov) <==> ov[k] != m[k]);
    }
    if Pending(m, ov) == {} {
      forall k | k in m ensures m[k] == Overlaid(m, ov)[k] {
        assert k in ov ==> (k in Pending(m, ov) <==> ov[k] != m[k]);
      }
    }
  }

  /** What the overlaid file says. */
  lemma OverlayMeaning(text: string, ov: map<string, string>)
    requires Overlay(text, ov).Ok?
    ensures Parse(Overlay(text, ov).value) == Overlaid(Parse(text), ov)
  {
    hide ParseLine, ParseLines, Split, Join, TrimRight, RewriteLines, EndWithNewline, BadOverride, Override, Overlaid,
         Pending, Lines;
    TrimmedValues(text);
    OverlaidIsTrimmedOverride(Parse(text), ov);
    if Pending(Parse(text), ov) != {} {
      OverlayLines(text, ov);
      assert forall k :: k in Override(Parse(text), ov) <==> k in Parse(text) by { OverrideKeys(Parse(text), ov); }
      RewriteParses(Lines(text), Override(Parse(text), ov));
    }
  }

  lemma OverrideKeys(m: map<string, string>, ov: map<string, string>)
    ensures Override(m, ov).Keys == m.Keys
  {
  }

  lemma RewrittenLineStays(line: string, m: map<string, string>, m': map<string, string>)
    requires ParseLine(line).Some? ==> ParseLine(line).value.0 in m
    requires forall k :: k in m ==> k in m' && m'[k] == m[k]
    ensures RewriteLine(RewriteLine(line, m), m') == RewriteLine(line, m)
  {
    hide ParseLine, CleanKey, Assignment;
    if ParseLine(line).Some? {
      ParsedLine(line);
      ParseAssignment(ParseLine(line).value.0, m[ParseLine(line).value.0]);
    }
  }

  /** Running the overlay again changes no byte, whatever the overriding values. */
  lemma OverlayIdempotent(text: string, ov: map<string, string>)
    requires Overlay(text, ov).Ok?
    ensures Overlay(Overlay(text, ov).value, ov) == Overlay(text, ov)
  {
    hide ParseLine, ParseLines, Split, Join, TrimRight, RewriteLine, Assignment;
    var lines, m := Lines(text), Parse(text);
    if Pending(m, ov) != {} {
      var text' := Overlay(text, ov).value;
      var m', out := Parse(text'), OverlaidLines(text, ov);
      OverlayLines(text, ov);
      OverlayMeaning(text, ov);
      forall i | 0 <= i < |lines| ensures RewriteLine(out[i], Override(m', ov)) == out[i] {
        if ParseLine(lines[i]).Some? { LineKeyKnown(lines, i); }
        RewrittenLineStays(lines[i], Override(m, ov), Override(m', ov));
      }
      assert RewriteLine("", Override(m', ov)) == "" by { RewriteEmpty(Override(m', ov)); }
      assert RewriteLines(Lines(text'), Override(m', ov)) == Lines(text');
      JoinSplit(text', '\n');
      assert EndWithNewline(text') == text';
      assert Pending(m', ov) <= Pending(m, ov);
      assert !BadOverride(m', ov);
    }
  }

  lemma RewriteEmpty(m: map<string, string>)
    ensures RewriteLine("", m) == ""
  {
  }

  // ---------- The parameter writer ----------

  /** The byte order of Go strings, which on UTF-8 is the order of code points. */
  predicate Before(a: string, b: string) {
    if b == "" then false
    else if a == "" then true
    else a[0] < b[0] || (a[0] == b[0] && Before(a[1..], b[1..]))
  }

  lemma {:induction false} BeforeTotal(a: string, b: string)
    ensures Before(a, b) || Before(b, a) || a == b
    ensures !(Before(a, b) && Before(b, a))
  {
    if a != "" && b != "" {
      BeforeTotal(a[1..], b[1..]);
      assert a == [a[0]] + a[1..] && b == [b[0]] + b[1..];
    }
  }

  lemma {:induction false} BeforeTransitive(a: string, b: string, c: string)
    requires Before(a, b) && Before(b, c)
    ensures Before(a, c)
  {
    if a != "" && a[0] == b[0] == c[0] {
      BeforeTransitive(a[1..], b[1..], c[1..]);
    }
  }

  /** In increasing order, hence without repetitions. */
  predicate Increasing(s: seq<string>) {
    forall i, j :: 0 <= i < j < |s| ==> Before(s[i], s[j])
  }

  function Insert(k: string, s: seq<string>): seq<string> {
    if s == [] || Before(k, s[0]) then [k] + s else [s[0]] + Insert(k, s[1..])
  }

  lemma {:induction false} InsertIncreasing(k: string, s: seq<string>)
    requires Increasing(s) && k !in s
    ensures Increasing(Insert(k, s))
    ensures forall x :: x in Insert(k, s) <==> x == k || x in s
  {
    hide Before;
    if s != [] {
      BeforeTotal(k, s[0]);
      if Before(k, s[0]) {
        forall j | 0 < j < |s| ensures Before(k, s[j]) {
          BeforeTransitive(k, s[0], s[j]);
        }
      } else {
        var rest := Insert(k, s[1..]);
        InsertIncreasing(k, s[1..]);
        forall j | 0 <= j < |rest| ensures Before(s[0], rest[j]) {
          assert rest[j] in rest;
          assert rest[j] == k || exists i :: 1 <= i < |s| && s[i] == rest[j];
        }
        assert s == [s[0]] + s[1..];
      }
    }
  }

  predicate Distinct(s: seq<string>) {
    forall i, j :: 0 <= i < j < |s| ==> s[i] != s[j]
  }

  /** sort.Strings on distinct keys. */
  function SortStrings(s: seq<string>): seq<string> {
    if s == [] then [] else Insert(s[0], SortStrings(s[1..]))
  }

  lemma {:induction false} SortIncreasing(s: seq<string>)
    requires Distinct(s)
    ensures Increasing(SortStrings(s))
    ensures forall x :: x in SortStrings(s) <==> x in s
  {
    hide Before, Insert;
    if s != [] {
      SortIncreasing(s[1..]);
      assert s == [s[0]] + s[1..];
      assert s[0] !in s[1..];
      InsertIncreasing(s[0], SortStrings(s[1..]));
    }
  }

  /** Sorting forgets the order in which the keys came. */
  lemma {:induction false} IncreasingUnique(a: seq<string>, b: seq<string>)
    requires Increasing(a) && Increasing(b)
    requires forall x :: x in a <==> x in b
    ensures a == b
  {
    hide Before;
    assert b != [] ==> b[0] in b;
    if a != [] {
      assert a[0] in b && b[0] in a;
      BeforeTotal(a[0], b[0]);
      assert a[0] == b[0];
      BeforeTotal(a[0], a[0]);
      forall x ensures x in a[1..] <==> x in b[1..] {
        if x in a[1..] {
          assert Before(a[0], x) && x in a;
        }
        if x in b[1..] {
          assert Before(b[0], x) && x in b;
        }
        assert x in a <==> x == a[0] || x in a[1..];
        assert x in b <==> x == b[0] || x in b[1..];
      }
      IncreasingUnique(a[1..], b[1..]);
      assert a == [a[0]] + a[1..] && b == [b[0]] + b[1..];
    }
  }

  ghost function ListOf(s: set<string>): (r: seq<string>)
    ensures forall x :: x in r <==> x in s
    ensures Distinct(r)
  {
    if s == {} then [] else var x :| x in s; [x] + ListOf(s - {x})
  }

  /** The elements of s in increasing order. */
  ghost function Sorted(s: set<string>): (r: seq<string>)
    ensures Increasing(r) && forall x :: x in r <==> x in s
  {
    SortIncreasing(ListOf(s));
    SortStrings(ListOf(s))
  }

  function PrintLines(keys: seq<string>, m: map<string, string>): (lines: seq<string>)
    requires forall k :: k in keys ==> k in m
    ensures |lines| == |keys|
    ensures forall i :: 0 <= i < |keys| ==> lines[i] == Assignment(keys[i], m[keys[i]])
  {
    seq(|keys|, i requires 0 <= i < |keys| => Assignment(keys[i], m[keys[i]]))
  }

  predicate BadParam(k: string, v: string) {
    HasBreak(k) || '=' in k || HasBreak(v)
  }

  /** The keys printed for a file: its own, then the new ones sorted. */
  ghost function WrittenKeys(text: string, params: map<string, string>): (keys: seq<string>)
    ensures forall k :: k in keys <==> k in Parse(text) + params
  {
    hide ParseLines, Split;
    ParsedLinesAreClean(Lines(text));
    LineKeys(Lines(text)) + Sorted(params.Keys - Parse(text).Keys)
  }

  ghost function WrittenLines(text: string, params: map<string, string>): seq<string> {
    PrintLines(WrittenKeys(text, params), Parse(text) + params)
  }

  /** The text writeParamsEnv leaves; Err when a parameter cannot be printed on one line. */
  ghost function Write(text: string, params: map<string, string>): Result<string> {
    if exists k :: k in params && BadParam(k, params[k]) then Err
    else Ok(Join(WrittenLines(text, params), '\n') + ['\n'])
  }

  /** writeParamsEnv on the content of one file; a file that cannot be read counts as empty. */
  method WriteParamsEnv(file: Option<string>, params: map<string, string>) returns (r: Result<string>)
    ensures r == Write(if file.Some? then file.value else "", params)
  {
    hide ParseLine, ParseLines, LineKeys, Split, Join, Increasing, BadParam, Assignment;
    var text := if file.Some? then file.value else "";
    var m, orderedKeys := ReadOrderedAssignments(Lines(text));
    var existing, newKeys, ok := MergeParams(m, params);
    if !ok {
      return Err;
    }
    SortIncreasing(newKeys);
    IncreasingUnique(SortStrings(newKeys), Sorted(params.Keys - m.Keys));
    orderedKeys := orderedKeys + SortStrings(newKeys);
    assert orderedKeys == WrittenKeys(text, params);

    var out: seq<string> := [];
    for i := 0 to |orderedKeys|
      invariant |out| == i
      invariant forall j :: 0 <= j < i ==> out[j] == Assignment(orderedKeys[j], existing[orderedKeys[j]])
    {
      assert orderedKeys[i] in WrittenKeys(text, params);
      out := out + [Assignment(orderedKeys[i], existing[orderedKeys[i]])];
    }
    assert out == WrittenLines(text, params);
    return Ok(Join(out, '\n') + ['\n']);
  }

  /** The reading loop that also keeps the order of the keys. */
  method ReadOrderedAssignments(lines: seq<string>) returns (existing: map<string, string>, orderedKeys: seq<string>)
    ensures existing == ParseLines(lines) && orderedKeys == LineKeys(lines)
  {
    hide ParseLine;
    existing, orderedKeys := map[], [];
    for i := 0 to |lines|
      invariant existing == ParseLines(lines[..i])
      invariant orderedKeys == LineKeys(lines[..i])
    {
      assert lines[..i + 1][..i] == lines[..i];
      match ParseLine(lines[i]) {
        case None =>
        case Some((k, v)) => existing, orderedKeys := existing[k := v], orderedKeys + [k];
      }
    }
    assert lines[..|lines|] == lines;
  }

  /** The loop over the parameters, in whatever order the map yields them. */
  method MergeParams(m: map<string, string>, params: map<string, string>)
    returns (existing: map<string, string>, newKeys: seq<string>, ok: bool)
    ensures !ok <==> exists k :: k in params && BadParam(k, params[k])
    ensures ok ==> existing == m + params
    ensures ok ==> Distinct(newKeys) && forall k :: k in newKeys <==> k in params && k !in m
  {
    hide BadParam;
    existing, newKeys, ok := m, [], true;
    var todo := params.Keys;
    while todo != {}
      invariant todo <= params.Keys && ok
      invariant existing.Keys == m.Keys + (params.Keys - todo)
      invariant forall k :: k in existing ==> existing[k] == if k in params && k !in todo then params[k] else m[k]
      invariant forall k :: k in newKeys <==> k in params && k !in todo && k !in m
      invariant Distinct(newKeys)
      invariant forall k :: k in params && k !in todo ==> !BadParam(k, params[k])
    {
      var k :| k in todo;
      if BadParam(k, params[k]) {
        ok := false;
        return;
      }
      if k !in existing {
        newKeys := newKeys + [k];
      }
      existing := existing[k := params[k]];
      todo := todo - {k};
    }
  }

  /** The lines of the written text say what its printed assignments say. */
  lemma WriteLines(text: string, params: map<string, string>)
    requires Write(text, params).Ok?
    ensures Parse(Write(text, params).value) == ParseLines(WrittenLines(text, params))
    ensures LineKeys(Lines(Write(text, params).value)) == LineKeys(WrittenLines(text, params))
  {
    hide ParseLine, Split, Join, ParseLines, LineKeys, Assignment, WrittenKeys;
    var m, keys, out := Parse(text) + params, WrittenKeys(text, params), WrittenLines(text, params);
    LinesAreOneLine(text);
    ParsedLinesAreClean(Lines(text));
    forall i | 0 <= i < |out| ensures OneLine(out[i]) && '\n' !in out[i] {
      assert keys[i] in keys;
      assert keys[i] in params ==> !BadParam(keys[i], params[keys[i]]);
      AssignmentOneLine(keys[i], m[keys[i]]);
    }
    var body := Join(out, '\n');
    SplitSnoc(body, '\n');
    if out == [] {
      assert Lines(Write(text, params).value) == ([] + [""]) + [""] by { EmptyBody(); }
      ParseEmptyLine([]);
      ParseEmptyLine([] + [""]);
    } else {
      SplitJoin(out, '\n');
      ParseEmptyLine(out);
    }
  }

  lemma EmptyBody()
    ensures Lines(Join([], '\n') + ['\n']) == ([] + [""]) + [""]
  {
    SplitSnoc("", '\n');
    assert Join([], '\n') == "";
  }

  lemma PrintLast(keys: seq<string>, m: map<string, string>)
    requires keys != [] && forall k :: k in keys ==> k in m
    ensures keys[|keys| - 1] in keys && forall k :: k in keys[..|keys| - 1] ==> k in keys
    ensures forall k :: k in keys ==> k in keys[..|keys| - 1] || k == keys[|keys| - 1]
    ensures PrintLines(keys, m)[..|keys| - 1] == PrintLines(keys[..|keys| - 1], m)
  {
    assert keys == keys[..|keys| - 1] + [keys[|keys| - 1]];
  }

  lemma {:induction false} PrintedParses(keys: seq<string>, m: map<string, string>)
    requires forall k :: k in keys ==> k in m && CleanKey(k)
    ensures ParseLines(PrintLines(keys, m)) == map k | k in keys :: TrimRight(m[k])
    ensures LineKeys(PrintLines(keys, m)) == keys
  {
    hide ParseLine, CleanKey, CleanValue, TrimRight, Assignment, PrintLines;
    if keys != [] {
      var n := |keys| - 1;
      PrintLast(keys, m);
      PrintedParses(keys[..n], m);
      ParseAssignment(keys[n], m[keys[n]]);
    }
  }

  /** The written file says the old file overridden by the parameters, exactly when every
      parameter is one an env file can hold. */
  lemma WriteMeaning(text: string, params: map<string, string>)
    requires Write(text, params).Ok?
    ensures Parse(Write(text, params).value) == Parse(text) + params <==> CleanMap(params)
  {
    hide ParseLine, ParseLines, Split, Join, TrimRight, CleanKey, CleanValue, WrittenKeys, PrintLines, Lines, Write,
         Assignment;
    var keys, m := WrittenKeys(text, params), Parse(text) + params;
    ParsedLinesAreClean(Lines(text));
    ParsedLinesAreClean(Lines(Write(text, params).value));
    WriteLines(text, params);
    if CleanMap(params) {
      PrintedParses(keys, m);
      forall k | k in m ensures TrimRight(m[k]) == m[k] {
        ParseAssignment(k, m[k]);
      }
    } else {
      var k :| k in params && !(CleanKey(k) && CleanValue(params[k]));
      assert k in m && m[k] == params[k];
    }
  }

  // ---------- Writing twice ----------

  /** Printed, the key makes its line a comment. */
  predicate Commented(k: string) {
    TrimLeft(k) != "" && TrimLeft(k)[0] == '#'
  }

  lemma {:induction false} TrimLeftConcat(a: string, b: string)
    requires b != "" && !IsSpace(b[0])
    ensures TrimLeft(a + b) == TrimLeft(a) + b
  {
    if a == "" {
      assert a + b == b;
    } else if IsSpace(a[0]) {
      assert (a + b)[1..] == a[1..] + b;
      TrimLeftConcat(a[1..], b);
    }
  }

  lemma TrimmedKey(k: string)
    requires '=' !in k && !Commented(k)
    ensures CleanKey(TrimLeft(k))
  {
  }

  lemma CleanKeyStays(k: string)
    requires CleanKey(k)
    ensures TrimLeft(k) == k && !Commented(k)
  {
  }

  lemma AssignmentTrimmed(k: string, v: string)
    ensures TrimSpace(Assignment(k, v)) == TrimLeft(k) + ['='] + TrimRight(v)
  {
    hide IsSpace, TrimLeft, TrimRight;
    EqualsIsNoSpace();
    var key := TrimLeft(k);
    Associative(k, ['='], v);
    TrimLeftConcat(k, ['='] + v);
    Associative(key, ['='], v);
    var head := key + ['='];
    assert head[|head| - 1] == '=';
    TrimRightConcat(head, v);
  }

  lemma Associative(a: string, b: string, c: string)
    ensures a + b + c == a + (b + c)
  {
  }

  /** What any printed assignment parses to. */
  lemma ParseAnyAssignment(k: string, v: string)
    requires '=' !in k
    ensures ParseLine(Assignment(k, v)) == if Commented(k) then None else Some((TrimLeft(k), TrimRight(v)))
  {
    hide Cut, TrimLeft, TrimRight, TrimSpace, Assignment;
    var key := TrimLeft(k);
    AssignmentTrimmed(k, v);
    var line := key + ['='] + TrimRight(v);
    assert line != "" && line[0] == if key == "" then '=' else key[0];
    CutOf(key, TrimRight(v), '=');
  }

  lemma EqualsIsNoSpace()
    ensures !IsSpace('=')
  {
  }

  /** The keys that printed lines show when read again. */
  function Kept(keys: seq<string>): seq<string> {
    if keys == [] then []
    else Kept(keys[..|keys| - 1]) + (if Commented(keys[|keys| - 1]) then [] else [TrimLeft(keys[|keys| - 1])])
  }

  lemma {:induction false} PrintedKeys(keys: seq<string>, m: map<string, string>)
    requires forall k :: k in keys ==> k in m && '=' !in k
    ensures LineKeys(PrintLines(keys, m)) == Kept(keys)
  {
    hide ParseLine, TrimRight, TrimLeft, Assignment, Commented, PrintLines;
    if keys != [] {
      var n := |keys| - 1;
      PrintLast(keys, m);
      PrintedKeys(keys[..n], m);
      ParseAnyAssignment(keys[n], m[keys[n]]);
      assert Kept(keys[..n]) + [] == Kept(keys[..n]);
    }
  }

  lemma {:induction false} KeptConcat(a: seq<string>, b: seq<string>)
    ensures Kept(a + b) == Kept(a) + Kept(b)
  {
    hide Commented, TrimLeft;
    if b == [] {
      assert a + b == a;
    } else {
      assert (a + b)[..|a + b| - 1] == a + b[..|b| - 1];
      KeptConcat(a, b[..|b| - 1]);
    }
  }

  lemma {:induction false} KeptClean(keys: seq<string>)
    requires forall k :: k in keys ==> CleanKey(k)
    ensures Kept(keys) == keys
  {
    hide Commented, TrimLeft, CleanKey;
    if keys != [] {
      var n := |keys| - 1;
      assert keys == keys[..n] + [keys[n]];
      KeptClean(keys[..n]);
      CleanKeyStays(keys[n]);
    }
  }

  lemma {:induction false} KeptElements(keys: seq<string>, x: string)
    requires forall k :: k in keys ==> '=' !in k
    ensures x in Kept(keys) <==> exists i :: 0 <= i < |keys| && !Commented(keys[i]) && TrimLeft(keys[i]) == x
    ensures x in Kept(keys) ==> CleanKey(x)
  {
    hide Commented, TrimLeft, CleanKey;
    if keys != [] {
      var n := |keys| - 1;
      assert keys == keys[..n] + [keys[n]];
      KeptElements(keys[..n], x);
      assert forall i :: 0 <= i < n ==> keys[..n][i] == keys[i];
      if !Commented(keys[n]) {
        TrimmedKey(keys[n]);
      }
    }
  }

  /** Two keys that read the same give a repetition. */
  lemma {:induction false} KeptTwice(keys: seq<string>, i: nat, j: nat)
    requires i < j < |keys| && forall k :: k in keys ==> '=' !in k
    requires !Commented(keys[i]) && !Commented(keys[j]) && TrimLeft(keys[i]) == TrimLeft(keys[j])
    ensures !Distinct(Kept(keys))
  {
    hide Commented, TrimLeft, CleanKey;
    var n := |keys| - 1;
    assert keys == keys[..n] + [keys[n]];
    if j == n {
      KeptElements(keys[..n], TrimLeft(keys[n]));
      assert keys[..n][i] == keys[i];
      var p :| 0 <= p < |Kept(keys[..n])| && Kept(keys[..n])[p] == TrimLeft(keys[n]);
      assert Kept(keys)[p] == Kept(keys)[|Kept(keys)| - 1];
    } else {
      KeptTwice(keys[..n], i, j);
      var p, q :| 0 <= p < q < |Kept(keys[..n])| && Kept(keys[..n])[p] == Kept(keys[..n])[q];
      assert Kept(keys)[p] == Kept(keys)[q];
    }
  }

  function Unclean(params: map<string, string>): set<string> {
    set k | k in params && !CleanKey(k)
  }

  /** The parameters a file does not have yet, in order. */
  ghost function NewKeys(text: string, params: map<string, string>): seq<string> {
    Sorted(params.Keys - Parse(text).Keys)
  }

  lemma WrittenKeysPrintable(text: string, params: map<string, string>)
    requires Write(text, params).Ok?
    ensures forall k :: k in WrittenKeys(text, params) ==> '=' !in k
    ensures forall k :: k in LineKeys(Lines(text)) ==> CleanKey(k)
  {
    hide ParseLines, LineKeys, Lines, IsSpace;
    ParsedLinesAreClean(Lines(text));
    forall k | k in WrittenKeys(text, params) ensures '=' !in k {
      assert k in params ==> !BadParam(k, params[k]);
      assert k in Parse(text) ==> CleanKey(k);
    }
  }

  /** The keys of the second write: those of the first as they read, then every unclean key again. */
  lemma SecondKeys(text: string, params: map<string, string>)
    requires Write(text, params).Ok?
    ensures WrittenKeys(Write(text, params).value, params)
         == LineKeys(Lines(text)) + Kept(NewKeys(text, params)) + Sorted(Unclean(params))
  {
    hide ParseLine, ParseLines, Split, Join, TrimRight, TrimLeft, CleanKey, Commented, PrintLines, Lines, Assignment,
         LineKeys, Write, WrittenLines;
    var text' := Write(text, params).value;
    var own, more, m := LineKeys(Lines(text)), NewKeys(text, params), Parse(text) + params;
    var keys := WrittenKeys(text, params);
    assert keys == own + more;
    WrittenKeysPrintable(text, params);
    WriteLines(text, params);
    assert LineKeys(WrittenLines(text, params)) == Kept(keys) by { WrittenLineKeys(text, params); }
    KeptConcat(own, more);
    KeptClean(own);
    ParsedLinesAreClean(Lines(text'));
    forall k ensures k in params.Keys - Parse(text').Keys <==> k in Unclean(params) {
      KeptElements(keys, k);
      if k in params && CleanKey(k) {
        CleanKeyStays(k);
        assert k in keys;
      }
    }
    IncreasingUnique(Sorted(params.Keys - Parse(text').Keys), Sorted(Unclean(params)));
  }

  lemma WrittenLineKeys(text: string, params: map<string, string>)
    requires Write(text, params).Ok?
    ensures LineKeys(WrittenLines(text, params)) == Kept(WrittenKeys(text, params))
  {
    hide WrittenKeys, Kept, LineKeys, Parse, Write;
    WrittenKeysPrintable(text, params);
    PrintedKeys(WrittenKeys(text, params), Parse(text) + params);
  }

  /** The parameters come out of a second write where the first put them: a key an env file cannot
      hold is read as a comment, and every new key it can hold sorts before it. */
  predicate Tidy(text: string, params: map<string, string>) {
    forall k :: k in params && !CleanKey(k) ==>
      Commented(k) && forall j :: j in params && CleanKey(j) && j !in Parse(text) ==> Before(j, k)
  }

  lemma TidyKeys(text: string, params: map<string, string>)
    requires Write(text, params).Ok?
    ensures WrittenKeys(Write(text, params).value, params) == WrittenKeys(text, params) <==> Tidy(text, params)
  {
    hide Parse, CleanKey, Lines, LineKeys, Write, Tidy, Kept, NewKeys, Unclean;
    var own, more, last := LineKeys(Lines(text)), NewKeys(text, params), Sorted(Unclean(params));
    SecondKeys(text, params);
    WrittenByParts(text, params);
    WrittenKeysPrintable(text, params);
    assert forall k :: k in more ==> k in own + more;
    SameTail(own, Kept(more), last, more);
    if Tidy(text, params) {
      TidyOrder(text, params);
    } else if Kept(more) + last == more {
      OrderTidy(text, params);
    }
  }

  lemma WrittenByParts(text: string, params: map<string, string>)
    ensures WrittenKeys(text, params) == LineKeys(Lines(text)) + NewKeys(text, params)
    ensures forall k :: k in Parse(text) ==> CleanKey(k)
  {
    hide ParseLines, LineKeys, Lines, CleanKey;
    ParsedLinesAreClean(Lines(text));
  }

  lemma SameTail(own: seq<string>, a: seq<string>, b: seq<string>, c: seq<string>)
    ensures own + a + b == own + c <==> a + b == c
  {
    assert own + a + b == own + (a + b);
    assert (own + (a + b))[|own|..] == a + b && (own + c)[|own|..] == c;
  }

  lemma TidyOrder(text: string, params: map<string, string>)
    requires Tidy(text, params) && forall k :: k in Parse(text) ==> CleanKey(k)
    ensures Kept(NewKeys(text, params)) + Sorted(Unclean(params)) == NewKeys(text, params)
  {
    hide ParseLines, TrimLeft, CleanKey, Commented, Lines, Before;
    var more, last := NewKeys(text, params), Sorted(Unclean(params));
    var clean := Sorted(set k | k in params && CleanKey(k) && k !in Parse(text));
    forall i, j | 0 <= i < j < |clean + last| ensures Before((clean + last)[i], (clean + last)[j]) {
      if i < |clean| <= j {
        assert clean[i] in clean && last[j - |clean|] in last;
      }
    }
    assert forall x :: x in more <==> x in clean + last;
    IncreasingUnique(more, clean + last);
    KeptConcat(clean, last);
    KeptClean(clean);
    KeptNone(last);
    assert clean + [] == clean;
  }

  lemma {:induction false} KeptNone(keys: seq<string>)
    requires forall k :: k in keys ==> Commented(k)
    ensures Kept(keys) == []
  {
    hide Commented, TrimLeft;
    if keys != [] {
      var n := |keys| - 1;
      assert keys == keys[..n] + [keys[n]];
      KeptNone(keys[..n]);
    }
  }

  lemma OrderTidy(text: string, params: map<string, string>)
    requires Kept(NewKeys(text, params)) + Sorted(Unclean(params)) == NewKeys(text, params)
    requires forall k :: k in NewKeys(text, params) ==> '=' !in k
    requires forall k :: k in Parse(text) ==> CleanKey(k)
    ensures Tidy(text, params)
  {
    hide ParseLines, TrimLeft, CleanKey, Commented, Lines, Before;
    var more, last := NewKeys(text, params), Sorted(Unclean(params));
    var kept := Kept(more);
    IncreasingDistinct(more);
    assert Distinct(kept) by {
      assert forall i :: 0 <= i < |kept| ==> more[i] == kept[i];
    }
    forall k | k in params && !CleanKey(k)
      ensures Commented(k) && forall j :: j in params && CleanKey(j) && j !in Parse(text) ==> Before(j, k)
    {
      assert k in last && k in more;
      forall j | j in params && CleanKey(j) && j !in Parse(text) ensures Before(j, k) {
        assert j in more && j !in last;
        FirstBeforeLast(kept, last, j, k);
      }
      if !Commented(k) {
        ReadAsAnother(more, kept, k);
        assert false;
      }
    }
  }

  lemma FirstBeforeLast(kept: seq<string>, last: seq<string>, j: string, k: string)
    requires Increasing(kept + last) && j in kept + last && j !in last && k in last
    ensures Before(j, k)
  {
    hide Before;
    var p :| 0 <= p < |kept| && kept[p] == j;
    var q :| 0 <= q < |last| && last[q] == k;
    assert (kept + last)[p] == j && (kept + last)[|kept| + q] == k;
  }

  lemma IncreasingDistinct(s: seq<string>)
    requires Increasing(s)
    ensures Distinct(s)
  {
    hide Before;
    forall i, j | 0 <= i < j < |s| ensures s[i] != s[j] {
      BeforeTotal(s[i], s[j]);
    }
  }

  /** An unclean key that is no comment reads as another key, which is then there twice. */
  lemma ReadAsAnother(more: seq<string>, kept: seq<string>, k: string)
    requires kept == Kept(more) && kept <= more && forall x :: x in more ==> '=' !in x
    requires k in more && !CleanKey(k) && !Commented(k)
    ensures !Distinct(kept)
  {
    hide TrimLeft, Commented, CleanKey;
    var x := TrimLeft(k);
    var i :| 0 <= i < |more| && more[i] == k;
    KeptElements(more, x);
    assert x in kept;
    var p :| 0 <= p < |kept| && kept[p] == x;
    assert more[p] == x;
    CleanKeyStays(x);
    assert i != p;
    if i < p {
      KeptTwice(more, i, p);
    } else {
      KeptTwice(more, p, i);
    }
  }

  /** What the first write put on the lines of the file's own keys, the second one finds. */
  lemma SecondValues(text: string, params: map<string, string>, k: string)
    requires Write(text, params).Ok? && k in WrittenKeys(text, params) && k in Parse(Write(text, params).value) + params
    requires Tidy(text, params)
    ensures (Parse(Write(text, params).value) + params)[k] == (Parse(text) + params)[k]
  {
    hide Parse, WrittenKeys, TrimRight, TrimLeft, CleanKey, Commented, Before, CleanValue, ParseLines, PrintLines,
         Write;
    if k !in params {
      var m, keys := Parse(text) + params, WrittenKeys(text, params);
      WrittenKeysPrintable(text, params);
      OwnValues(text);
      WriteLines(text, params);
      PrintedValue(keys, m, params, k);
      TrimRightTwice(m[k]);
    }
  }

  lemma OwnValues(text: string)
    ensures CleanMap(Parse(text))
  {
    hide ParseLines, CleanKey, CleanValue;
    ParsedLinesAreClean(Lines(text));
  }

  lemma TrimRightTwice(v: string)
    ensures CleanValue(v) ==> TrimRight(v) == v
  {
  }

  /** The value of a key that only clean keys can be read as. */
  lemma {:induction false} PrintedValue(keys: seq<string>, m: map<string, string>, params: map<string, string>,
      k: string)
    requires forall x :: x in keys ==> x in m && '=' !in x
    requires forall x :: x in keys && !CleanKey(x) ==> Commented(x)
    requires k in ParseLines(PrintLines(keys, m))
    ensures k in m && ParseLines(PrintLines(keys, m))[k] == TrimRight(m[k])
  {
    hide ParseLine, TrimRight, TrimLeft, Assignment, Commented, CleanKey, PrintLines;
    assert keys != [];
    var n := |keys| - 1;
    PrintLast(keys, m);
    ParseAnyAssignment(keys[n], m[keys[n]]);
    if CleanKey(keys[n]) {
      CleanKeyStays(keys[n]);
    }
    if !(CleanKey(keys[n]) && keys[n] == k) {
      PrintedValue(keys[..n], m, params, k);
    }
  }

  /** Writing the same parameters again changes no byte, exactly when they are tidy; parameters with
      clean keys always are. */
  lemma WriteIdempotent(text: string, params: map<string, string>)
    requires Write(text, params).Ok?
    ensures Write(Write(text, params).value, params) == Write(text, params) <==> Tidy(text, params)
    ensures (forall k :: k in params ==> CleanKey(k)) ==> Tidy(text, params)
  {
    hide Parse, WrittenKeys, Tidy, Join, PrintLines, CleanKey, Assignment, BadParam;
    var text' := Write(text, params).value;
    var keys, keys' := WrittenKeys(text, params), WrittenKeys(text', params);
    TidyKeys(text, params);
    if Tidy(text, params) {
      forall k | k in keys ensures (Parse(text') + params)[k] == (Parse(text) + params)[k] {
        SecondValues(text, params, k);
      }
      SamePrint(keys, Parse(text) + params, Parse(text') + params);
    } else if Write(text', params) == Write(text, params) {
      SameTextSameKeys(text, params);
    }
    assert (forall k :: k in params ==> CleanKey(k)) ==> Tidy(text, params) by { CleanIsTidy(text, params); }
  }

  lemma CleanIsTidy(text: string, params: map<string, string>)
    ensures (forall k :: k in params ==> CleanKey(k)) ==> Tidy(text, params)
  {
    hide CleanKey, Commented, Before, Parse;
  }

  lemma SamePrint(keys: seq<string>, m: map<string, string>, m': map<string, string>)
    requires forall k :: k in keys ==> k in m && k in m' && m'[k] == m[k]
    ensures PrintLines(keys, m') == PrintLines(keys, m)
  {
    hide Assignment;
  }

  /** Two writes with the same text printed the same keys. */
  lemma SameTextSameKeys(text: string, params: map<string, string>)
    requires Write(text, params).Ok? && Write(Write(text, params).value, params) == Write(text, params)
    ensures WrittenKeys(Write(text, params).value, params) == WrittenKeys(text, params)
  {
    hide Parse, WrittenKeys, Assignment, BadParam;
    var text' := Write(text, params).value;
    var a, b := WrittenLines(text, params), WrittenLines(text', params);
    WrittenOneLine(text, params);
    WrittenOneLine(text', params);
    assert Join(a, '\n') == Join(b, '\n') by {
      assert (Join(a, '\n') + ['\n'])[..|Join(a, '\n')|] == Join(a, '\n');
      assert (Join(b, '\n') + ['\n'])[..|Join(b, '\n')|] == Join(b, '\n');
    }
    JoinInjective(a, b);
    WrittenKeysPrintable(text, params);
    WrittenKeysPrintable(text', params);
    var keys, keys' := WrittenKeys(text, params), WrittenKeys(text', params);
    assert |keys| == |keys'|;
    forall i | 0 <= i < |keys| ensures keys[i] == keys'[i] {
      assert keys[i] in keys && keys'[i] in keys' && a[i] == b[i];
      SameAssignmentSameKey(keys[i], (Parse(text) + params)[keys[i]], keys'[i], (Parse(text') + params)[keys'[i]]);
    }
  }

  lemma SameAssignmentSameKey(k: string, v: string, k': string, v': string)
    requires '=' !in k && '=' !in k' && Assignment(k, v) == Assignment(k', v')
    ensures k == k'
  {
    FirstSeparator(k, v, k', v', '=');
  }

  lemma WrittenOneLine(text: string, params: map<string, string>)
    requires Write(text, params).Ok?
    ensures forall i :: 0 <= i < |WrittenLines(text, params)| ==>
      '\n' !in WrittenLines(text, params)[i] && WrittenLines(text, params)[i] != ""
  {
    hide ParseLine, Split, Join, ParseLines, LineKeys, WrittenKeys;
    var m, keys, out := Parse(text) + params, WrittenKeys(text, params), WrittenLines(text, params);
    LinesAreOneLine(text);
    ParsedLinesAreClean(Lines(text));
    forall i | 0 <= i < |out| ensures '\n' !in out[i] && out[i] != "" {
      assert keys[i] in keys;
      assert keys[i] in params ==> !BadParam(keys[i], params[keys[i]]);
      AssignmentOneLine(keys[i], m[keys[i]]);
    }
  }

  lemma JoinInjective(a: seq<string>, b: seq<string>)
    requires forall i :: 0 <= i < |a| ==> '\n' !in a[i] && a[i] != ""
    requires forall i :: 0 <= i < |b| ==> '\n' !in b[i] && b[i] != ""
    requires Join(a, '\n') == Join(b, '\n')
    ensures a == b
  {
    hide Join, Split;
    if a != [] {
      SplitJoin(a, '\n');
    }
    if b != [] {
      SplitJoin(b, '\n');
    }
    if a == [] || b == [] {
      EmptyJoin(a);
      EmptyJoin(b);
    }
  }

  lemma EmptyJoin(a: seq<string>)
    requires forall i :: 0 <= i < |a| ==> a[i] != ""
    ensures Join(a, '\n') == "" <==> a == []
  {
  }

  /** The exceptions are real: a key that starts with a space is read without it, so the file does not
      say what was written, and the next write adds the parameter once more. */
  lemma SpacedKeyRepeats(text: string) returns (params: map<string, string>)
    ensures Write(text, params).Ok?
    ensures Parse(Write(text, params).value) != Parse(text) + params
    ensures Write(Write(text, params).value, params) != Write(text, params)
  {
    hide Parse, WrittenLines, Join, Before, CleanKey, Commented, CleanValue;
    params := map[" a" := "1"];
    SpacedKey();
    assert " a" in params;
    assert !Tidy(text, params) && !CleanMap(params);
    assert forall k :: k in params ==> k == " a" && !BadParam(k, params[k]);
    hide Write, Tidy, CleanMap;
    WriteMeaning(text, params);
    WriteIdempotent(text, params);
  }

  lemma SpacedKey()
    ensures !CleanKey(" a") && !Commented(" a")
  {
    assert " a"[0] == ' ' && " a"[1..] == "a";
  }

  /** The whole pipeline of renderKustomize on params.env, image overlay then parameters: the
      result says the file, overridden by the images of keys the file has, overridden by the
      parameters, exactly when the parameters are ones an env file can hold. */
  lemma PipelineMeaning(text: string, table: map<string, string>, env: map<string, string>, params: map<string, string>)
    requires Overlay(text, RelatedImages(table, env)).Ok?
    requires Write(Overlay(text, RelatedImages(table, env)).value, params).Ok?
    ensures Parse(Write(Overlay(text, RelatedImages(table, env)).value, params).value)
            == Override(Parse(text), RelatedImages(table, env)) + params
            <==> CleanMap(params)
  {
    hide ParseLine, ParseLines, Split, Join, Overlay, Write, CleanMap, Parse, TrimSpace, TrimRight;
    var images := RelatedImages(table, env);
    OverlayMeaning(text, images);
    WriteMeaning(Overlay(text, images).value, params);
    forall k | k in images ensures TrimRight(images[k]) == images[k] {
      ImageIsTrimmed(env[table[k]]);
    }
    assert Overlaid(Parse(text), images) == Override(Parse(text), images);
  }

  lemma ImageIsTrimmed(s: string)
    ensures TrimRight(TrimSpace(s)) == TrimSpace(s)
  {
  }
}
