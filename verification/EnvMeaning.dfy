/**
 What the env file editors do, stated on the lines of the file, the table of image variables and the
 operator's environment.
 */
module EnvMeaning {
  import opened GoText
  import opened EnvParams

  // ---------- What a file says ----------

  /** Spaces around it aside, the line is no comment and assigns v to k; k ends at the first '='. */
  predicate Assigns(line: string, k: string, v: string) {
    TrimSpace(line) == k + "=" + v && '=' !in k && !("#" <= k)
  }

  lemma LineMeaning(line: string, k: string, v: string)
    ensures ParseLine(line) == Some((k, v)) <==> Assigns(line, k, v)
  {
    hide Cut, TrimSpace;
    var t := TrimSpace(line);
    CutParts(t, '=');
    assert k + ['='] + v == k + "=" + v;
    if Assigns(line, k, v) {
      CutOf(k, v, '=');
      assert t[0] == if k == "" then '=' else k[0];
    }
    if ParseLine(line) == Some((k, v)) && k != "" {
      assert t[0] == k[0];
    }
  }

  /** Line i is the last to assign k, and assigns v. */
  predicate LastAssigns(lines: seq<string>, i: int, k: string, v: string) {
    && 0 <= i < |lines| && Assigns(lines[i], k, v)
    && forall j :: i < j < |lines| ==> ParseLine(lines[j]).None? || ParseLine(lines[j]).value.0 != k
  }

  lemma {:induction false} ParseLinesMeaning(lines: seq<string>, k: string) returns (i: int)
    ensures if k in ParseLines(lines) then LastAssigns(lines, i, k, ParseLines(lines)[k])
      else forall j :: 0 <= j < |lines| ==> ParseLine(lines[j]).None? || ParseLine(lines[j]).value.0 != k
  {
    hide ParseLine, Assigns;
    i := 0;
    if lines != [] {
      var n := |lines| - 1;
      var last := ParseLine(lines[n]);
      assert forall j :: 0 <= j < n ==> lines[..n][j] == lines[j];
      i := ParseLinesMeaning(lines[..n], k);
      if last.Some? && last.value.0 == k {
        i := n;
        LineMeaning(lines[n], k, last.value.1);
      }
    }
  }

  /** A file says of a key what the last line that assigns it says, and nothing of a key that no line
      assigns. */
  lemma ParseMeaning(text: string, k: string) returns (i: int)
    ensures k in Parse(text) <==> exists j, v :: 0 <= j < |Lines(text)| && Assigns(Lines(text)[j], k, v)
    ensures k in Parse(text) ==> 0 <= i < |Lines(text)| && Assigns(Lines(text)[i], k, Parse(text)[k])
    ensures k in Parse(text) ==> forall j, v :: i < j < |Lines(text)| ==> !Assigns(Lines(text)[j], k, v)
  {
    hide ParseLine, ParseLines, Split, Assigns;
    var lines := Lines(text);
    i := ParseLinesMeaning(lines, k);
    forall j, v | 0 <= j < |lines| && Assigns(lines[j], k, v) ensures k in Parse(text) && j <= i {
      LineMeaning(lines[j], k, v);
    }
  }

  /** The keys of the assignments, line by line in order, repetitions included. */
  lemma LineKeysMeaning(a: seq<string>, b: seq<string>)
    ensures LineKeys(a + b) == LineKeys(a) + LineKeys(b)
    ensures |a| == 1 ==> forall k, v :: Assigns(a[0], k, v) ==> LineKeys(a) == [k]
    ensures |a| == 1 && (forall k, v :: !Assigns(a[0], k, v)) ==> LineKeys(a) == []
  {
    hide ParseLine, Assigns;
    ParseLinesConcat(a, b);
    if |a| == 1 {
      assert a[..0] == [];
      forall k, v ensures Assigns(a[0], k, v) <==> ParseLine(a[0]) == Some((k, v)) {
        LineMeaning(a[0], k, v);
      }
      if ParseLine(a[0]).Some? {
        LineMeaning(a[0], ParseLine(a[0]).value.0, ParseLine(a[0]).value.1);
        assert Assigns(a[0], ParseLine(a[0]).value.0, ParseLine(a[0]).value.1);
      }
    }
  }

  // ---------- The overlay ----------

  /** The overlay fails exactly when the file has a key with another value than the override and the
      override has a line break. */
  lemma OverlayRefuses(text: string, ov: map<string, string>)
    ensures Overlay(text, ov).Err? <==>
      exists k :: k in ov && k in Parse(text) && ov[k] != Parse(text)[k] && ('\n' in ov[k] || '\r' in ov[k])
  {
    hide Parse;
    var m := Parse(text);
    if k :| k in ov && k in m && ov[k] != m[k] && ('\n' in ov[k] || '\r' in ov[k]) {
      assert k in Pending(m, ov) && HasBreak(ov[k]);
    }
  }

  /** No byte changes when the file already has every override it has the key of. */
  lemma OverlayLeaves(text: string, ov: map<string, string>)
    requires forall k :: k in ov && k in Parse(text) ==> ov[k] == Parse(text)[k]
    ensures Overlay(text, ov) == Ok(text)
  {
    hide Parse;
  }

  /** A file that the overlay does change ends with a newline. */
  lemma OverlayEnds(text: string, ov: map<string, string>, k: string)
    requires Overlay(text, ov).Ok? && k in ov && k in Parse(text) && ov[k] != Parse(text)[k]
    ensures var r := Overlay(text, ov).value; r != "" && r[|r| - 1] == '\n'
  {
    hide Parse, RewriteLines, Override, Join, Lines;
    assert k in Pending(Parse(text), ov);
  }

  /** After the overlay the file has the same keys; one whose override differs has the override, as far
      as a line can hold it, and any other its own value. */
  lemma OverlayValues(text: string, ov: map<string, string>, k: string)
    requires Overlay(text, ov).Ok?
    ensures k in Parse(Overlay(text, ov).value) <==> k in Parse(text)
    ensures k in Parse(text) && k in ov && ov[k] != Parse(text)[k] ==>
      Parse(Overlay(text, ov).value)[k] == TrimRight(ov[k])
    ensures k in Parse(text) && !(k in ov && ov[k] != Parse(text)[k]) ==>
      Parse(Overlay(text, ov).value)[k] == Parse(text)[k]
  {
    hide Parse, Overlay;
    OverlayMeaning(text, ov);
  }

  // ---------- The parameter writer ----------

  /** The writer fails exactly on a parameter with a line break, or with '=' in its key. */
  lemma WriteRefuses(text: string, params: map<string, string>)
    ensures Write(text, params).Err? <==>
      exists k :: k in params && ('\n' in k || '\r' in k || '=' in k || '\n' in params[k] || '\r' in params[k])
  {
    hide Parse, WrittenLines;
    if k :| k in params && ('\n' in k || '\r' in k || '=' in k || '\n' in params[k] || '\r' in params[k]) {
      assert BadParam(k, params[k]);
    }
  }

  /** The written file is one assignment a line: the keys of the file's own assignments in their order,
      repetitions included, then the parameters it does not have in increasing order; each with its
      parameter, or else the file's value. */
  lemma WrittenLayout(text: string, params: map<string, string>) returns (keys: seq<string>, out: seq<string>)
    requires Write(text, params).Ok?
    ensures var own := LineKeys(Lines(text));
      && own <= keys && Increasing(keys[|own|..])
      && (forall k :: k in keys[|own|..] <==> k in params && k !in Parse(text))
    ensures forall k :: k in keys <==> k in params || k in Parse(text)
    ensures |out| == |keys| && Write(text, params) == Ok(Join(out, '\n') + "\n")
    ensures forall i :: 0 <= i < |keys| && keys[i] in params ==> out[i] == keys[i] + "=" + params[keys[i]]
    ensures forall i :: 0 <= i < |keys| && keys[i] !in params ==>
      keys[i] in Parse(text) && out[i] == keys[i] + "=" + Parse(text)[keys[i]]
  {
    hide Parse, Lines, LineKeys, Join, Increasing;
    keys := WrittenKeys(text, params);
    var own, more := LineKeys(Lines(text)), Sorted(params.Keys - Parse(text).Keys);
    assert keys == own + more && keys[|own|..] == more;
    out := WrittenLines(text, params);
    assert forall i :: 0 <= i < |keys| ==> keys[i] in keys;
    assert Join(out, '\n') + ['\n'] == Join(out, '\n') + "\n";
  }

  // ---------- The pipeline ----------

  /** The image the environment names for a key: the mapped variable, trimmed, unless it is blank. */
  lemma ImageMeaning(table: map<string, string>, env: map<string, string>, k: string)
    ensures k in RelatedImages(table, env) <==> k in table && table[k] in env && TrimSpace(env[table[k]]) != ""
    ensures k in RelatedImages(table, env) ==> RelatedImages(table, env)[k] == TrimSpace(env[table[k]])
  {
    hide TrimSpace;
  }

  /** What params.env says after the image overlay and the parameters, key by key: the parameter, if
      there is one; else, for a key the file has, the image its variable names; else the file's own
      value. No key is added but the parameters'. */
  lemma PipelineValues(text: string, table: map<string, string>, env: map<string, string>,
      params: map<string, string>, k: string)
    requires Overlay(text, RelatedImages(table, env)).Ok?
    requires Write(Overlay(text, RelatedImages(table, env)).value, params).Ok? && CleanMap(params)
    ensures var written := Parse(Write(Overlay(text, RelatedImages(table, env)).value, params).value);
      if k in params then k in written && written[k] == params[k]
      else if k !in Parse(text) then k !in written
      else if k in table && table[k] in env && TrimSpace(env[table[k]]) != "" then
        k in written && written[k] == TrimSpace(env[table[k]])
      else k in written && written[k] == Parse(text)[k]
  {
    hide Parse, Overlay, Write, CleanMap, TrimSpace, RelatedImages;
    PipelineMeaning(text, table, env, params);
    ImageMeaning(table, env, k);
  }
}
