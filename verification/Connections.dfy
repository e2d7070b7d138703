/**
 The notebook connection webhook (internal/webhook/notebook/mutating.go): the connections
 annotation, the actions an update implies, and the injection of secretRef entries into the
 first container's envFrom.

 Whether a secret exists and the user may read it is an oracle: the set of references it admits.
 */
module Connections {
  import opened GoText

  const MAX_ANNOTATION_LENGTH: nat := 4096
  const MAX_CONNECTION_SECRETS: nat := 32

  datatype SecretRef = SecretRef(namespace: string, name: string)

  /** secretRefKey */
  function Key(r: SecretRef): string {
    r.namespace + ['/'] + r.name
  }

  function Keys(refs: seq<SecretRef>): (keys: seq<string>)
    ensures |keys| == |refs| && forall i :: 0 <= i < |refs| ==> keys[i] == Key(refs[i])
  {
    seq(|refs|, i requires 0 <= i < |refs| => Key(refs[i]))
  }

  /** A list of references as the annotation that spells it. */
  function Print(refs: seq<SecretRef>): string {
    Join(Keys(refs), ',')
  }

  // ---------- Parsing the annotation ----------

  datatype Part = Blank | Malformed | Reference(ref: SecretRef)

  function ParsePart(part: string): Part {
    var t := TrimSpace(part);
    if t == "" then Blank
    else
      var pieces := Split(t, '/');
      if |pieces| != 2 then Malformed
      else
        var ref := SecretRef(TrimSpace(pieces[0]), TrimSpace(pieces[1]));
        if ref.namespace == "" || ref.name == "" then Malformed else Reference(ref)
  }

  /** The references found in parts after those in found, each key once, at most 32 in all. */
  function ParseParts(parts: seq<string>, found: seq<SecretRef>): Result<seq<SecretRef>> {
    if parts == [] then Ok(found)
    else
      match ParsePart(parts[0])
      case Blank => ParseParts(parts[1..], found)
      case Malformed => Err
      case Reference(ref) =>
        if Key(ref) in Keys(found) then ParseParts(parts[1..], found)
        else if |found| >= MAX_CONNECTION_SECRETS then Err
        else ParseParts(parts[1..], found + [ref])
  }

  function ParseAnnotation(value: string): Result<seq<SecretRef>> {
    if TrimSpace(value) == "" then Ok([])
    else if ByteLen(value) > MAX_ANNOTATION_LENGTH then Err
    else ParseParts(Split(value, ','), [])
  }

  /** parseConnectionsAnnotation */
  method ParseConnectionsAnnotation(value: string) returns (r: Result<seq<SecretRef>>)
    ensures r == ParseAnnotation(value)
  {
    hide ParsePart, Split, TrimSpace, ByteLen, Key;
    if TrimSpace(value) == "" {
      return Ok([]);
    }
    if ByteLen(value) > MAX_ANNOTATION_LENGTH {
      return Err;
    }
    var parts := Split(value, ',');
    var refs: seq<SecretRef> := [];
    var seen: set<string> := {};
    for i := 0 to |parts|
      invariant ParseParts(parts, []) == ParseParts(parts[i..], refs)
      invariant forall k :: k in seen <==> k in Keys(refs)
    {
      assert parts[i..][1..] == parts[i + 1..];
      match ParsePart(parts[i]) {
        case Blank =>
        case Malformed => return Err;
        case Reference(ref) =>
          if Key(ref) in seen {
            continue;
          }
          if |refs| >= MAX_CONNECTION_SECRETS {
            return Err;
          }
          seen := seen + {Key(ref)};
          assert Keys(refs + [ref]) == Keys(refs) + [Key(ref)];
          refs := refs + [ref];
      }
    }
    return Ok(refs);
  }

  // ---------- What an accepted annotation yields ----------

  predicate ValidName(s: string) {
    s != "" && Trimmed(s) && '/' !in s && ',' !in s
  }

  predicate ValidRef(r: SecretRef) {
    ValidName(r.namespace) && ValidName(r.name)
  }

  predicate Distinct(refs: seq<SecretRef>) {
    forall i, j :: 0 <= i < j < |refs| ==> refs[i] != refs[j]
  }

  predicate AllValid(refs: seq<SecretRef>) {
    forall i :: 0 <= i < |refs| ==> ValidRef(refs[i])
  }

  /** At most 32 distinct references with non-empty trimmed parts free of '/' and ','. */
  predicate Accepted(refs: seq<SecretRef>) {
    |refs| <= MAX_CONNECTION_SECRETS && Distinct(refs) && AllValid(refs)
  }

  /** On slash-free parts the key tells references apart. */
  lemma KeyInjective(a: SecretRef, b: SecretRef)
    requires ValidRef(a) && ValidRef(b) && Key(a) == Key(b)
    ensures a == b
  {
    FirstSeparator(a.namespace, a.name, b.namespace, b.name, '/');
  }

  lemma {:induction false} PieceOf(s: string, sep: char)
    ensures forall i, c :: 0 <= i < |Split(s, sep)| && c in Split(s, sep)[i] ==> c in s
  {
    if s != "" {
      PieceOf(s[1..], sep);
      var rest := Split(s[1..], sep);
      forall i, c | 0 <= i < |Split(s, sep)| && c in Split(s, sep)[i] ensures c in s {
        if c != s[0] {
          assert c in rest[if s[0] == sep then i - 1 else i];
          assert c in s[1..];
        }
      }
    }
  }

  lemma TrimmedPiece(t: string, i: nat)
    requires i < |Split(t, '/')| && ',' !in t
    requires TrimSpace(Split(t, '/')[i]) != ""
    ensures ValidName(TrimSpace(Split(t, '/')[i]))
  {
    hide Split, TrimSpace;
    var piece := Split(t, '/')[i];
    PieceOf(t, '/');
    SplitParts(t, '/');
    TrimSpaceMiddle(piece);
  }

  lemma ParsedPartIsValid(part: string)
    requires ParsePart(part).Reference? && ',' !in part
    ensures ValidRef(ParsePart(part).ref)
  {
    hide Split, TrimSpace;
    TrimSpaceMiddle(part);
    TrimmedPiece(TrimSpace(part), 0);
    TrimmedPiece(TrimSpace(part), 1);
  }

  predicate NoCommas(parts: seq<string>) {
    forall i :: 0 <= i < |parts| ==> ',' !in parts[i]
  }

  lemma {:induction false} ParsedPartsAccepted(parts: seq<string>, found: seq<SecretRef>)
    requires NoCommas(parts) && Accepted(found)
    requires ParseParts(parts, found).Ok?
    ensures Accepted(ParseParts(parts, found).value)
  {
    hide ParsePart, ValidRef, Key;
    if parts != [] {
      assert ',' !in parts[0];
      match ParsePart(parts[0]) {
        case Blank => ParsedPartsAccepted(parts[1..], found);
        case Reference(ref) =>
          if Key(ref) in Keys(found) {
            ParsedPartsAccepted(parts[1..], found);
          } else {
            ParsedPartIsValid(parts[0]);
            assert forall i :: 0 <= i < |found| ==> Key(found[i]) in Keys(found) && found[i] != ref;
            ParsedPartsAccepted(parts[1..], found + [ref]);
          }
      }
    }
  }

  // The printed list is never longer than the text it was read from: each reference is paid
  // for by its own part, and each comma by the end of a part.

  function Weight(parts: seq<string>): nat {
    if parts == [] then 0 else ByteLen(parts[0]) + 1 + Weight(parts[1..])
  }

  lemma {:induction false} JoinBytes(parts: seq<string>)
    requires parts != []
    ensures ByteLen(Join(parts, ',')) + 1 == Weight(parts)
  {
    hide ByteLen;
    assert ByteLen([',']) == 1 by { CommaByte(); }
    if |parts| == 1 {
      assert Weight(parts[1..]) == 0;
    } else {
      JoinBytes(parts[1..]);
      ByteLenConcat(parts[0] + [','], Join(parts[1..], ','));
      ByteLenConcat(parts[0], [',']);
    }
  }

  lemma CommaByte()
    ensures ByteLen([',']) == 1 && ByteLen(['/']) == 1
  {
    assert [','][1..] == "" && ['/'][1..] == "";
    assert ByteLen("") == 0;
  }

  lemma {:induction false} WeightConcat(a: seq<string>, b: seq<string>)
    ensures Weight(a + b) == Weight(a) + Weight(b)
  {
    hide ByteLen;
    if a == [] {
      assert a + b == b;
    } else {
      assert (a + b)[1..] == a[1..] + b;
      WeightConcat(a[1..], b);
    }
  }

  lemma KeyBytes(part: string)
    requires ParsePart(part).Reference?
    ensures ByteLen(Key(ParsePart(part).ref)) <= ByteLen(part)
  {
    hide ByteLen, Split, TrimSpace;
    var t := TrimSpace(part);
    var pieces := Split(t, '/');
    var ns, name := TrimSpace(pieces[0]), TrimSpace(pieces[1]);
    TrimSpaceBytes(part);
    TrimSpaceBytes(pieces[0]);
    TrimSpaceBytes(pieces[1]);
    ByteLenConcat(ns + ['/'], name);
    ByteLenConcat(ns, ['/']);
    JoinSplit(t, '/');
    assert t == pieces[0] + ['/'] + pieces[1] by {
      assert pieces == [pieces[0], pieces[1]];
      assert pieces[1..] == [pieces[1]];
    }
    ByteLenConcat(pieces[0] + ['/'], pieces[1]);
    ByteLenConcat(pieces[0], ['/']);
  }

  lemma {:induction false} ParsedPartsWeight(parts: seq<string>, found: seq<SecretRef>)
    requires ParseParts(parts, found).Ok?
    ensures Weight(Keys(ParseParts(parts, found).value)) <= Weight(Keys(found)) + Weight(parts)
  {
    hide ParsePart, Key, ByteLen;
    if parts != [] {
      match ParsePart(parts[0]) {
        case Blank => ParsedPartsWeight(parts[1..], found);
        case Reference(ref) =>
          if Key(ref) in Keys(found) {
            ParsedPartsWeight(parts[1..], found);
          } else {
            ParsedPartsWeight(parts[1..], found + [ref]);
            assert Keys(found + [ref]) == Keys(found) + [Key(ref)];
            WeightConcat(Keys(found), [Key(ref)]);
            assert Weight([Key(ref)]) == ByteLen(Key(ref)) + 1 + Weight([]);
            KeyBytes(parts[0]);
          }
      }
    }
  }

  /** Every accepted annotation yields an accepted list, whose printed form is no longer. */
  lemma ParseAccepts(value: string)
    requires ParseAnnotation(value).Ok?
    ensures Accepted(ParseAnnotation(value).value)
    ensures ByteLen(Print(ParseAnnotation(value).value)) <= ByteLen(value)
  {
    hide ParseParts, Split, Join, TrimSpace, ValidRef, Weight, Key;
    if TrimSpace(value) == "" {
      assert Print([]) == "" by { PrintNothing(); }
    } else {
      var parts := Split(value, ',');
      SplitParts(value, ',');
      ParsedPartsAccepted(parts, []);
      ParsedPartsWeight(parts, []);
      JoinSplit(value, ',');
      JoinBytes(parts);
      var refs := ParseAnnotation(value).value;
      assert Weight(Keys([])) == 0 by { PrintNothing(); }
      if refs == [] { PrintNothing(); } else { JoinBytes(Keys(refs)); }
    }
  }

  lemma PrintNothing()
    ensures Print([]) == "" && Weight(Keys([])) == 0 && ByteLen("") == 0
  {
  }

  // ---------- Printing and parsing again ----------

  lemma ParseKey(r: SecretRef)
    requires ValidRef(r)
    ensures ParsePart(Key(r)) == Reference(r)
    ensures TrimSpace(Key(r)) == Key(r) && ',' !in Key(r)
  {
    hide Split, TrimSpace;
    var key := Key(r);
    assert key[0] == r.namespace[0] && key[|key| - 1] == r.name[|r.name| - 1];
    TrimSpaceMiddle(key);
    SplitCons(r.namespace, r.name, '/');
    SplitNone(r.name, '/');
    TrimSpaceMiddle(r.namespace);
    TrimSpaceMiddle(r.name);
  }

  lemma {:induction false} ParseKeys(refs: seq<SecretRef>, found: seq<SecretRef>)
    requires Accepted(found + refs)
    ensures ParseParts(Keys(refs), found) == Ok(found + refs)
  {
    hide ParsePart, ValidRef, Key;
    if refs == [] {
      assert found + refs == found;
    } else {
      var all := found + refs;
      assert all[|found|] == refs[0] && ValidRef(refs[0]);
      ParseKey(refs[0]);
      forall i | 0 <= i < |found| ensures Key(found[i]) != Key(refs[0]) {
        assert all[i] == found[i] && all[i] != all[|found|];
        if Key(found[i]) == Key(refs[0]) { KeyInjective(found[i], refs[0]); }
      }
      assert Keys(refs)[1..] == Keys(refs[1..]);
      assert found + [refs[0]] + refs[1..] == all;
      ParseKeys(refs[1..], found + [refs[0]]);
    }
  }

  /** Conversely, any such list whose printed form fits parses back to itself. */
  lemma PrintParses(refs: seq<SecretRef>)
    requires Accepted(refs) && ByteLen(Print(refs)) <= MAX_ANNOTATION_LENGTH
    ensures ParseAnnotation(Print(refs)) == Ok(refs)
  {
    hide ParsePart, Split, Join, Key, TrimSpace, ByteLen;
    if refs == [] {
      PrintNothing();
      assert TrimSpace("") == "" by { TrimSpaceMiddle(""); }
    } else {
      forall i | 0 <= i < |refs| ensures ',' !in Keys(refs)[i] {
        assert ValidRef(refs[i]);
        ParseKey(refs[i]);
      }
      SplitJoin(Keys(refs), ',');
      ParseKeys(refs, []);
      assert [] + refs == refs;
      if TrimSpace(Print(refs)) == "" {
        BlankSplits(Print(refs));
        assert ValidRef(refs[0]);
        assert Keys(refs)[0] in Split(Print(refs), ',');
        ParseKey(refs[0]);
      }
    }
  }

  /** Every part of a blank text is blank. */
  lemma BlankSplits(s: string)
    requires TrimSpace(s) == ""
    ensures forall i :: 0 <= i < |Split(s, ',')| ==> ParsePart(Split(s, ',')[i]) == Blank
  {
    hide Split, TrimSpace, ParsePart;
    PieceOf(s, ',');
    forall i | 0 <= i < |Split(s, ',')| ensures ParsePart(Split(s, ',')[i]) == Blank {
      BlankIsSpace(s);
      SpaceIsBlank(Split(s, ',')[i]);
    }
  }

  lemma BlankIsSpace(s: string)
    requires TrimSpace(s) == ""
    ensures forall c :: c in s ==> IsSpace(c)
  {
    assert TrimLeft(s) == "";
  }

  lemma {:induction false} SpaceIsBlank(s: string)
    requires forall c :: c in s ==> IsSpace(c)
    ensures TrimLeft(s) == "" && ParsePart(s) == Blank
  {
    if s != "" {
      assert s[0] in s;
      SpaceIsBlank(s[1..]);
    }
  }

  /** Parse, print and parse again: the same references. */
  lemma AnnotationRoundTrip(value: string)
    requires ParseAnnotation(value).Ok?
    ensures ParseAnnotation(Print(ParseAnnotation(value).value)) == ParseAnnotation(value)
  {
    hide ParseParts, Print, TrimSpace, ByteLen;
    ParseAccepts(value);
    if TrimSpace(value) == "" {
      PrintNothing();
    }
    PrintParses(ParseAnnotation(value).value);
  }

  // ---------- Injection ----------

  /** An envFrom entry: the secret it names, if it is a secretRef with a name, and the rest. */
  datatype EnvFrom = EnvFrom(secretName: Option<string>, rest: string)

  /** The entry the webhook writes for a connection secret. */
  function Connection(name: string): EnvFrom {
    EnvFrom(Some(name), "")
  }

  datatype Action = Create | Delete | Keep

  datatype SecretAction = SecretAction(ref: SecretRef, action: Action)

  /** What an update from old to current means for one reference. */
  function ActionFor(prev: seq<SecretRef>, current: seq<SecretRef>, ref: SecretRef): Action {
    if Key(ref) in Keys(current) then (if Key(ref) in Keys(prev) then Keep else Create)
    else if Key(ref) in Keys(prev) then Delete else Keep
  }

  /** determineSecretActions: the keys to create and to delete. */
  method DetermineSecretActions(prev: seq<SecretRef>, current: seq<SecretRef>) returns (actions: map<string, Action>)
    ensures forall k :: k in actions <==> (k in Keys(current)) != (k in Keys(prev))
    ensures forall k :: k in actions ==> actions[k] == if k in Keys(current) then Create else Delete
  {
    hide Key;
    var oldKeys: set<string> := {};
    for i := 0 to |prev|
      invariant forall k :: k in oldKeys <==> k in Keys(prev)[..i]
    {
      oldKeys := oldKeys + {Key(prev[i])};
      assert Keys(prev)[..i + 1] == Keys(prev)[..i] + [Key(prev[i])];
    }
    var currentKeys: set<string> := {};
    actions := map[];
    for i := 0 to |current|
      invariant forall k :: k in currentKeys <==> k in Keys(current)[..i]
      invariant forall k :: k in actions <==> k in Keys(current)[..i] && k !in oldKeys
      invariant forall k :: k in actions ==> actions[k] == Create
    {
      var key := Key(current[i]);
      assert Keys(current)[..i + 1] == Keys(current)[..i] + [key];
      currentKeys := currentKeys + {key};
      if key !in oldKeys {
        actions := actions[key := Create];
      }
    }
    assert Keys(prev)[..|prev|] == Keys(prev) && Keys(current)[..|current|] == Keys(current);
    for i := 0 to |prev|
      invariant forall k :: k in actions <==>
        (k in currentKeys && k !in oldKeys) || (k in Keys(prev)[..i] && k !in currentKeys)
      invariant forall k :: k in actions ==> actions[k] == if k in currentKeys then Create else Delete
    {
      var key := Key(prev[i]);
      assert Keys(prev)[..i + 1] == Keys(prev)[..i] + [key];
      if key !in currentKeys {
        actions := actions[key := Delete];
      }
    }
  }

  function WithActions(prev: seq<SecretRef>, current: seq<SecretRef>, refs: seq<SecretRef>): (r: seq<SecretAction>)
    ensures |r| == |refs|
    ensures forall i :: 0 <= i < |refs| ==> r[i] == SecretAction(refs[i], ActionFor(prev, current, refs[i]))
  {
    seq(|refs|, i requires 0 <= i < |refs| => SecretAction(refs[i], ActionFor(prev, current, refs[i])))
  }

  /** getNotebookSecretRefs: the current references, then the old ones, each with its action.
      A create request has no old references. */
  method GetNotebookSecretRefs(isUpdate: bool, prev: seq<SecretRef>, current: seq<SecretRef>)
    returns (refs: seq<SecretAction>)
    requires !isUpdate ==> prev == []
    ensures refs == WithActions(prev, current, current + prev)
  {
    hide Key;
    refs := [];
    if isUpdate {
      var actions := DetermineSecretActions(prev, current);
      var allRefs := current + prev;
      for i := 0 to |allRefs|
        invariant refs == WithActions(prev, current, allRefs)[..i]
      {
        var key := Key(allRefs[i]);
        refs := refs + [SecretAction(allRefs[i], if key in actions then actions[key] else Keep)];
      }
    } else {
      for i := 0 to |current|
        invariant refs == WithActions(prev, current, current + prev)[..i]
      {
        assert Keys(current)[i] in Keys(current);
        refs := refs + [SecretAction(current[i], Create)];
      }
    }
  }

  /** env without its first entry naming the secret. */
  function RemoveFirst(name: string, env: seq<EnvFrom>): seq<EnvFrom> {
    if env == [] then []
    else if env[0].secretName == Some(name) then env[1..]
    else [env[0]] + RemoveFirst(name, env[1..])
  }

  function Handle(a: SecretAction, env: seq<EnvFrom>): seq<EnvFrom> {
    match a.action
    case Create => env + [Connection(a.ref.name)]
    case Delete => RemoveFirst(a.ref.name, env)
    case Keep => env
  }

  lemma {:induction false} RemoveFirstAt(name: string, env: seq<EnvFrom>, i: nat)
    requires i < |env| && env[i].secretName == Some(name)
    requires forall j :: 0 <= j < i ==> env[j].secretName != Some(name)
    ensures RemoveFirst(name, env) == env[..i] + env[i + 1..]
  {
    if i > 0 {
      RemoveFirstAt(name, env[1..], i - 1);
    }
  }

  lemma {:induction false} RemoveAbsent(name: string, env: seq<EnvFrom>)
    requires forall j :: 0 <= j < |env| ==> env[j].secretName != Some(name)
    ensures RemoveFirst(name, env) == env
  {
    if env != [] {
      RemoveAbsent(name, env[1..]);
    }
  }

  /** handleConnectionSecret */
  method HandleConnectionSecret(a: SecretAction, existing: seq<EnvFrom>) returns (env: seq<EnvFrom>)
    ensures env == Handle(a, existing)
  {
    env := existing;
    match a.action {
      case Create => env := env + [Connection(a.ref.name)];
      case Keep =>
      case Delete =>
        for i := 0 to |existing|
          invariant env == existing
          invariant forall j :: 0 <= j < i ==> existing[j].secretName != Some(a.ref.name)
        {
          if existing[i].secretName == Some(a.ref.name) {
            RemoveFirstAt(a.ref.name, existing, i);
            env := existing[..i] + existing[i + 1..];
            return;
          }
        }
        RemoveAbsent(a.ref.name, existing);
    }
  }

  function HandleAll(actions: seq<SecretAction>, env: seq<EnvFrom>): seq<EnvFrom> {
    if actions == [] then env else HandleAll(actions[1..], Handle(actions[0], env))
  }

  /** The notebook as the webhook sees it: its annotation ("" when absent) and the envFrom of
      each container. */
  datatype Notebook = Notebook(annotation: string, containers: seq<seq<EnvFrom>>)

  /** performConnectionInjection; Err when there is no container to inject into. */
  method PerformConnectionInjection(nb: Notebook, actions: seq<SecretAction>) returns (r: Result<Notebook>)
    ensures nb.containers == [] ==> r == Err
    ensures nb.containers != [] ==>
      r == Ok(nb.(containers := nb.containers[0 := HandleAll(actions, nb.containers[0])]))
  {
    hide Handle;
    if |nb.containers| == 0 {
      return Err;
    }
    var env := nb.containers[0];
    for i := 0 to |actions|
      invariant HandleAll(actions, nb.containers[0]) == HandleAll(actions[i..], env)
    {
      assert actions[i..][1..] == actions[i + 1..];
      env := HandleConnectionSecret(actions[i], env);
    }
    return Ok(nb.(containers := nb.containers[0 := env]));
  }

  /** An admission request: the notebook before (None on create) and the notebook asked for. */
  datatype Request = Request(prev: Option<Notebook>, asked: Notebook)

  predicate SameNamespace(refs: seq<SecretRef>, namespace: string) {
    forall i :: 0 <= i < |refs| ==> refs[i].namespace == namespace
  }

  predicate Readable(refs: seq<SecretRef>, oracle: set<SecretRef>) {
    forall i :: 0 <= i < |refs| ==> refs[i] in oracle
  }

  function OldRefs(req: Request): Result<seq<SecretRef>> {
    if req.prev.None? || req.prev.value.annotation == "" then Ok([]) else ParseAnnotation(req.prev.value.annotation)
  }

  /** The stored notebook after an admitted request; Err when it is denied or errors. */
  function Admit(req: Request, namespace: string, oracle: set<SecretRef>): Result<Notebook> {
    if req.prev.None? && req.asked.annotation == "" then Ok(req.asked)
    else
      match ParseAnnotation(req.asked.annotation)
      case Err => Err
      case Ok(refs) =>
        if !SameNamespace(refs, namespace) || !Readable(refs, oracle) then Err
        else
          match OldRefs(req)
          case Err => Err
          case Ok(prev) =>
            if refs + prev == [] then Ok(req.asked)
            else if req.asked.containers == [] then Err
            else
              Ok(req.asked.(containers := req.asked.containers[0 :=
                HandleAll(WithActions(prev, refs, refs + prev), req.asked.containers[0])]))
  }

  /** NotebookWebhook.Handle on create and update of a notebook not being deleted. */
  method HandleRequest(req: Request, namespace: string, oracle: set<SecretRef>) returns (r: Result<Notebook>)
    ensures r == Admit(req, namespace, oracle)
  {
    hide ParseAnnotation, WithActions, HandleAll;
    if req.prev.None? && req.asked.annotation == "" {
      return Ok(req.asked);
    }
    var parsed := ParseConnectionsAnnotation(req.asked.annotation);
    if parsed.Err? {
      return Err;
    }
    var refs := parsed.value;
    for i := 0 to |refs|
      invariant forall j :: 0 <= j < i ==> refs[j].namespace == namespace && refs[j] in oracle
    {
      if refs[i].namespace != namespace || refs[i] !in oracle {
        return Err;
      }
    }
    var prev: seq<SecretRef> := [];
    if req.prev.Some? && req.prev.value.annotation != "" {
      var oldParsed := ParseConnectionsAnnotation(req.prev.value.annotation);
      if oldParsed.Err? {
        return Err;
      }
      prev := oldParsed.value;
    }
    var actions := GetNotebookSecretRefs(req.prev.Some?, prev, refs);
    if |actions| == 0 {
      return Ok(req.asked);
    }
    r := PerformConnectionInjection(req.asked, actions);
  }

  // ---------- What injection keeps over any sequence of requests ----------

  function Names(refs: seq<SecretRef>): (names: seq<string>)
    ensures |names| == |refs| && forall i :: 0 <= i < |refs| ==> names[i] == refs[i].name
  {
    seq(|refs|, i requires 0 <= i < |refs| => refs[i].name)
  }

  function Entries(names: seq<string>): (env: seq<EnvFrom>)
    ensures |env| == |names| && forall i :: 0 <= i < |names| ==> env[i] == Connection(names[i])
  {
    seq(|names|, i requires 0 <= i < |names| => Connection(names[i]))
  }

  predicate DistinctNames(names: seq<string>) {
    forall i, j :: 0 <= i < j < |names| ==> names[i] != names[j]
  }

  predicate NamesNone(user: seq<EnvFrom>, name: string) {
    forall i :: 0 <= i < |user| ==> user[i].secretName != Some(name)
  }

  /** No user entry names a secret that is dropped. */
  predicate ClearOfDropped(user: seq<EnvFrom>, prev: seq<SecretRef>, current: seq<SecretRef>) {
    forall i :: 0 <= i < |prev| && prev[i].name !in Names(current) ==> NamesNone(user, prev[i].name)
  }

  /** An entry of the webhook's form: a secretRef with a name and nothing else. */
  predicate IsConnection(e: EnvFrom) {
    e.secretName.Some? && e.rest == ""
  }

  /** None of the user's entries could be mistaken for the webhook's. */
  predicate Distinguishable(user: seq<EnvFrom>) {
    forall i :: 0 <= i < |user| ==> !IsConnection(user[i])
  }

  /** env is the user's entries in order, then one entry for each of refs and no other. */
  ghost predicate Injected(env: seq<EnvFrom>, user: seq<EnvFrom>, refs: seq<SecretRef>) {
    exists names :: InjectedAs(env, user, refs, names)
  }

  ghost predicate InjectedAs(env: seq<EnvFrom>, user: seq<EnvFrom>, refs: seq<SecretRef>, names: seq<string>) {
    && env == user + Entries(names)
    && DistinctNames(names)
    && (forall x :: x in names <==> x in Names(refs))
  }

  /** names without the given one. */
  function Without(names: seq<string>, x: string): seq<string> {
    if names == [] then []
    else if names[0] == x then names[1..]
    else [names[0]] + Without(names[1..], x)
  }

  lemma {:induction false} WithoutIsRemove(names: seq<string>, x: string)
    ensures RemoveFirst(x, Entries(names)) == Entries(Without(names, x))
  {
    if names != [] {
      assert Entries(names)[1..] == Entries(names[1..]);
      WithoutIsRemove(names[1..], x);
    }
  }

  lemma {:induction false} WithoutNames(names: seq<string>, x: string)
    requires DistinctNames(names)
    ensures DistinctNames(Without(names, x))
    ensures forall y :: y in Without(names, x) <==> y in names && y != x
  {
    if names != [] {
      assert names == [names[0]] + names[1..];
      assert names[0] !in names[1..];
      WithoutNames(names[1..], x);
    }
  }

  lemma {:induction false} RemoveSkipsUser(x: string, user: seq<EnvFrom>, env: seq<EnvFrom>)
    requires NamesNone(user, x)
    ensures RemoveFirst(x, user + env) == user + RemoveFirst(x, env)
  {
    if user == [] {
      assert user + env == env;
    } else {
      assert (user + env)[1..] == user[1..] + env;
      RemoveSkipsUser(x, user[1..], env);
    }
  }

  lemma {:induction false} HandleAllConcat(a: seq<SecretAction>, b: seq<SecretAction>, env: seq<EnvFrom>)
    ensures HandleAll(a + b, env) == HandleAll(b, HandleAll(a, env))
  {
    hide Handle;
    if a == [] {
      assert a + b == b;
    } else {
      assert (a + b)[1..] == a[1..] + b;
      HandleAllConcat(a[1..], b, Handle(a[0], env));
    }
  }

  /** The names added by the creates among refs. */
  function Created(actions: seq<SecretAction>): seq<string> {
    if actions == [] then []
    else (if actions[0].action.Create? then [actions[0].ref.name] else []) + Created(actions[1..])
  }

  lemma EntriesCons(x: string, rest: seq<string>, env: seq<EnvFrom>)
    ensures env + [Connection(x)] + Entries(rest) == env + Entries([x] + rest)
  {
    hide Connection;
  }

  lemma {:induction false} CreateAll(actions: seq<SecretAction>, env: seq<EnvFrom>)
    requires forall i :: 0 <= i < |actions| ==> !actions[i].action.Delete?
    ensures HandleAll(actions, env) == env + Entries(Created(actions))
  {
    hide Entries, Connection;
    if actions == [] {
      NoEntries(env);
    } else {
      var rest := Created(actions[1..]);
      CreateAll(actions[1..], Handle(actions[0], env));
      if actions[0].action.Create? {
        EntriesCons(actions[0].ref.name, rest, env);
      } else {
        assert [] + rest == rest;
      }
    }
  }

  lemma NoEntries(env: seq<EnvFrom>)
    ensures env + Entries([]) == env
  {
  }

  predicate Creates(actions: seq<SecretAction>, x: string) {
    exists i :: 0 <= i < |actions| && actions[i].action.Create? && actions[i].ref.name == x
  }

  lemma {:induction false} CreatedNames(actions: seq<SecretAction>)
    requires forall i, j :: 0 <= i < j < |actions| ==> actions[i].ref.name != actions[j].ref.name
    ensures forall x :: x in Created(actions) <==> Creates(actions, x)
    ensures DistinctNames(Created(actions))
  {
    if actions != [] {
      var rest := actions[1..];
      CreatedNames(rest);
      forall x ensures Creates(actions, x) <==>
        (actions[0].action.Create? && actions[0].ref.name == x) || Creates(rest, x) {
        if Creates(rest, x) {
          var i :| 0 <= i < |rest| && rest[i].action.Create? && rest[i].ref.name == x;
          assert actions[i + 1] == rest[i];
        }
        if Creates(actions, x) {
          var i :| 0 <= i < |actions| && actions[i].action.Create? && actions[i].ref.name == x;
          assert i > 0 ==> rest[i - 1] == actions[i];
        }
      }
      assert !Creates(rest, actions[0].ref.name);
    }
  }

  predicate Deletes(actions: seq<SecretAction>, x: string) {
    exists i :: 0 <= i < |actions| && actions[i].action.Delete? && actions[i].ref.name == x
  }

  lemma {:induction false} DeleteAll(actions: seq<SecretAction>, user: seq<EnvFrom>, names: seq<string>)
    returns (left: seq<string>)
    requires forall i :: 0 <= i < |actions| ==>
      !actions[i].action.Create? && (actions[i].action.Delete? ==> NamesNone(user, actions[i].ref.name))
    requires DistinctNames(names)
    ensures HandleAll(actions, user + Entries(names)) == user + Entries(left)
    ensures DistinctNames(left)
    ensures forall x :: x in left <==> x in names && !Deletes(actions, x)
  {
    if actions == [] {
      left := names;
    } else {
      var a, rest := actions[0], actions[1..];
      assert forall i :: 0 <= i < |rest| ==> rest[i] == actions[i + 1];
      forall x ensures Deletes(actions, x) <==> (a.action.Delete? && a.ref.name == x) || Deletes(rest, x) {
        if Deletes(actions, x) {
          var i :| 0 <= i < |actions| && actions[i].action.Delete? && actions[i].ref.name == x;
          assert i > 0 ==> rest[i - 1] == actions[i];
        }
        if Deletes(rest, x) {
          var i :| 0 <= i < |rest| && rest[i].action.Delete? && rest[i].ref.name == x;
          assert actions[i + 1] == rest[i];
        }
      }
      if a.action.Delete? {
        RemoveSkipsUser(a.ref.name, user, Entries(names));
        WithoutIsRemove(names, a.ref.name);
        WithoutNames(names, a.ref.name);
        left := DeleteAll(rest, user, Without(names, a.ref.name));
      } else {
        left := DeleteAll(rest, user, names);
      }
    }
  }

  /** References of one namespace: what their keys say, their names say. */
  lemma SameNamespaceNames(refs: seq<SecretRef>, namespace: string, r: SecretRef)
    requires SameNamespace(refs, namespace) && r.namespace == namespace
    ensures Key(r) in Keys(refs) <==> r.name in Names(refs)
  {
    hide Key;
    if Key(r) in Keys(refs) {
      var i :| 0 <= i < |refs| && Keys(refs)[i] == Key(r);
      KeyOfNamespace(refs[i], r);
      assert Names(refs)[i] == r.name;
    }
    if r.name in Names(refs) {
      var i :| 0 <= i < |refs| && Names(refs)[i] == r.name;
      assert refs[i] == r;
      assert Keys(refs)[i] == Key(r);
    }
  }

  lemma KeyOfNamespace(a: SecretRef, b: SecretRef)
    requires a.namespace == b.namespace && Key(a) == Key(b)
    ensures a.name == b.name
  {
    assert a.name == Key(a)[|a.namespace| + 1..] && b.name == Key(b)[|a.namespace| + 1..];
  }

  lemma NamesDistinct(refs: seq<SecretRef>, namespace: string)
    requires Distinct(refs) && SameNamespace(refs, namespace)
    ensures DistinctNames(Names(refs))
  {
    forall i, j | 0 <= i < j < |refs| ensures Names(refs)[i] != Names(refs)[j] {
      assert refs[i] != refs[j] && refs[i].namespace == refs[j].namespace;
    }
  }

  lemma CreatesByName(actions: seq<SecretAction>, prev: seq<SecretRef>, current: seq<SecretRef>)
    requires actions == WithActions(prev, current, current)
    requires forall i :: 0 <= i < |current| ==>
      ActionFor(prev, current, current[i]) == if current[i].name in Names(prev) then Keep else Create
    requires DistinctNames(Names(current))
    ensures DistinctNames(Created(actions))
    ensures forall x :: x in Created(actions) <==> x in Names(current) && x !in Names(prev)
  {
    hide ActionFor, Created;
    assert forall i :: 0 <= i < |actions| ==> actions[i].ref.name == Names(current)[i];
    CreatedNames(actions);
    forall x ensures Creates(actions, x) <==> x in Names(current) && x !in Names(prev) {
      if Creates(actions, x) {
        var i :| 0 <= i < |actions| && actions[i].action.Create? && actions[i].ref.name == x;
        assert Names(current)[i] == x;
      }
      if x in Names(current) && x !in Names(prev) {
        var i :| 0 <= i < |current| && Names(current)[i] == x;
        assert actions[i].action.Create?;
      }
    }
  }

  lemma DeletesByName(actions: seq<SecretAction>, prev: seq<SecretRef>, current: seq<SecretRef>, x: string)
    requires actions == WithActions(prev, current, prev)
    requires forall i :: 0 <= i < |prev| ==>
      ActionFor(prev, current, prev[i]) == if prev[i].name in Names(current) then Keep else Delete
    ensures Deletes(actions, x) <==> x in Names(prev) && x !in Names(current)
  {
    hide ActionFor;
    if Deletes(actions, x) {
      var i :| 0 <= i < |actions| && actions[i].action.Delete? && actions[i].ref.name == x;
      assert Names(prev)[i] == x;
    }
    if x in Names(prev) && x !in Names(current) {
      var i :| 0 <= i < |prev| && Names(prev)[i] == x;
      assert actions[i].action.Delete?;
    }
  }

  lemma ConcatDistinct(a: seq<string>, b: seq<string>)
    requires DistinctNames(a) && DistinctNames(b) && forall x :: x in a ==> x !in b
    ensures DistinctNames(a + b)
  {
    forall i, j | 0 <= i < j < |a + b| ensures (a + b)[i] != (a + b)[j] {
      if i < |a| <= j {
        assert a[i] in a && b[j - |a|] in b;
      }
    }
  }

  /** The creates append an entry per new name; what the deletes start from. */
  lemma AfterCreates(names: seq<string>, user: seq<EnvFrom>, prev: seq<SecretRef>, current: seq<SecretRef>,
      namespace: string)
    returns (more: seq<string>)
    requires DistinctNames(names) && forall x :: x in names <==> x in Names(prev)
    requires Distinct(current) && SameNamespace(prev, namespace) && SameNamespace(current, namespace)
    ensures HandleAll(WithActions(prev, current, current + prev), user + Entries(names))
         == HandleAll(WithActions(prev, current, prev), user + Entries(more))
    ensures DistinctNames(more)
    ensures forall x :: x in more <==> x in Names(prev) || x in Names(current)
  {
    hide HandleAll, Created, ActionFor;
    var first, second := WithActions(prev, current, current), WithActions(prev, current, prev);
    assert WithActions(prev, current, current + prev) == first + second;
    HandleAllConcat(first, second, user + Entries(names));
    ActionsByName(prev, current, namespace);
    NamesDistinct(current, namespace);
    CreateAll(first, user + Entries(names));
    CreatesByName(first, prev, current);
    more := names + Created(first);
    ConcatDistinct(names, Created(first));
    assert user + Entries(names) + Entries(Created(first)) == user + Entries(more);
  }

  /** One injection turns the entries of prev into the entries of current and leaves the user's, as
      long as no user entry names a secret that is dropped. */
  lemma InjectStep(env: seq<EnvFrom>, user: seq<EnvFrom>, prev: seq<SecretRef>, current: seq<SecretRef>,
      namespace: string)
    requires Injected(env, user, prev)
    requires Distinct(current) && SameNamespace(prev, namespace) && SameNamespace(current, namespace)
    requires ClearOfDropped(user, prev, current)
    ensures Injected(HandleAll(WithActions(prev, current, current + prev), env), user, current)
  {
    hide HandleAll, Distinct, SameNamespace, ActionFor, Deletes;
    var names :| InjectedAs(env, user, prev, names);
    var more := AfterCreates(names, user, prev, current, namespace);
    ActionsByName(prev, current, namespace);
    var left := DeleteAll(WithActions(prev, current, prev), user, more);
    forall x ensures x in left <==> x in Names(current) {
      DeletesByName(WithActions(prev, current, prev), prev, current, x);
    }
    assert InjectedAs(HandleAll(WithActions(prev, current, current + prev), env), user, current, left);
  }

  // ---------- What a dropped name takes along ----------

  /** How many entries are not of the webhook's form. */
  function OwnCount(env: seq<EnvFrom>): nat {
    if env == [] then 0 else (if IsConnection(env[0]) then 0 else 1) + OwnCount(env[1..])
  }

  lemma {:induction false} OwnCountConcat(a: seq<EnvFrom>, b: seq<EnvFrom>)
    ensures OwnCount(a + b) == OwnCount(a) + OwnCount(b)
  {
    hide IsConnection;
    if a == [] {
      assert a + b == b;
    } else {
      assert (a + b)[1..] == a[1..] + b;
      OwnCountConcat(a[1..], b);
    }
  }

  lemma {:induction false} OwnCountOfEntries(names: seq<string>)
    ensures OwnCount(Entries(names)) == 0
  {
    if names != [] {
      assert Entries(names)[1..] == Entries(names[1..]);
      OwnCountOfEntries(names[1..]);
    }
  }

  lemma {:induction false} OwnCountOfUser(user: seq<EnvFrom>)
    requires Distinguishable(user)
    ensures OwnCount(user) == |user|
  {
    if user != [] {
      OwnCountOfUser(user[1..]);
    }
  }

  lemma OwnCountInjected(env: seq<EnvFrom>, user: seq<EnvFrom>, refs: seq<SecretRef>)
    requires Injected(env, user, refs) && Distinguishable(user)
    ensures OwnCount(env) == |user|
  {
    hide Distinguishable;
    var names :| InjectedAs(env, user, refs, names);
    OwnCountConcat(user, Entries(names));
    OwnCountOfEntries(names);
    OwnCountOfUser(user);
  }

  lemma {:induction false} RemoveOwnCount(name: string, env: seq<EnvFrom>)
    ensures OwnCount(RemoveFirst(name, env)) <= OwnCount(env)
  {
    if env != [] && env[0].secretName != Some(name) {
      RemoveOwnCount(name, env[1..]);
      assert ([env[0]] + RemoveFirst(name, env[1..]))[1..] == RemoveFirst(name, env[1..]);
    }
  }

  /** No action adds an entry that is not of the webhook's form. */
  lemma {:induction false} HandleAllOwnCount(actions: seq<SecretAction>, env: seq<EnvFrom>)
    ensures OwnCount(HandleAll(actions, env)) <= OwnCount(env)
  {
    hide OwnCount, RemoveFirst;
    if actions != [] {
      var a := actions[0];
      HandleAllOwnCount(actions[1..], Handle(a, env));
      match a.action {
        case Create =>
          OwnCountConcat(env, [Connection(a.ref.name)]);
          OwnCountOfEntries([a.ref.name]);
          assert Entries([a.ref.name]) == [Connection(a.ref.name)];
        case Delete => RemoveOwnCount(a.ref.name, env);
        case Keep =>
      }
    }
  }

  /** The first entry of a name is the user's if the user has one. */
  lemma {:induction false} RemoveTakesUser(name: string, user: seq<EnvFrom>, env: seq<EnvFrom>)
    requires Distinguishable(user) && !NamesNone(user, name)
    ensures OwnCount(RemoveFirst(name, user + env)) < OwnCount(user + env)
  {
    assert (user + env)[1..] == user[1..] + env;
    if user[0].secretName != Some(name) {
      RemoveTakesUser(name, user[1..], env);
      assert ([user[0]] + RemoveFirst(name, user[1..] + env))[1..] == RemoveFirst(name, user[1..] + env);
    }
  }

  /** A delete of a name the user's entries carry takes one of them. */
  lemma {:induction false} DeletesTakeUser(actions: seq<SecretAction>, user: seq<EnvFrom>, names: seq<string>, i: nat)
    requires forall j :: 0 <= j < |actions| ==> !actions[j].action.Create?
    requires i < |actions| && actions[i].action.Delete? && !NamesNone(user, actions[i].ref.name)
      && Distinguishable(user)
    ensures OwnCount(HandleAll(actions, user + Entries(names))) < |user|
  {
    hide OwnCount, NamesNone, Distinguishable, RemoveFirst;
    var a, env := actions[0], user + Entries(names);
    OwnCountConcat(user, Entries(names));
    OwnCountOfEntries(names);
    OwnCountOfUser(user);
    if a.action.Delete? && !NamesNone(user, a.ref.name) {
      RemoveTakesUser(a.ref.name, user, Entries(names));
      HandleAllOwnCount(actions[1..], Handle(a, env));
    } else if a.action.Delete? {
      RemoveSkipsUser(a.ref.name, user, Entries(names));
      WithoutIsRemove(names, a.ref.name);
      DeletesTakeUser(actions[1..], user, Without(names, a.ref.name), i - 1);
    } else {
      DeletesTakeUser(actions[1..], user, names, i - 1);
    }
  }

  /** The condition of InjectStep is exact when the user's entries can be told from the webhook's. */
  lemma InjectExactly(env: seq<EnvFrom>, user: seq<EnvFrom>, prev: seq<SecretRef>, current: seq<SecretRef>,
      namespace: string)
    requires Injected(env, user, prev) && Distinguishable(user)
    requires Distinct(current) && SameNamespace(prev, namespace) && SameNamespace(current, namespace)
    ensures Injected(HandleAll(WithActions(prev, current, current + prev), env), user, current) <==>
      ClearOfDropped(user, prev, current)
    ensures !ClearOfDropped(user, prev, current) ==>
      OwnCount(HandleAll(WithActions(prev, current, current + prev), env)) < |user|
  {
    hide HandleAll, Distinct, SameNamespace, ActionFor, OwnCount, Distinguishable, NamesNone;
    if ClearOfDropped(user, prev, current) {
      InjectStep(env, user, prev, current, namespace);
    } else {
      var i :| 0 <= i < |prev| && prev[i].name !in Names(current) && !NamesNone(user, prev[i].name);
      var names :| InjectedAs(env, user, prev, names);
      var more := AfterCreates(names, user, prev, current, namespace);
      ActionsByName(prev, current, namespace);
      DeletesTakeUser(WithActions(prev, current, prev), user, more, i);
      if Injected(HandleAll(WithActions(prev, current, current + prev), env), user, current) {
        OwnCountInjected(HandleAll(WithActions(prev, current, current + prev), env), user, current);
      }
    }
  }

  lemma ActionsByName(prev: seq<SecretRef>, current: seq<SecretRef>, namespace: string)
    requires SameNamespace(prev, namespace) && SameNamespace(current, namespace)
    ensures forall i :: 0 <= i < |current| ==>
      ActionFor(prev, current, current[i]) == if current[i].name in Names(prev) then Keep else Create
    ensures forall i :: 0 <= i < |prev| ==>
      ActionFor(prev, current, prev[i]) == if prev[i].name in Names(current) then Keep else Delete
  {
    hide Key;
    forall i | 0 <= i < |current|
      ensures ActionFor(prev, current, current[i]) == if current[i].name in Names(prev) then Keep else Create
    {
      assert Keys(current)[i] in Keys(current);
      SameNamespaceNames(prev, namespace, current[i]);
    }
    forall i | 0 <= i < |prev|
      ensures ActionFor(prev, current, prev[i]) == if prev[i].name in Names(current) then Keep else Delete
    {
      assert Keys(prev)[i] in Keys(prev);
      SameNamespaceNames(current, namespace, prev[i]);
    }
  }

  /** A stored notebook: its first container holds the user's entries and the annotated secrets. */
  ghost predicate Consistent(nb: Notebook, user: seq<EnvFrom>, namespace: string) {
    && nb.containers != []
    && ParseAnnotation(nb.annotation).Ok?
    && SameNamespace(ParseAnnotation(nb.annotation).value, namespace)
    && Injected(nb.containers[0], user, ParseAnnotation(nb.annotation).value)
  }

  /** No user entry names a secret that the change of annotation drops. */
  predicate ClearUpdate(user: seq<EnvFrom>, before: string, after: string) {
    ParseAnnotation(before).Ok? && ParseAnnotation(after).Ok? ==>
      ClearOfDropped(user, ParseAnnotation(before).value, ParseAnnotation(after).value)
  }

  lemma NoAnnotation()
    ensures ParseAnnotation("") == Ok([])
  {
  }

  lemma CreateConsistent(asked: Notebook, namespace: string, oracle: set<SecretRef>)
    requires asked.containers != []
    requires Admit(Request(None, asked), namespace, oracle).Ok?
    ensures Consistent(Admit(Request(None, asked), namespace, oracle).value, asked.containers[0], namespace)
  {
    hide ParseAnnotation, HandleAll, WithActions;
    NoAnnotation();
    var user := asked.containers[0];
    assert user + Entries([]) == user;
    assert InjectedAs(user, user, [], []);
    if asked.annotation != "" {
      ParseAccepts(asked.annotation);
      InjectStep(user, user, [], ParseAnnotation(asked.annotation).value, namespace);
    }
  }

  /** What an admitted update does to the first container. */
  lemma AdmittedEnv(stored: Notebook, asked: Notebook, namespace: string, oracle: set<SecretRef>)
    requires ParseAnnotation(stored.annotation).Ok?
    requires asked.containers != [] && Admit(Request(Some(stored), asked), namespace, oracle).Ok?
    ensures ParseAnnotation(asked.annotation).Ok? && Accepted(ParseAnnotation(asked.annotation).value)
    ensures SameNamespace(ParseAnnotation(asked.annotation).value, namespace)
    ensures var prev, current := ParseAnnotation(stored.annotation).value, ParseAnnotation(asked.annotation).value;
      var admitted := Admit(Request(Some(stored), asked), namespace, oracle).value;
      && admitted.annotation == asked.annotation && admitted.containers != []
      && admitted.containers[0] == HandleAll(WithActions(prev, current, current + prev), asked.containers[0])
  {
    hide ParseAnnotation, HandleAll, WithActions, Accepted;
    NoAnnotation();
    ParseAccepts(asked.annotation);
    NothingToDo(asked.containers[0]);
  }

  /** An admitted update that carries the stored envFrom keeps the notebook consistent as long as no
      user entry names a dropped secret, and exactly then when the user's entries can be told from
      the webhook's; otherwise a user entry is gone. */
  lemma UpdateConsistent(stored: Notebook, asked: Notebook, user: seq<EnvFrom>, namespace: string,
      oracle: set<SecretRef>)
    requires Consistent(stored, user, namespace)
    requires asked.containers != [] && asked.containers[0] == stored.containers[0]
    requires Admit(Request(Some(stored), asked), namespace, oracle).Ok?
    ensures ClearUpdate(user, stored.annotation, asked.annotation) ==>
      Consistent(Admit(Request(Some(stored), asked), namespace, oracle).value, user, namespace)
    ensures Distinguishable(user) && !ClearUpdate(user, stored.annotation, asked.annotation) ==>
      Admit(Request(Some(stored), asked), namespace, oracle).value.containers != []
      && OwnCount(Admit(Request(Some(stored), asked), namespace, oracle).value.containers[0]) < |user|
  {
    hide ParseAnnotation, HandleAll, WithActions, Injected, Admit, ClearOfDropped, OwnCount, Distinguishable;
    AdmittedEnv(stored, asked, namespace, oracle);
    var prev, current := ParseAnnotation(stored.annotation).value, ParseAnnotation(asked.annotation).value;
    if ClearOfDropped(user, prev, current) {
      InjectStep(stored.containers[0], user, prev, current, namespace);
    } else if Distinguishable(user) {
      InjectExactly(stored.containers[0], user, prev, current, namespace);
    }
  }

  lemma NothingToDo(env: seq<EnvFrom>)
    ensures HandleAll(WithActions([], [], [] + []), env) == env
  {
  }

  /** One update request: the annotation it asks for and the secrets the oracle admits. */
  datatype Edit = Edit(annotation: string, oracle: set<SecretRef>)

  /** The stored notebook after a sequence of requests that each carry the stored containers;
      a denied request changes nothing. */
  function Store(stored: Notebook, edits: seq<Edit>, namespace: string): Notebook
    decreases |edits|
  {
    hide Admit;
    if edits == [] then stored
    else
      var asked := stored.(annotation := edits[0].annotation);
      match Admit(Request(Some(stored), asked), namespace, edits[0].oracle)
      case Err => Store(stored, edits[1..], namespace)
      case Ok(admitted) => Store(admitted, edits[1..], namespace)
  }

  /** No admitted update of the sequence drops a secret that a user entry names. */
  predicate ClearRun(stored: Notebook, user: seq<EnvFrom>, edits: seq<Edit>, namespace: string)
    decreases |edits|
  {
    hide Admit, ClearUpdate;
    edits == [] ||
    match Admit(Request(Some(stored), stored.(annotation := edits[0].annotation)), namespace, edits[0].oracle)
    case Err => ClearRun(stored, user, edits[1..], namespace)
    case Ok(admitted) =>
      && ClearUpdate(user, stored.annotation, edits[0].annotation)
      && ClearRun(admitted, user, edits[1..], namespace)
  }

  /** Over any sequence of updates, the first container's envFrom is the user's entries unchanged
      and in order, then exactly one secretRef for each currently annotated secret, as long as no
      update drops a secret that a user entry names, and exactly then when the user's entries can be
      told from the webhook's. The other containers are never touched. */
  lemma {:induction false} InjectionOverRuns(stored: Notebook, user: seq<EnvFrom>, edits: seq<Edit>, namespace: string)
    requires Consistent(stored, user, namespace)
    ensures ClearRun(stored, user, edits, namespace) ==> Consistent(Store(stored, edits, namespace), user, namespace)
    ensures Distinguishable(user) && Consistent(Store(stored, edits, namespace), user, namespace) ==>
      ClearRun(stored, user, edits, namespace)
    ensures Store(stored, edits, namespace).containers != []
      && Store(stored, edits, namespace).containers[1..] == stored.containers[1..]
    decreases |edits|
  {
    hide ClearUpdate, Consistent, Admit, Distinguishable, OwnCount;
    ConsistentHasContainer(stored, user, namespace);
    if edits != [] {
      var asked := stored.(annotation := edits[0].annotation);
      match Admit(Request(Some(stored), asked), namespace, edits[0].oracle) {
        case Err => InjectionOverRuns(stored, user, edits[1..], namespace);
        case Ok(admitted) =>
          UpdateConsistent(stored, asked, user, namespace, edits[0].oracle);
          AdmitKeepsRest(Request(Some(stored), asked), namespace, edits[0].oracle);
          StoreOwnCount(admitted, edits[1..], namespace);
          if ClearUpdate(user, stored.annotation, edits[0].annotation) {
            InjectionOverRuns(admitted, user, edits[1..], namespace);
          } else if Distinguishable(user) && Consistent(Store(stored, edits, namespace), user, namespace) {
            ConsistentOwnCount(Store(stored, edits, namespace), user, namespace);
          }
      }
    }
  }

  lemma ConsistentOwnCount(nb: Notebook, user: seq<EnvFrom>, namespace: string)
    requires Consistent(nb, user, namespace) && Distinguishable(user)
    ensures nb.containers != [] && OwnCount(nb.containers[0]) == |user|
  {
    hide Distinguishable, OwnCount, ParseAnnotation;
    OwnCountInjected(nb.containers[0], user, ParseAnnotation(nb.annotation).value);
  }

  lemma AdmitOwnCount(req: Request, namespace: string, oracle: set<SecretRef>)
    requires req.asked.containers != [] && Admit(req, namespace, oracle).Ok?
    ensures Admit(req, namespace, oracle).value.containers != []
    ensures OwnCount(Admit(req, namespace, oracle).value.containers[0]) <= OwnCount(req.asked.containers[0])
  {
    hide ParseAnnotation, HandleAll, WithActions, OwnCount;
    if ParseAnnotation(req.asked.annotation).Ok? && OldRefs(req).Ok? {
      var refs, prev := ParseAnnotation(req.asked.annotation).value, OldRefs(req).value;
      HandleAllOwnCount(WithActions(prev, refs, refs + prev), req.asked.containers[0]);
    }
  }

  /** A lost user entry never comes back, and no other container changes. */
  lemma {:induction false} StoreOwnCount(stored: Notebook, edits: seq<Edit>, namespace: string)
    requires stored.containers != []
    ensures var end := Store(stored, edits, namespace);
      end.containers != [] && OwnCount(end.containers[0]) <= OwnCount(stored.containers[0])
        && end.containers[1..] == stored.containers[1..]
    decreases |edits|
  {
    hide Admit, OwnCount;
    if edits != [] {
      var asked := stored.(annotation := edits[0].annotation);
      match Admit(Request(Some(stored), asked), namespace, edits[0].oracle) {
        case Err => StoreOwnCount(stored, edits[1..], namespace);
        case Ok(admitted) =>
          AdmitOwnCount(Request(Some(stored), asked), namespace, edits[0].oracle);
          AdmitKeepsRest(Request(Some(stored), asked), namespace, edits[0].oracle);
          StoreOwnCount(admitted, edits[1..], namespace);
      }
    }
  }

  lemma ConsistentHasContainer(nb: Notebook, user: seq<EnvFrom>, namespace: string)
    requires Consistent(nb, user, namespace)
    ensures nb.containers != []
  {
  }

  lemma AdmitKeepsRest(req: Request, namespace: string, oracle: set<SecretRef>)
    requires req.asked.containers != [] && Admit(req, namespace, oracle).Ok?
    ensures Admit(req, namespace, oracle).value.annotation == req.asked.annotation
    ensures Admit(req, namespace, oracle).value.containers != []
    ensures Admit(req, namespace, oracle).value.containers[1..] == req.asked.containers[1..]
  {
    hide ParseAnnotation, HandleAll, WithActions;
  }

  /** The exception is real: a notebook whose user mounts a secret in an entry of their own is created
      with a connection to the same secret; when the connection is dropped, the user's entry goes and
      the webhook's stays. */
  lemma UserEntryOfSameName(rest: string, ref: SecretRef) returns (asked: Notebook, created: Notebook)
    requires rest != "" && ValidRef(ref) && ByteLen(Print([ref])) <= MAX_ANNOTATION_LENGTH
    ensures asked.containers == [[EnvFrom(Some(ref.name), rest)]]
    ensures Admit(Request(None, asked), ref.namespace, {ref}) == Ok(created)
    ensures Admit(Request(Some(created), created.(annotation := "")), ref.namespace, {})
      == Ok(Notebook("", [[Connection(ref.name)]]))
  {
    hide ParseAnnotation, Print, ByteLen, ValidRef;
    var mine, text := EnvFrom(Some(ref.name), rest), Print([ref]);
    asked := Notebook(text, [[mine]]);
    created := Notebook(text, [[mine, Connection(ref.name)]]);
    assert Accepted([ref]);
    PrintParses([ref]);
    NoAnnotation();
    assert text != "";
    CreatesOne(asked, ref);
    DropsOne(created, ref);
    RemoveFirstAt(ref.name, [mine, Connection(ref.name)], 0);
    assert [mine] + [Connection(ref.name)] == [mine, Connection(ref.name)];
    assert asked.containers[0] == [mine] && asked.containers[0 := [mine, Connection(ref.name)]] == created.containers;
    assert created.containers[0 := [Connection(ref.name)]] == [[Connection(ref.name)]];
  }

  lemma CreatesOne(asked: Notebook, ref: SecretRef)
    requires asked.containers != [] && asked.annotation != "" && ParseAnnotation(asked.annotation) == Ok([ref])
    ensures Admit(Request(None, asked), ref.namespace, {ref})
         == Ok(asked.(containers := asked.containers[0 := asked.containers[0] + [Connection(ref.name)]]))
  {
    hide ParseAnnotation, HandleAll, WithActions;
    OneCreate(asked.containers[0], ref);
    assert |[ref] + []| == 1;
  }

  lemma DropsOne(stored: Notebook, ref: SecretRef)
    requires stored.containers != [] && stored.annotation != "" && ParseAnnotation(stored.annotation) == Ok([ref])
    ensures Admit(Request(Some(stored), stored.(annotation := "")), ref.namespace, {})
         == Ok(Notebook("", stored.containers[0 := RemoveFirst(ref.name, stored.containers[0])]))
  {
    hide ParseAnnotation, HandleAll, WithActions;
    NoAnnotation();
    OneDelete(stored.containers[0], ref);
    assert |[] + [ref]| == 1;
  }

  lemma OneCreate(env: seq<EnvFrom>, ref: SecretRef)
    ensures HandleAll(WithActions([], [ref], [ref] + []), env) == env + [Connection(ref.name)]
  {
    hide Key;
    assert Keys([ref])[0] in Keys([ref]);
    var actions := WithActions([], [ref], [ref] + []);
    assert actions[0] == SecretAction(ref, Create) && actions[1..] == [];
  }

  lemma OneDelete(env: seq<EnvFrom>, ref: SecretRef)
    ensures HandleAll(WithActions([ref], [], [] + [ref]), env) == RemoveFirst(ref.name, env)
  {
    hide Key;
    assert Keys([ref])[0] in Keys([ref]);
    var actions := WithActions([ref], [], [] + [ref]);
    assert actions[0] == SecretAction(ref, Delete) && actions[1..] == [];
  }
}
