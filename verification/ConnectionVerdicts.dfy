/**
 When the connection webhook admits a request, and with which references: stated on the annotation's
 text, the request and the oracle alone.
 */
module ConnectionVerdicts {
  import opened GoText
  import opened Connections

  // ---------- What an annotation says ----------

  /** The part is "namespace/name", spaces around either aside, with neither of them empty. */
  predicate SpellsAs(part: string, ref: SecretRef, a: string, b: string) {
    && TrimSpace(part) == a + "/" + b && '/' !in a && '/' !in b
    && TrimSpace(a) == ref.namespace != "" && TrimSpace(b) == ref.name != ""
  }

  ghost predicate Spells(part: string, ref: SecretRef) {
    exists a, b :: SpellsAs(part, ref, a, b)
  }

  lemma TwoPieces(a: string, b: string)
    requires '/' !in a && '/' !in b
    ensures Split(a + "/" + b, '/') == [a, b]
  {
    hide Split;
    assert a + "/" + b == a + (['/'] + b);
    SplitCons(a, b, '/');
    SplitNone(b, '/');
  }

  /** A part is blank, spells exactly one reference, or is malformed. */
  lemma PartMeaning(part: string, ref: SecretRef)
    ensures ParsePart(part).Blank? <==> TrimSpace(part) == ""
    ensures ParsePart(part) == Reference(ref) <==> Spells(part, ref)
  {
    hide Split, TrimSpace;
    var t := TrimSpace(part);
    if ParsePart(part) == Reference(ref) {
      var pieces := Split(t, '/');
      JoinSplit(t, '/');
      SplitParts(t, '/');
      assert pieces == [pieces[0], pieces[1]] && pieces[1..] == [pieces[1]];
      assert SpellsAs(part, ref, pieces[0], pieces[1]);
    }
    if a, b :| SpellsAs(part, ref, a, b) {
      TwoPieces(a, b);
    }
  }

  /** The references the parts spell. */
  function Spelled(parts: seq<string>): set<SecretRef> {
    set i | 0 <= i < |parts| && ParsePart(parts[i]).Reference? :: ParsePart(parts[i]).ref
  }

  function Members(refs: seq<SecretRef>): set<SecretRef> {
    set r | r in refs
  }

  lemma {:induction false} DistinctSize(refs: seq<SecretRef>)
    requires Distinct(refs)
    ensures |Members(refs)| == |refs|
  {
    if refs != [] {
      var n := |refs| - 1;
      DistinctSize(refs[..n]);
      assert refs == refs[..n] + [refs[n]];
      assert Members(refs) == Members(refs[..n]) + {refs[n]};
    }
  }

  lemma SpelledCons(parts: seq<string>)
    requires parts != []
    ensures Spelled(parts) ==
      (if ParsePart(parts[0]).Reference? then {ParsePart(parts[0]).ref} else {}) + Spelled(parts[1..])
  {
    hide ParsePart;
    forall i | 0 <= i < |parts| && ParsePart(parts[i]).Reference?
      ensures i > 0 ==> ParsePart(parts[i]).ref in Spelled(parts[1..])
    {
      assert i > 0 ==> parts[1..][i - 1] == parts[i];
    }
    forall i | 0 <= i < |parts[1..]| && ParsePart(parts[1..][i]).Reference?
      ensures ParsePart(parts[1..][i]).ref in Spelled(parts)
    {
      assert parts[1..][i] == parts[i + 1];
    }
  }

  lemma KeysKnow(found: seq<SecretRef>, ref: SecretRef)
    requires Accepted(found) && ValidRef(ref)
    ensures Key(ref) in Keys(found) <==> ref in found
  {
    hide ValidRef, Key;
    if Key(ref) in Keys(found) {
      var i :| 0 <= i < |found| && Keys(found)[i] == Key(ref);
      assert ValidRef(found[i]);
      KeyInjective(found[i], ref);
    }
    if ref in found {
      var i :| 0 <= i < |found| && found[i] == ref;
      assert Keys(found)[i] == Key(ref);
    }
  }

  lemma AcceptOne(found: seq<SecretRef>, ref: SecretRef)
    requires Accepted(found) && ValidRef(ref) && ref !in found && |found| < MAX_CONNECTION_SECRETS
    ensures Accepted(found + [ref]) && Members(found + [ref]) == Members(found) + {ref}
  {
    hide ValidRef;
  }

  predicate NoneMalformed(parts: seq<string>) {
    forall i :: 0 <= i < |parts| ==> !ParsePart(parts[i]).Malformed?
  }

  lemma NoneMalformedCons(parts: seq<string>)
    requires parts != []
    ensures NoneMalformed(parts) <==> !ParsePart(parts[0]).Malformed? && NoneMalformed(parts[1..])
  {
    hide ParsePart;
    assert forall i :: 1 <= i < |parts| ==> parts[i] == parts[1..][i - 1];
  }

  /** All references, those found and those still spelled. */
  function AllRefs(found: seq<SecretRef>, parts: seq<string>): set<SecretRef> {
    Members(found) + Spelled(parts)
  }

  lemma AllRefsCons(found: seq<SecretRef>, parts: seq<string>)
    requires parts != []
    ensures !ParsePart(parts[0]).Reference? ==> AllRefs(found, parts) == AllRefs(found, parts[1..])
    ensures ParsePart(parts[0]).Reference? ==>
      AllRefs(found, parts) == Members(found) + {ParsePart(parts[0]).ref} + Spelled(parts[1..])
    ensures ParsePart(parts[0]).Reference? && ParsePart(parts[0]).ref in found ==>
      AllRefs(found, parts) == AllRefs(found, parts[1..])
  {
    hide ParsePart, Spelled;
    SpelledCons(parts);
  }

  lemma NothingLeft(found: seq<SecretRef>)
    requires Accepted(found)
    ensures |AllRefs(found, [])| <= MAX_CONNECTION_SECRETS && NoneMalformed([])
  {
    hide Accepted;
    AcceptedSize(found);
    NothingSpelled();
    assert AllRefs(found, []) == Members(found);
  }

  lemma {:induction false} PartsVerdict(parts: seq<string>, found: seq<SecretRef>)
    requires NoCommas(parts) && Accepted(found)
    ensures ParseParts(parts, found).Ok? <==>
      NoneMalformed(parts) && |AllRefs(found, parts)| <= MAX_CONNECTION_SECRETS
  {
    hide ParsePart, Accepted, ValidRef, Key, Keys, Members, Spelled, AllRefs, NoneMalformed;
    if parts == [] {
      NothingLeft(found);
    } else {
      var part, rest := ParsePart(parts[0]), parts[1..];
      assert NoCommas(rest) && ',' !in parts[0];
      AllRefsCons(found, parts);
      NoneMalformedCons(parts);
      match part {
        case Blank => PartsVerdict(rest, found);
        case Malformed =>
        case Reference(ref) =>
          ParsedPartIsValid(parts[0]);
          KeysKnow(found, ref);
          if ref in found {
            PartsVerdict(rest, found);
          } else if |found| >= MAX_CONNECTION_SECRETS {
            TooMany(found, ref, Spelled(rest));
          } else {
            AcceptOne(found, ref);
            OneMore(found, ref, rest);
            PartsVerdict(rest, found + [ref]);
          }
      }
    }
  }

  lemma OneMore(found: seq<SecretRef>, ref: SecretRef, rest: seq<string>)
    ensures AllRefs(found + [ref], rest) == Members(found) + {ref} + Spelled(rest)
  {
    hide Spelled;
    assert Members(found + [ref]) == Members(found) + {ref};
  }

  lemma NothingSpelled()
    ensures Spelled([]) == {}
  {
  }

  lemma AcceptedSize(found: seq<SecretRef>)
    requires Accepted(found)
    ensures |Members(found)| == |found| <= MAX_CONNECTION_SECRETS
  {
    DistinctSize(found);
  }

  lemma InMembers(found: seq<SecretRef>, ref: SecretRef)
    ensures ref in Members(found) <==> ref in found
  {
  }

  lemma TooMany(found: seq<SecretRef>, ref: SecretRef, more: set<SecretRef>)
    requires Accepted(found) && |found| >= MAX_CONNECTION_SECRETS && ref !in found
    ensures |Members(found) + {ref} + more| > MAX_CONNECTION_SECRETS
  {
    AcceptedSize(found);
    InMembers(found, ref);
    SubsetSize(Members(found) + {ref}, Members(found) + {ref} + more);
  }

  lemma {:induction false} SubsetSize(a: set<SecretRef>, b: set<SecretRef>)
    requires a <= b
    ensures |a| <= |b|
  {
    if a != {} {
      var x :| x in a;
      SubsetSize(a - {x}, b - {x});
    }
  }

  /** An annotation is accepted exactly when it is blank, or at most 4096 bytes long with every part
      blank or spelling a reference, and at most 32 different references in all. */
  lemma ParseVerdict(value: string)
    ensures ParseAnnotation(value).Ok? <==>
      || TrimSpace(value) == ""
      || (ByteLen(value) <= 4096 && |Spelled(Split(value, ','))| <= 32
          && forall i :: 0 <= i < |Split(value, ',')| ==>
            TrimSpace(Split(value, ',')[i]) == "" || exists ref :: Spells(Split(value, ',')[i], ref))
  {
    hide ParsePart, ParseParts, Split, TrimSpace, ByteLen, Spelled, Spells;
    var parts := Split(value, ',');
    SplitParts(value, ',');
    PartsVerdict(parts, []);
    assert AllRefs([], parts) == Spelled(parts);
    forall i | 0 <= i < |parts|
      ensures !ParsePart(parts[i]).Malformed? <==> TrimSpace(parts[i]) == "" || exists ref :: Spells(parts[i], ref)
    {
      NotMalformed(parts[i]);
    }
  }

  lemma NotMalformed(part: string)
    ensures !ParsePart(part).Malformed? <==> TrimSpace(part) == "" || exists ref :: Spells(part, ref)
  {
    hide ParsePart, TrimSpace, Spells;
    PartMeaning(part, SecretRef("", ""));
    if ParsePart(part).Reference? {
      PartMeaning(part, ParsePart(part).ref);
    }
    if ref :| Spells(part, ref) {
      PartMeaning(part, ref);
    }
  }

  // ---------- In which order ----------

  /** at[i] is the first part that spells refs[i], and the references stand in the order of these parts. */
  predicate FirstSpelled(parts: seq<string>, refs: seq<SecretRef>, at: seq<nat>) {
    && |at| == |refs|
    && (forall i :: 0 <= i < |at| ==> at[i] < |parts| && ParsePart(parts[at[i]]) == Reference(refs[i]))
    && (forall i, j :: 0 <= i < |at| && 0 <= j < at[i] ==> ParsePart(parts[j]) != Reference(refs[i]))
    && forall i, j :: 0 <= i < j < |at| ==> at[i] < at[j]
  }

  lemma {:induction false} PartsInOrder(parts: seq<string>, done: nat, found: seq<SecretRef>, at: seq<nat>)
      returns (all: seq<nat>)
    requires NoCommas(parts) && Accepted(found) && done <= |parts|
    requires FirstSpelled(parts, found, at) && forall i :: 0 <= i < |at| ==> at[i] < done
    requires forall j :: 0 <= j < done && ParsePart(parts[j]).Reference? ==> ParsePart(parts[j]).ref in found
    requires ParseParts(parts[done..], found).Ok?
    ensures FirstSpelled(parts, ParseParts(parts[done..], found).value, all)
    ensures forall j :: 0 <= j < |parts| && ParsePart(parts[j]).Reference? ==>
      ParsePart(parts[j]).ref in ParseParts(parts[done..], found).value
    decreases |parts| - done
  {
    hide ParsePart, Accepted, ValidRef, Key;
    if done == |parts| {
      return at;
    }
    assert parts[done..][1..] == parts[done + 1..] && parts[done..][0] == parts[done];
    assert ',' !in parts[done];
    match ParsePart(parts[done]) {
      case Blank => all := PartsInOrder(parts, done + 1, found, at);
      case Reference(ref) =>
        ParsedPartIsValid(parts[done]);
        KeysKnow(found, ref);
        if ref in found {
          all := PartsInOrder(parts, done + 1, found, at);
        } else {
          AcceptOne(found, ref);
          all := PartsInOrder(parts, done + 1, found + [ref], at + [done]);
        }
    }
  }

  /** An accepted annotation yields every reference it spells, once, in the order of first mention. */
  lemma ParseOrder(value: string) returns (at: seq<nat>)
    requires ParseAnnotation(value).Ok? && TrimSpace(value) != ""
    ensures FirstSpelled(Split(value, ','), ParseAnnotation(value).value, at)
    ensures forall ref :: ref in ParseAnnotation(value).value <==>
      exists i :: 0 <= i < |Split(value, ',')| && Spells(Split(value, ',')[i], ref)
  {
    hide ParsePart, ParseParts, Split, TrimSpace, ByteLen, Spells;
    var parts := Split(value, ',');
    SplitParts(value, ',');
    assert parts[0..] == parts;
    at := PartsInOrder(parts, 0, [], []);
    var refs := ParseAnnotation(value).value;
    forall ref ensures ref in refs <==> exists i :: 0 <= i < |parts| && Spells(parts[i], ref) {
      forall i | 0 <= i < |parts| ensures Spells(parts[i], ref) <==> ParsePart(parts[i]) == Reference(ref) {
        PartMeaning(parts[i], ref);
      }
      if ref in refs {
        var i :| 0 <= i < |refs| && refs[i] == ref;
        assert ParsePart(parts[at[i]]) == Reference(ref);
      }
    }
  }

  // ---------- Which requests are admitted ----------

  /** The request asks for nothing: a creation without the annotation. */
  predicate AsksNothing(req: Request) {
    req.prev.None? && req.asked.annotation == ""
  }

  /** Every reference is of this namespace, exists, and may be read by the user. */
  predicate AllReadable(refs: seq<SecretRef>, namespace: string, oracle: set<SecretRef>) {
    forall r :: r in refs ==> r.namespace == namespace && r in oracle
  }

  lemma ReadableExactly(refs: seq<SecretRef>, namespace: string, oracle: set<SecretRef>)
    ensures SameNamespace(refs, namespace) && Readable(refs, oracle) <==> AllReadable(refs, namespace, oracle)
  {
    assert forall i :: 0 <= i < |refs| ==> refs[i] in refs;
    if SameNamespace(refs, namespace) && Readable(refs, oracle) {
      forall r | r in refs ensures r.namespace == namespace && r in oracle {
        var i :| 0 <= i < |refs| && refs[i] == r;
      }
    }
  }

  /** No request is admitted that names a secret of another namespace, one that does not exist, or one
      the user may not read. */
  lemma AdmittedIsReadable(req: Request, namespace: string, oracle: set<SecretRef>)
    requires Admit(req, namespace, oracle).Ok? && req.asked.annotation != ""
    ensures ParseAnnotation(req.asked.annotation).Ok?
    ensures forall r :: r in ParseAnnotation(req.asked.annotation).value ==> r.namespace == namespace && r in oracle
  {
    hide ParseAnnotation, WithActions, HandleAll, SameNamespace, Readable;
    if ParseAnnotation(req.asked.annotation).Ok? {
      ReadableExactly(ParseAnnotation(req.asked.annotation).value, namespace, oracle);
    }
  }

  /** The exact verdict: a request that asks for something is refused exactly when its annotation does
      not parse, names a secret it may not, the annotation before does not parse, or there is something
      to inject or remove and no container. */
  lemma AdmitVerdict(req: Request, namespace: string, oracle: set<SecretRef>)
    ensures var refs := ParseAnnotation(req.asked.annotation);
      var before := if req.prev.Some? then ParseAnnotation(req.prev.value.annotation) else Ok([]);
      Admit(req, namespace, oracle).Err? <==>
        && !AsksNothing(req)
        && (refs.Err? || !AllReadable(refs.value, namespace, oracle) || before.Err?
            || (refs.value + before.value != [] && req.asked.containers == []))
  {
    EmptyAnnotation();
    hide ParseAnnotation, WithActions, HandleAll, SameNamespace, Readable;
    if ParseAnnotation(req.asked.annotation).Ok? {
      ReadableExactly(ParseAnnotation(req.asked.annotation).value, namespace, oracle);
    }
  }

  lemma EmptyAnnotation()
    ensures ParseAnnotation("") == Ok([])
  {
  }

  /** A request that asks for nothing, or neither names nor named a secret, is admitted unchanged. */
  lemma AdmittedUnchanged(req: Request, namespace: string, oracle: set<SecretRef>)
    requires AsksNothing(req) || (ParseAnnotation(req.asked.annotation) == Ok([])
      && (req.prev.Some? ==> ParseAnnotation(req.prev.value.annotation) == Ok([])))
    ensures Admit(req, namespace, oracle) == Ok(req.asked)
  {
    hide ParseAnnotation, WithActions, HandleAll;
  }

  lemma {:induction false} HandledEntries(actions: seq<SecretAction>, env: seq<EnvFrom>, e: EnvFrom)
    requires e in HandleAll(actions, env)
    ensures e in env || exists i ::
      0 <= i < |actions| && actions[i].action.Create? && e == EnvFrom(Some(actions[i].ref.name), "")
  {
    hide Handle;
    if actions != [] {
      var rest := actions[1..];
      HandledEntries(rest, Handle(actions[0], env), e);
      if i :| 0 <= i < |rest| && rest[i].action.Create? && e == EnvFrom(Some(rest[i].ref.name), "") {
        assert actions[i + 1] == rest[i];
      } else {
        HandledOne(actions[0], env, e);
      }
    }
  }

  lemma HandledOne(a: SecretAction, env: seq<EnvFrom>, e: EnvFrom)
    requires e in Handle(a, env)
    ensures e in env || (a.action.Create? && e == EnvFrom(Some(a.ref.name), ""))
  {
    if a.action.Delete? {
      RemovedMembers(a.ref.name, env, e);
    }
  }

  lemma {:induction false} RemovedMembers(name: string, env: seq<EnvFrom>, e: EnvFrom)
    requires e in RemoveFirst(name, env)
    ensures e in env
  {
    if env != [] && env[0].secretName != Some(name) && e != env[0] {
      RemovedMembers(name, env[1..], e);
    }
  }

  lemma CreatedIsCurrent(prev: seq<SecretRef>, refs: seq<SecretRef>, i: nat)
    requires i < |refs + prev| && ActionFor(prev, refs, (refs + prev)[i]).Create?
    ensures i < |refs|
  {
    hide Key;
    assert forall j :: 0 <= j < |prev| ==> (refs + prev)[|refs| + j] == prev[j] && Keys(prev)[j] == Key(prev[j]);
  }

  /** Whatever the webhook adds to a container is the entry of a secret the annotation names, of the
      notebook's namespace, that exists and that the user may read. */
  lemma InjectedIsReadable(req: Request, namespace: string, oracle: set<SecretRef>, e: EnvFrom)
    requires Admit(req, namespace, oracle).Ok? && req.asked.containers != []
    requires e in Admit(req, namespace, oracle).value.containers[0] && e !in req.asked.containers[0]
    ensures ParseAnnotation(req.asked.annotation).Ok?
    ensures exists r :: r in ParseAnnotation(req.asked.annotation).value && e == EnvFrom(Some(r.name), "")
    ensures AllReadable(ParseAnnotation(req.asked.annotation).value, namespace, oracle)
  {
    hide ParseAnnotation, HandleAll, SameNamespace, Readable, Key;
    var refs := ParseAnnotation(req.asked.annotation).value;
    var prev := OldRefs(req).value;
    ReadableExactly(refs, namespace, oracle);
    var all := refs + prev;
    var actions := WithActions(prev, refs, all);
    HandledEntries(actions, req.asked.containers[0], e);
    hide ActionFor;
    var i :| 0 <= i < |actions| && actions[i].action.Create? && e == EnvFrom(Some(actions[i].ref.name), "");
    CreatedIsCurrent(prev, refs, i);
    assert all[i] in refs;
  }
}
