/**
 Kubernetes as the operator uses it to write objects: server-side apply with forced ownership over
 leaf fields, each with its set of field managers, and a merge patch that removes one key
 (RFC 7396, section 2).
 */
module ServerSideApply {
  import opened GoText
  import opened Json

  /** The leaf fields of an object that the operator tells apart; `Other` is any other path. A named
      entry of a Deployment's container list is a key of its own, as that list is keyed by name, and
      a Resource key is one leaf below a container's resources, such as limits, cpu. */
  datatype Key =
    | Label(name: string)
    | Annotation(name: string)
    | ControllerRef
    | Data(name: string)
    | Container(name: string)
    | Resource(container: string, path: seq<string>)
    | Replicas
    | Aggregation
    | Rules
    | Other(field: string)

  type Values = map<Key, Json>

  datatype Owned = Owned(value: Json, managers: set<string>)

  type Fields = map<Key, Owned>

  function ValuesOf(f: Fields): Values {
    map k | k in f :: f[k].value
  }

  /** A field the manager no longer applies: it gives up its share, and a field it alone owned goes. */
  predicate Released(f: Fields, manager: string, k: Key)
    requires k in f
  {
    f[k].managers == {manager}
  }

  /** Server-side apply of `applied` by `manager` with ForceOwnership. */
  function Apply(f: Fields, applied: Values, manager: string): Fields {
    map k | k in f.Keys + applied.Keys && (k in applied || !Released(f, manager, k)) ::
      if k in applied then Owned(applied[k], if k in f && f[k].value == applied[k] then f[k].managers + {manager}
        else {manager})
      else Owned(f[k].value, f[k].managers - {manager})
  }

  /** The fields the manager owns, with their values. */
  function OwnedBy(f: Fields, manager: string): Values {
    map k | k in f && manager in f[k].managers :: f[k].value
  }

  /** After an apply the manager owns exactly what it applied. */
  lemma ApplyOwns(f: Fields, applied: Values, manager: string)
    ensures OwnedBy(Apply(f, applied, manager), manager) == applied
  {
  }

  /** A field that other managers own and the payload leaves out keeps its value and its owners. */
  lemma ApplyKeepsForeign(f: Fields, applied: Values, manager: string, k: Key)
    requires k in f && k !in applied && manager !in f[k].managers
    ensures k in Apply(f, applied, manager) && Apply(f, applied, manager)[k] == f[k]
  {
  }

  /** Applying the same payload again changes nothing. */
  lemma ApplyTwice(f: Fields, applied: Values, manager: string)
    ensures Apply(Apply(f, applied, manager), applied, manager) == Apply(f, applied, manager)
  {
    var g := Apply(f, applied, manager);
    var h := Apply(g, applied, manager);
    forall k ensures (k in h <==> k in g) && (k in g ==> h[k] == g[k]) {
      if k in g && k !in applied {
        assert g[k].managers - {manager} == g[k].managers;
        assert !Released(g, manager, k);
      }
    }
  }

  /** A further apply leaves the object alone exactly when its payload is what the manager owns. */
  lemma ApplyChangesNothing(f: Fields, applied: Values, manager: string)
    ensures Apply(f, applied, manager) == f <==> OwnedBy(f, manager) == applied
  {
    var g := Apply(f, applied, manager);
    ApplyOwns(f, applied, manager);
    if OwnedBy(f, manager) == applied {
      forall k ensures (k in g <==> k in f) && (k in f ==> g[k] == f[k]) {
        if k in f {
          assert manager in f[k].managers <==> k in applied;
          assert f[k].managers + {manager} == f[k].managers <==> manager in f[k].managers;
          assert manager !in f[k].managers ==> f[k].managers - {manager} == f[k].managers;
        }
      }
    }
  }

  /** The merge patch {"data": {key: null}}: the key goes, whoever owns it. */
  function RemoveKey(f: Fields, k: Key): Fields {
    f - {k}
  }

  // ---------- A fixed script of writes ----------

  /** One write of a manager that always writes the same things. */
  datatype Write = Applying(values: Values) | Removing(key: Key)

  function Written(f: Fields, w: Write, manager: string): Fields {
    match w
    case Applying(values) => Apply(f, values, manager)
    case Removing(key) => RemoveKey(f, key)
  }

  function AllWritten(f: Fields, ws: seq<Write>, manager: string): Fields {
    if ws == [] then f else Written(AllWritten(f, ws[..|ws| - 1], manager), ws[|ws| - 1], manager)
  }

  function At(f: Fields, k: Key): Option<Owned> {
    if k in f then Some(f[k]) else None
  }

  /** What one write makes of one field. */
  function FieldWritten(x: Option<Owned>, w: Write, k: Key, manager: string): Option<Owned> {
    match w
    case Removing(key) => if key == k then None else x
    case Applying(values) =>
      if k in values then Some(Owned(values[k], if x.Some?
        && x.value.value == values[k] then x.value.managers + {manager} else {manager}))
      else if x.None? || x.value.managers == {manager} then None
      else Some(Owned(x.value.value, x.value.managers - {manager}))
  }

  lemma WrittenAt(f: Fields, w: Write, k: Key, manager: string)
    ensures At(Written(f, w, manager), k) == FieldWritten(At(f, k), w, k, manager)
  {
  }

  function Others(x: Option<Owned>, manager: string): set<string> {
    if x.Some? then x.value.managers - {manager} else {}
  }

  /** Writes never bring another manager back. */
  lemma {:induction false} OthersShrink(f: Fields, ws: seq<Write>, k: Key, manager: string)
    ensures Others(At(AllWritten(f, ws, manager), k), manager) <= Others(At(f, k), manager)
  {
    hide At, Written;
    if ws != [] {
      OthersShrink(f, ws[..|ws| - 1], k, manager);
      WrittenAt(AllWritten(f, ws[..|ws| - 1], manager), ws[|ws| - 1], k, manager);
    }
  }

  /** When another manager's share of a field survives the writes, they never changed its value, and
      they treat every field with that value and those other managers alike. */
  lemma {:induction false} OthersKept(f: Fields, g: Fields, ws: seq<Write>, k: Key, manager: string)
    requires k in f && k in g && f[k].value == g[k].value
      && f[k].managers - {manager} == g[k].managers - {manager} != {}
    requires Others(At(AllWritten(f, ws, manager), k), manager) == f[k].managers - {manager}
    ensures k in AllWritten(f, ws, manager) && AllWritten(f, ws, manager)[k].value == f[k].value
    ensures k in AllWritten(g, ws, manager) && AllWritten(g, ws, manager)[k].value == f[k].value
    ensures AllWritten(g, ws, manager)[k].managers - {manager} == f[k].managers - {manager}
  {
    hide Written;
    if ws != [] {
      var n := |ws| - 1;
      OthersShrink(f, ws[..n], k, manager);
      WrittenAt(AllWritten(f, ws[..n], manager), ws[n], k, manager);
      WrittenAt(AllWritten(g, ws[..n], manager), ws[n], k, manager);
      OthersKept(f, g, ws[..n], k, manager);
    }
  }

  /** What writes make of a field depends on that field alone. */
  lemma {:induction false} FieldsApart(f: Fields, g: Fields, ws: seq<Write>, k: Key, manager: string)
    requires At(f, k) == At(g, k)
    ensures At(AllWritten(f, ws, manager), k) == At(AllWritten(g, ws, manager), k)
  {
    hide At, Written, FieldWritten;
    if ws != [] {
      var n := |ws| - 1;
      FieldsApart(f, g, ws[..n], k, manager);
      WrittenAt(AllWritten(f, ws[..n], manager), ws[n], k, manager);
      WrittenAt(AllWritten(g, ws[..n], manager), ws[n], k, manager);
    }
  }

  /** A field that was absent is absent again or the manager's alone. */
  lemma {:induction false} NewIsOwned(f: Fields, ws: seq<Write>, k: Key, manager: string)
    requires k !in f
    ensures k in AllWritten(f, ws, manager) ==> AllWritten(f, ws, manager)[k].managers == {manager}
  {
    hide Written;
    if ws != [] {
      NewIsOwned(f, ws[..|ws| - 1], k, manager);
      WrittenAt(AllWritten(f, ws[..|ws| - 1], manager), ws[|ws| - 1], k, manager);
    }
  }

  lemma SameOthers(a: set<string>, b: set<string>, manager: string)
    ensures a - {manager} == b - {manager} ==> a + {manager} == b + {manager}
  {
    assert a + {manager} == (a - {manager}) + {manager} && b + {manager} == (b - {manager}) + {manager};
  }

  lemma NoOthers(a: set<string>, manager: string)
    ensures a - {manager} <= {manager} - {manager} ==> a + {manager} == {manager}
    ensures manager in a ==> a + {manager} == a
    ensures manager !in a ==> a - {manager} == a
  {
    if a - {manager} <= {manager} - {manager} {
      forall x | x in a ensures x == manager {
        assert x != manager ==> x in a - {manager};
      }
    }
  }

  lemma {:induction false} FieldSettles(f: Fields, ws: seq<Write>, k: Key, manager: string)
    ensures At(AllWritten(AllWritten(f, ws, manager), ws, manager), k) == At(AllWritten(f, ws, manager), k)
  {
    hide Written;
    if ws != [] {
      var n, w := |ws| - 1, ws[|ws| - 1];
      var z := AllWritten(f, ws[..n], manager);
      var y := Written(z, w, manager);
      FieldSettles(f, ws[..n], k, manager);
      WrittenAt(z, w, k, manager);
      var again := AllWritten(y, ws[..n], manager);
      WrittenAt(again, w, k, manager);
      OthersShrink(y, ws[..n], k, manager);
      if k in z {
        NoOthers(z[k].managers, manager);
      }
      if At(z, k) == At(y, k) {
        FieldsApart(z, y, ws[..n], k, manager);
      } else if k !in y {
        NewIsOwned(y, ws[..n], k, manager);
      } else if k in z && z[k].managers - {manager} != {} && z[k].value == y[k].value {
        OthersKept(z, y, ws[..n], k, manager);
        SameOthers(again[k].managers, z[k].managers, manager);
      } else if k in again {
        NoOthers(again[k].managers, manager);
      }
    }
  }

  /** A manager that repeats the same writes in the same order changes nothing the second time,
      even if they contradict each other on the way. */
  lemma ScriptSettles(f: Fields, ws: seq<Write>, manager: string)
    ensures AllWritten(AllWritten(f, ws, manager), ws, manager) == AllWritten(f, ws, manager)
  {
    hide AllWritten;
    var g := AllWritten(f, ws, manager);
    var h := AllWritten(g, ws, manager);
    forall k ensures (k in h <==> k in g) && (k in g ==> h[k] == g[k]) {
      FieldSettles(f, ws, k, manager);
    }
  }
}
