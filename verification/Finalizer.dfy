/**
 The finalizer protocol as a state machine over single API calls (internal/controller/
 workbenches_controller.go): users edit and delete the CR between any two calls of a reconcile, any
 call may fail, and the operator may crash at any point. One reconcile runs at a time and its
 reads are current; the operand namespace stays the same; nobody else edits the finalizer or adds
 the operator's labels to an object.
 */
module Finalizer {
  import opened GoText
  import opened ServerSideApply
  import opened Manifests
  import opened Json
  import ManifestMeaning
  import ManifestApply

  /** The Workbenches CR; every write gives it a fresh resource version. */
  datatype Cr = Cr(version: nat, finalizer: bool, deleting: bool, managed: bool)

  /** Where the running reconcile is. `released` of a cleanup is the CR whose finalizer goes if the
      cleanup succeeds, absent when the CR is only set to Removed. */
  datatype Pc =
    | Idle
    | Read(cr: Cr)
    | Working
    | Cleaning(released: Option<Cr>, kind: nat, pending: seq<Id>, errors: bool)
    | Releasing(cr: Cr)

  datatype State = State(cr: Option<Cr>, clock: nat, objects: Objects, pc: Pc)

  const KIND_COUNT: nat := |CLEANUP_KINDS| + |CLUSTER_CLEANUP_KINDS|

  /** The k-th list of a cleanup returns the object. */
  predicate AtKind(k: nat, namespace: string, id: Id)
    requires k < KIND_COUNT
  {
    if k < |CLEANUP_KINDS| then Targets(CLEANUP_KINDS[k], Some(namespace), id)
    else Targets(CLUSTER_CLEANUP_KINDS[k - |CLEANUP_KINDS|], None, id)
  }

  /** An object that carries the operator's labels and that cleanup is responsible for. */
  predicate IsOperand(objects: Objects, namespace: string, id: Id) {
    id in objects && Labelled(objects[id]) && exists k: nat :: k < KIND_COUNT && AtKind(k, namespace, id)
  }

  datatype Event =
    // other actors
    | Create(managed: bool)
    | Edit(managed: bool)
    | Touch
    | Delete
    | Drift(id: Id, fields: Option<Fields>)
    // the operator
    | Get
    | Begin(ok: bool)
    | Work(id: Id, fields: Option<Fields>)
    | Stop
    | ListKind(ok: bool, ids: seq<Id>)
    | DeleteNext(ok: bool)
    | EndCleanup
    | Release(ok: bool)

  /** Whether the event can happen; a failing call is always possible. */
  ghost predicate Enabled(s: State, namespace: string, e: Event) {
    match e
    case Create(_) => s.cr.None?
    case Edit(_) => s.cr.Some?
    case Touch => s.cr.Some?
    case Delete => s.cr.Some?
    case Drift(id, fields) => fields.Some? && Labelled(fields.value) ==> id in s.objects && Labelled(s.objects[id])
    case Get => s.pc.Idle? && s.cr.Some?
    case Begin(_) => s.pc.Read?
    case Work(_, _) => s.pc.Working?
    case Stop => true
    case ListKind(ok, ids) => s.pc.Cleaning? && s.pc.pending == [] && s.pc.kind < KIND_COUNT
      && (ok ==> forall id :: id in ids <==>
        id in s.objects && Labelled(s.objects[id]) && AtKind(s.pc.kind, namespace, id))
    case DeleteNext(_) => s.pc.Cleaning? && s.pc.pending != []
    case EndCleanup => s.pc.Cleaning? && s.pc.pending == [] && s.pc.kind == KIND_COUNT
    case Release(_) => s.pc.Releasing?
  }

  function Put(objects: Objects, id: Id, fields: Option<Fields>): Objects {
    if fields.Some? then objects[id := fields.value] else objects - {id}
  }

  /** An update of the CR goes through only if nobody changed it since it was read. */
  predicate Updates(s: State, ok: bool, read: Cr) {
    ok && s.cr == Some(read)
  }

  function Write(s: State, cr: Cr): State {
    s.(cr := Some(cr.(version := s.clock)), clock := s.clock + 1)
  }

  /** What the reconcile does once the finalizer is in place. */
  function Proceed(managed: bool): Pc {
    if managed then Working else Cleaning(None, 0, [], false)
  }

  function Next(s: State, namespace: string, e: Event): State {
    match e
    case Create(managed) => Write(s, Cr(0, false, false, managed))
    case Edit(managed) => if s.cr.None? then s else Write(s, s.cr.value.(managed := managed))
    case Touch => if s.cr.None? then s else Write(s, s.cr.value)
    case Delete =>
      if s.cr.None? then s
      else if s.cr.value.finalizer then Write(s, s.cr.value.(deleting := true))
      else s.(cr := None)
    case Drift(id, fields) => s.(objects := Put(s.objects, id, fields))
    case Get => if s.cr.None? then s else s.(pc := Read(s.cr.value))
    case Begin(ok) =>
      if !s.pc.Read? then s
      else
        var read := s.pc.cr;
        if read.deleting then s.(pc := if read.finalizer then Cleaning(Some(read), 0, [], false) else Idle)
        else if read.finalizer then s.(pc := Proceed(read.managed))
        else if Updates(s, ok, read) then Write(s, read.(finalizer := true)).(pc := Proceed(read.managed))
        else s.(pc := Idle)
    case Work(id, fields) => s.(objects := Put(s.objects, id, fields))
    case Stop => s.(pc := Idle)
    case ListKind(ok, ids) =>
      if !s.pc.Cleaning? then s
      else s.(pc := s.pc.(kind := s.pc.kind + 1, pending := if ok then ids else [], errors := s.pc.errors || !ok))
    case DeleteNext(ok) =>
      if !s.pc.Cleaning? || s.pc.pending == [] then s
      else
        var rest := s.pc.(pending := s.pc.pending[1..]);
        if ok then s.(objects := s.objects - {s.pc.pending[0]}, pc := rest) else s.(pc := rest.(errors := true))
    case EndCleanup =>
      if !s.pc.Cleaning? then s
      else s.(pc := if !s.pc.errors && s.pc.released.Some? then Releasing(s.pc.released.value) else Idle)
    case Release(ok) =>
      if !s.pc.Releasing? then s
      else if !Updates(s, ok, s.pc.cr) then s.(pc := Idle)
      else s.(cr := None, pc := Idle)
  }

  ghost predicate Run(s: State, namespace: string, events: seq<Event>) {
    events == [] || (Run(s, namespace, events[..|events| - 1])
                     && Enabled(After(s, namespace, events[..|events| - 1]), namespace, events[|events| - 1]))
  }

  function After(s: State, namespace: string, events: seq<Event>): State {
    if events == [] then s else Next(After(s, namespace, events[..|events| - 1]), namespace, events[|events| - 1])
  }

  // ---------- Safety ----------

  predicate HoldsFinalizer(s: State) {
    s.cr.Some? && s.cr.value.finalizer
  }

  /** Every operand is still ahead of the cleanup: in the list at hand or of a kind not listed yet. */
  predicate Ahead(objects: Objects, namespace: string, kind: nat, pending: seq<Id>) {
    forall id :: id in objects && IsOperand(objects, namespace, id) ==>
      id in pending || exists k: nat :: kind <= k < KIND_COUNT && AtKind(k, namespace, id)
  }

  predicate NoOperands(objects: Objects, namespace: string) {
    forall id :: id in objects ==> !IsOperand(objects, namespace, id)
  }

  predicate Safe(s: State, namespace: string) {
    && (HoldsFinalizer(s) || NoOperands(s.objects, namespace))
    && (match s.pc
        case Idle => true
        case Read(cr) => cr.finalizer ==> HoldsFinalizer(s)
        case Working => HoldsFinalizer(s)
        case Cleaning(released, kind, pending, errors) =>
          HoldsFinalizer(s) && kind <= KIND_COUNT && (errors || Ahead(s.objects, namespace, kind, pending))
        case Releasing(_) => NoOperands(s.objects, namespace))
  }

  predicate Initial(s: State, namespace: string) {
    s.pc.Idle? && s.cr.None? && NoOperands(s.objects, namespace)
  }

  lemma OperandExists(objects: Objects, namespace: string, id: Id)
    requires IsOperand(objects, namespace, id)
    ensures id in objects
  {
    hide Labelled, AtKind;
  }

  lemma StepKeepsSafe(s: State, namespace: string, e: Event)
    requires Safe(s, namespace) && Enabled(s, namespace, e)
    ensures Safe(Next(s, namespace, e), namespace)
  {
    hide Labelled, AtKind;
  }

  /** Finalizer safety over every run: whenever an operand exists, the CR exists and holds the
      finalizer, whatever failed and whenever the user deleted the CR. */
  lemma {:induction false} OperandsAreGuarded(s: State, namespace: string, events: seq<Event>)
    requires Initial(s, namespace) && Run(s, namespace, events)
    ensures Safe(After(s, namespace, events), namespace)
    ensures forall id :: IsOperand(After(s, namespace, events).objects, namespace, id) ==>
      HoldsFinalizer(After(s, namespace, events))
  {
    hide Next, Enabled, IsOperand;
    if events != [] {
      var n := |events| - 1;
      OperandsAreGuarded(s, namespace, events[..n]);
      StepKeepsSafe(After(s, namespace, events[..n]), namespace, events[n]);
    }
    var end := After(s, namespace, events);
    forall id | IsOperand(end.objects, namespace, id) ensures HoldsFinalizer(end) {
      OperandExists(end.objects, namespace, id);
    }
  }

  /** In every run the finalizer is only ever dropped by the last call of a deletion whose cleanup
      had no error, and then no operand is left. */
  lemma FinalizerDroppedWhenClean(s: State, namespace: string, events: seq<Event>, e: Event)
    requires Initial(s, namespace) && Run(s, namespace, events + [e])
    requires HoldsFinalizer(After(s, namespace, events)) && !HoldsFinalizer(After(s, namespace, events + [e]))
    ensures e.Release? && After(s, namespace, events).cr.value.deleting
    ensures NoOperands(After(s, namespace, events + [e]).objects, namespace)
  {
    hide NoOperands;
    assert (events + [e])[..|events|] == events;
    OperandsAreGuarded(s, namespace, events);
    ReleasingIsDeleting(s, namespace, events);
  }

  /** The CR a cleanup will release was read while it was being deleted. */
  lemma {:induction false} ReleasingIsDeleting(s: State, namespace: string, events: seq<Event>)
    requires Initial(s, namespace) && Run(s, namespace, events)
    ensures var pc := After(s, namespace, events).pc;
      && (pc.Cleaning? && pc.released.Some? ==> pc.released.value.deleting)
      && (pc.Releasing? ==> pc.cr.deleting)
  {
    hide Enabled, NoOperands;
    if events != [] {
      ReleasingIsDeleting(s, namespace, events[..|events| - 1]);
    }
  }

  // ---------- Progress ----------

  lemma {:induction false} RunConcat(s: State, namespace: string, a: seq<Event>, b: seq<Event>)
    requires Run(s, namespace, a) && Run(After(s, namespace, a), namespace, b)
    ensures Run(s, namespace, a + b) && After(s, namespace, a + b) == After(After(s, namespace, a), namespace, b)
  {
    hide Next, Enabled;
    if b == [] {
      assert a + b == a;
    } else {
      RunConcat(s, namespace, a, b[..|b| - 1]);
      assert (a + b)[..|a + b| - 1] == a + b[..|b| - 1];
    }
  }

  lemma RunOne(s: State, namespace: string, e: Event)
    requires Enabled(s, namespace, e)
    ensures Run(s, namespace, [e]) && After(s, namespace, [e]) == Next(s, namespace, e)
  {
    hide Next, Enabled;
    assert [e][..0] == [];
  }

  /** The list a successful List returns, in some order. */
  lemma Listing(x: set<Id>) returns (ids: seq<Id>)
    ensures forall id :: id in ids <==> id in x
  {
    ids := [];
    var todo := x;
    while todo != {}
      invariant todo <= x && forall id :: id in ids <==> id in x && id !in todo
    {
      var id :| id in todo;
      todo, ids := todo - {id}, ids + [id];
    }
  }

  /** A cleanup without a failing call ends, kinds left, then objects left, and no operand is left. */
  lemma {:induction false} CleanupCanEnd(s: State, namespace: string) returns (events: seq<Event>)
    requires Safe(s, namespace) && s.pc.Cleaning? && !s.pc.errors
    ensures Run(s, namespace, events)
    ensures var end := After(s, namespace, events);
      && NoOperands(end.objects, namespace) && end.cr == s.cr
      && end.pc == if s.pc.released.Some? then Releasing(s.pc.released.value) else Idle
    decreases KIND_COUNT - s.pc.kind, |s.pc.pending|
  {
    hide Run, After, Labelled, AtKind, KIND_COUNT, NoOperands, IsOperand;
    if s.pc.pending == [] && s.pc.kind == KIND_COUNT {
      RunOne(s, namespace, EndCleanup);
      events := [EndCleanup];
      NothingAhead(s.objects, namespace);
    } else {
      var ids := Listing(set id | id in s.objects && s.pc.kind < KIND_COUNT && Labelled(s.objects[id])
        && AtKind(s.pc.kind, namespace, id));
      var e := if s.pc.pending == [] then ListKind(true, ids) else DeleteNext(true);
      RunOne(s, namespace, e);
      StepKeepsSafe(s, namespace, e);
      var rest := CleanupCanEnd(Next(s, namespace, e), namespace);
      RunConcat(s, namespace, [e], rest);
      events := [e] + rest;
    }
  }

  lemma NothingAhead(objects: Objects, namespace: string)
    requires Ahead(objects, namespace, KIND_COUNT, [])
    ensures NoOperands(objects, namespace)
  {
    hide AtKind, Labelled, KIND_COUNT, IsOperand;
  }

  lemma {:induction false} DeletingHoldsFinalizer(s: State, namespace: string, events: seq<Event>)
    requires Initial(s, namespace) && Run(s, namespace, events)
    ensures var end := After(s, namespace, events); end.cr.Some? && end.cr.value.deleting ==> end.cr.value.finalizer
  {
    hide NoOperands;
    if events != [] {
      DeletingHoldsFinalizer(s, namespace, events[..|events| - 1]);
    }
  }

  /** From every reachable state with a CR the operator can get to where a fresh reconcile starts. */
  lemma CanBegin(s: State, namespace: string, events: seq<Event>)
    requires Initial(s, namespace) && Run(s, namespace, events) && After(s, namespace, events).cr.Some?
    ensures var cr, all := After(s, namespace, events).cr.value, events + [Stop, Get, Begin(true)];
      var end := After(s, namespace, all);
      && Run(s, namespace, all) && Safe(end, namespace) && end.cr.Some?
      && end.cr.value.deleting == cr.deleting && end.cr.value.managed == cr.managed && end.cr.value.finalizer
      && end.pc == (if cr.deleting then Cleaning(end.cr, 0, [], false)
           else if cr.managed then Working else Cleaning(None, 0, [], false))
  {
    hide Run, After, NoOperands, Initial, Safe;
    DeletingHoldsFinalizer(s, namespace, events);
    var s0 := After(s, namespace, events);
    var s1 := Next(s0, namespace, Stop);
    var s2 := Next(s1, namespace, Get);
    RunOne(s0, namespace, Stop);
    RunOne(s1, namespace, Get);
    RunOne(s2, namespace, Begin(true));
    RunConcat(s1, namespace, [Get], [Begin(true)]);
    RunConcat(s0, namespace, [Stop], [Get] + [Begin(true)]);
    assert [Stop] + ([Get] + [Begin(true)]) == [Stop, Get, Begin(true)];
    RunConcat(s, namespace, events, [Stop, Get, Begin(true)]);
    OperandsAreGuarded(s, namespace, events + [Stop, Get, Begin(true)]);
  }

  /** A deletion never gets stuck: from every reachable state in which the CR is being deleted,
      whatever failed before, the operator can still reach the state without CR and operands. */
  lemma DeletionCanComplete(s: State, namespace: string, events: seq<Event>) returns (more: seq<Event>)
    requires Initial(s, namespace) && Run(s, namespace, events)
    requires After(s, namespace, events).cr.Some? && After(s, namespace, events).cr.value.deleting
    ensures Run(s, namespace, events + more)
    ensures After(s, namespace, events + more).cr.None?
      && NoOperands(After(s, namespace, events + more).objects, namespace)
  {
    hide Run, After, NoOperands, Initial, Safe;
    var begun := events + [Stop, Get, Begin(true)];
    CanBegin(s, namespace, events);
    var rest := CleanupCanEnd(After(s, namespace, begun), namespace);
    RunConcat(s, namespace, begun, rest);
    RunOne(After(s, namespace, begun + rest), namespace, Release(true));
    RunConcat(s, namespace, begun + rest, [Release(true)]);
    more := [Stop, Get, Begin(true)] + rest + [Release(true)];
    assert begun + rest + [Release(true)] == events + more;
  }

  /** Nor does a removal: from every reachable state in which the CR says Removed, the operator can still
      reach one without operands, with the CR kept. */
  lemma RemovalCanComplete(s: State, namespace: string, events: seq<Event>) returns (more: seq<Event>)
    requires Initial(s, namespace) && Run(s, namespace, events) && After(s, namespace, events).cr.Some?
    requires !After(s, namespace, events).cr.value.deleting && !After(s, namespace, events).cr.value.managed
    ensures Run(s, namespace, events + more)
    ensures After(s, namespace, events + more).cr.Some? && After(s, namespace, events + more).pc.Idle?
      && NoOperands(After(s, namespace, events + more).objects, namespace)
  {
    hide Run, After, NoOperands, Initial, Safe;
    var begun := events + [Stop, Get, Begin(true)];
    CanBegin(s, namespace, events);
    var rest := CleanupCanEnd(After(s, namespace, begun), namespace);
    RunConcat(s, namespace, begun, rest);
    more := [Stop, Get, Begin(true)] + rest;
    assert begun + rest == events + more;
  }

  /** Nor does the work: from every reachable state with a managed CR that is not being deleted, the
      operator can still get to apply manifests, and then the CR holds the finalizer. */
  lemma WorkCanBegin(s: State, namespace: string, events: seq<Event>) returns (more: seq<Event>)
    requires Initial(s, namespace) && Run(s, namespace, events) && After(s, namespace, events).cr.Some?
    requires !After(s, namespace, events).cr.value.deleting && After(s, namespace, events).cr.value.managed
    ensures Run(s, namespace, events + more)
    ensures After(s, namespace, events + more).pc.Working? && HoldsFinalizer(After(s, namespace, events + more))
  {
    hide Run, After, Initial, Safe;
    CanBegin(s, namespace, events);
    more := [Stop, Get, Begin(true)];
  }

  // ---------- What one call may change ----------

  predicate ByOperator(e: Event) {
    e.Get? || e.Begin? || e.Work? || e.Stop? || e.ListKind? || e.DeleteNext? || e.EndCleanup? || e.Release?
  }

  /** The operator changes the CR in two calls only, each of which needs it as it was read: it adds the
      finalizer to a CR that is not being deleted, and it takes it from one whose cleanup ended without
      error. What the user asked for stays. */
  lemma OperatorEditsFinalizer(s: State, namespace: string, e: Event)
    requires ByOperator(e) && Enabled(s, namespace, e) && Next(s, namespace, e).cr != s.cr
    ensures s.cr.Some?
    ensures var read, next := s.cr.value, Next(s, namespace, e).cr;
      || (e == Begin(true) && s.pc == Read(read) && !read.deleting && !read.finalizer
          && next == Some(Cr(s.clock, true, false, read.managed)))
      || (e == Release(true) && s.pc == Releasing(read) && next.None?)
  {
    hide Labelled, AtKind;
  }

  /** Objects are written while the operator works and deleted while it cleans, one that it listed at a
      time; every other call leaves them alone. */
  lemma OperatorEditsObjects(s: State, namespace: string, e: Event, id: Id)
    requires ByOperator(e) && Enabled(s, namespace, e)
    requires Live(Next(s, namespace, e).objects, id) != Live(s.objects, id)
    ensures e.Work? || e == DeleteNext(true)
    ensures e.Work? ==> s.pc.Working? && e.id == id
    ensures e.DeleteNext? ==> s.pc.Cleaning? && s.pc.pending != [] && s.pc.pending[0] == id
    ensures e.DeleteNext? ==> id !in Next(s, namespace, e).objects
  {
    hide Labelled, AtKind;
  }

  /** An operand, without the lists of kinds: an object with both labels of a kind cleanup looks for, in
      the operand namespace if the kind has one. */
  lemma OperandMeaning(objects: Objects, namespace: string, id: Id)
    ensures IsOperand(objects, namespace, id) <==>
      && id in objects && At(objects[id], COMPONENT).Some? && objects[id][COMPONENT].value == Text("true")
      && At(objects[id], PART_OF).Some? && objects[id][PART_OF].value == Text("workbenches")
      && exists version :: ManifestMeaning.ListedAt(id, namespace, version)
  {
    hide CLEANUP_KINDS, CLUSTER_CLEANUP_KINDS, Targets, ManifestMeaning.ListedAt;
    ManifestMeaning.KeptMeaning(id, namespace, {});
    OperandIsTargeted(objects, namespace, id);
  }

  lemma OperandIsTargeted(objects: Objects, namespace: string, id: Id)
    ensures IsOperand(objects, namespace, id) <==> Orphan(objects, id, namespace, {})
  {
    hide Labelled, Targets;
    if IsOperand(objects, namespace, id) {
      var k: nat :| k < KIND_COUNT && AtKind(k, namespace, id);
      if k < |CLEANUP_KINDS| {
        assert TargetsUndesired(CLEANUP_KINDS, Some(namespace), id, {});
      } else {
        assert TargetsUndesired(CLUSTER_CLEANUP_KINDS, None, id, {});
      }
    }
    if i: nat :| i < |CLEANUP_KINDS| && Targets(CLEANUP_KINDS[i], Some(namespace), id) {
      assert AtKind(i, namespace, id);
    }
    if i: nat :| i < |CLUSTER_CLEANUP_KINDS| && Targets(CLUSTER_CLEANUP_KINDS[i], None, id) {
      assert AtKind(|CLEANUP_KINDS| + i, namespace, id);
    }
  }

  /** cleanupManagedResources removes every operand when it reports no error. */
  lemma CleanupRemovesOperands(before: Objects, after: Objects, namespace: string)
    requires ManifestApply.PartlySwept(before, after, namespace, {}, true)
    ensures NoOperands(after, namespace)
    ensures forall id :: id in before && !IsOperand(before, namespace, id) ==> id in after && after[id] == before[id]
  {
    hide Labelled, Targets;
    forall id ensures Orphan(before, id, namespace, {}) <==> IsOperand(before, namespace, id) {
      OperandIsTargeted(before, namespace, id);
    }
  }
}
