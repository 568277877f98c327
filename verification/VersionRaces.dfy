/** New versions made at the same time: each call adds its row, then marks the family's earlier members, then
    joins its row to the family, and these writes of several calls interleave. */
module VersionRaces {
  import opened Common
  import opened Texts
  import opened EvidenceNames
  import opened EvidenceTables
  import Calls = VaultCalls

  /** A call by the write it makes next; family and version number are as it read them at the start. */
  datatype Caller =
    | Found(root: UUID, version: nat)
    | Added(root: UUID, version: nat, id: UUID)
    | Marked(root: UUID, version: nat, id: UUID)
    | CallOver
  {
    predicate Pending(x: UUID) { (Added? || Marked?) && id == x }
  }

  datatype State = State(rows: map<UUID, Row>, callers: map<nat, Caller>)

  const START := State(map[], map[])

  datatype Step =
    | Create(id: UUID, row: Row)
    | Find(n: nat, parent: UUID)
    | Add(n: nat, id: UUID, row: Row)
    | Mark(n: nat, out: Outcome)
    | Join(n: nat, out: Outcome)

  /** A row as an upload writes it. */
  predicate IsFirst(row: Row) { row.parent.None? && row.current && row.version == 1 }

  predicate Enabled(s: State, step: Step) {
    match step
    case Create(id, row) => id !in s.rows && IsFirst(row)
    case Find(n, p) => n !in s.callers && p in s.rows
    case Add(n, id, row) => n in s.callers && s.callers[n].Found? && id !in s.rows && IsFirst(row)
    case Mark(n, _) => n in s.callers && s.callers[n].Added?
    case Join(n, _) => n in s.callers && s.callers[n].Marked?
  }

  function RowsAfter(s: State, step: Step): map<UUID, Row>
    requires Enabled(s, step)
  {
    match step
    case Create(id, row) => s.rows[id := row]
    case Find(_, _) => s.rows
    case Add(_, id, row) => s.rows[id := row]
    case Mark(n, out) => Calls.MarkPrevious(s.rows, s.callers[n].root, out)
    case Join(n, out) => Calls.SetVersion(s.rows, s.callers[n].id, s.callers[n].root, s.callers[n].version, out)
  }

  function CallersAfter(s: State, step: Step): map<nat, Caller>
    requires Enabled(s, step)
  {
    match step
    case Create(_, _) => s.callers
    case Find(n, p) => s.callers[n := Found(Calls.Root(s.rows, p), s.rows[p].version + 1)]
    case Add(n, id, _) => s.callers[n := Added(s.callers[n].root, s.callers[n].version, id)]
    case Mark(n, _) => s.callers[n := Marked(s.callers[n].root, s.callers[n].version, s.callers[n].id)]
    case Join(n, _) => s.callers[n := CallOver]
  }

  function Apply(s: State, step: Step): State
    requires Enabled(s, step)
  {
    State(RowsAfter(s, step), CallersAfter(s, step))
  }

  predicate CanRun(s: State, steps: seq<Step>)
    decreases |steps|
  {
    steps == [] || (Enabled(s, steps[0]) && CanRun(Apply(s, steps[0]), steps[1..]))
  }

  function Run(s: State, steps: seq<Step>): State
    requires CanRun(s, steps)
    decreases |steps|
  {
    if steps == [] then s else Run(Apply(s, steps[0]), steps[1..])
  }

  lemma RunStep(s: State, step: Step, rest: seq<Step>)
    requires Enabled(s, step) && CanRun(Apply(s, step), rest)
    ensures CanRun(s, [step] + rest) && Run(s, [step] + rest) == Run(Apply(s, step), rest)
  {
    assert ([step] + rest)[1..] == rest;
  }

  // ---------------------------------------------------------------- settled parents

  predicate PendingRow(s: State, n: nat, x: UUID) { n in s.callers && s.callers[n].Pending(x) }

  predicate InFlight(s: State, n: nat) { n in s.callers && !s.callers[n].CallOver? }

  ghost predicate Settled(s: State, id: UUID) { forall n :: !PendingRow(s, n, id) }

  /** No new version is made from a row whose own call has not joined it yet. */
  ghost predicate FromSettled(s: State, step: Step) { step.Find? ==> Settled(s, step.parent) }

  ghost predicate AlwaysFromSettled(s: State, steps: seq<Step>)
    requires CanRun(s, steps)
    decreases |steps|
  {
    steps == [] || (FromSettled(s, steps[0]) && AlwaysFromSettled(Apply(s, steps[0]), steps[1..]))
  }

  predicate IsRoot(s: State, root: UUID) { root in s.rows && s.rows[root].parent.None? }

  /** Calls work on families and own rows that exist, their own rows have no parent yet and are different. */
  ghost predicate OwnRows(s: State) {
    && (forall n | InFlight(s, n) :: s.callers[n].root in s.rows)
    && (forall n | n in s.callers && (s.callers[n].Added? || s.callers[n].Marked?) ::
         IsRoot(s, s.callers[n].id) && s.callers[n].id != s.callers[n].root)
    && (forall m, n, x | PendingRow(s, m, x) && PendingRow(s, n, x) :: m == n)
  }

  // ---------------------------------------------------------------- depth of parent links

  /** No parent has a parent; parents exist. */
  ghost predicate Shallow(s: State) {
    forall x | x in s.rows && s.rows[x].parent.Some? :: IsRoot(s, s.rows[x].parent.value)
  }

  ghost predicate Deep(s: State) {
    exists x, p :: x in s.rows && s.rows[x].parent == Some(p) && p in s.rows && s.rows[p].parent.Some?
  }

  lemma OwnRowsKept(s: State, step: Step, s': State)
    requires OwnRows(s) && Shallow(s) && Enabled(s, step)
    requires s'.rows == RowsAfter(s, step) && s'.callers == CallersAfter(s, step)
    ensures OwnRows(s')
  {
    OwnRowsRooted(s, step, s');
    forall n | InFlight(s', n) ensures s'.callers[n].root in s'.rows {
      assert !step.Find? || n != step.n ==> InFlight(s, n);
    }
    forall m, n, x | PendingRow(s', m, x) && PendingRow(s', n, x) ensures m == n {
      assert !step.Add? ==> PendingRow(s, m, x) && PendingRow(s, n, x);
      assert step.Add? && m != step.n ==> PendingRow(s, m, x);
      assert step.Add? && n != step.n ==> PendingRow(s, n, x);
    }
  }

  lemma OwnRowsRooted(s: State, step: Step, s': State)
    requires OwnRows(s) && Enabled(s, step)
    requires s'.rows == RowsAfter(s, step) && s'.callers == CallersAfter(s, step)
    ensures forall n | n in s'.callers && (s'.callers[n].Added? || s'.callers[n].Marked?) ::
              IsRoot(s', s'.callers[n].id) && s'.callers[n].id != s'.callers[n].root
  {
    forall n | n in s'.callers && (s'.callers[n].Added? || s'.callers[n].Marked?)
      ensures IsRoot(s', s'.callers[n].id) && s'.callers[n].id != s'.callers[n].root
    {
      if step.Add? && n == step.n {
        assert InFlight(s, n);
      } else {
        assert PendingRow(s, n, s'.callers[n].id);
        assert step.Join? ==> PendingRow(s, step.n, s.callers[step.n].id);
      }
    }
  }

  /** A call works under the row of a call that has yet to join it. */
  predicate UnderPending(s: State, m: nat, n: nat) { InFlight(s, m) && PendingRow(s, n, s.callers[m].root) }

  /** A call works under a row that has a parent. */
  predicate UnderChild(s: State, m: nat) { InFlight(s, m) && s.callers[m].root in s.rows && !IsRoot(s, s.callers[m].root) }

  /** A row has joined the row of a call that has yet to join it. */
  predicate OverPending(s: State, x: UUID, n: nat) {
    x in s.rows && s.rows[x].parent.Some? && PendingRow(s, n, s.rows[x].parent.value)
  }

  ghost predicate Doomed(s: State) {
    || (exists m, n :: UnderPending(s, m, n))
    || (exists m :: UnderChild(s, m))
    || (exists x, n :: OverPending(s, x, n))
  }

  lemma ShallowKept(s: State, step: Step, s': State)
    requires Shallow(s) && OwnRows(s) && !Doomed(s) && Enabled(s, step)
    requires s'.rows == RowsAfter(s, step)
    ensures Shallow(s')
  {
    if step.Join? {
      assert !UnderChild(s, step.n);
      forall x | x in s'.rows && s'.rows[x].parent.Some? ensures IsRoot(s', s'.rows[x].parent.value) {
        assert PendingRow(s, step.n, s.callers[step.n].id);
        assert !OverPending(s, x, step.n);
      }
    }
  }

  lemma NotUnderPendingKept(s: State, step: Step, s': State, m: nat, n: nat)
    requires Shallow(s) && OwnRows(s) && !Doomed(s) && Enabled(s, step) && FromSettled(s, step)
    requires s'.rows == RowsAfter(s, step) && s'.callers == CallersAfter(s, step)
    ensures !UnderPending(s', m, n)
  {
    assert !UnderPending(s, m, n);
    if step.Find? && m == step.n {
      assert !PendingRow(s, n, step.parent);
      assert !OverPending(s, step.parent, n);
    }
  }

  lemma NotUnderChildKept(s: State, step: Step, s': State, m: nat)
    requires Shallow(s) && OwnRows(s) && !Doomed(s) && Enabled(s, step)
    requires s'.rows == RowsAfter(s, step) && s'.callers == CallersAfter(s, step)
    ensures !UnderChild(s', m)
  {
    assert !UnderChild(s, m);
    if step.Join? {
      assert PendingRow(s, step.n, s.callers[step.n].id);
      assert !UnderPending(s, m, step.n);
    }
  }

  lemma NotOverPendingKept(s: State, step: Step, s': State, x: UUID, n: nat)
    requires Shallow(s) && OwnRows(s) && !Doomed(s) && Enabled(s, step)
    requires s'.rows == RowsAfter(s, step) && s'.callers == CallersAfter(s, step)
    ensures !OverPending(s', x, n)
  {
    assert !OverPending(s, x, n);
    if step.Join? {
      assert !UnderPending(s, step.n, n);
    }
  }

  lemma NotDoomedKept(s: State, step: Step)
    requires Shallow(s) && OwnRows(s) && !Doomed(s) && Enabled(s, step) && FromSettled(s, step)
    ensures !Doomed(Apply(s, step))
  {
    var s' := Apply(s, step);
    forall m, n ensures !UnderPending(s', m, n) { NotUnderPendingKept(s, step, s', m, n); }
    forall m ensures !UnderChild(s', m) { NotUnderChildKept(s, step, s', m); }
    forall x, n ensures !OverPending(s', x, n) { NotOverPendingKept(s, step, s', x, n); }
  }

  lemma {:induction false} StaysShallow(s: State, steps: seq<Step>)
    requires Shallow(s) && OwnRows(s) && !Doomed(s) && CanRun(s, steps) && AlwaysFromSettled(s, steps)
    ensures Shallow(Run(s, steps)) && OwnRows(Run(s, steps)) && !Doomed(Run(s, steps))
    decreases |steps|
  {
    if steps != [] {
      var s1 := Apply(s, steps[0]);
      OwnRowsKept(s, steps[0], s1);
      ShallowKept(s, steps[0], s1);
      NotDoomedKept(s, steps[0]);
      StaysShallow(s1, steps[1..]);
    }
  }

  /** What a run has done that carries one call to its end, with its row joined and no other row changed. */
  ghost predicate Carries(s: State, n: nat, steps: seq<Step>, id: UUID) {
    && InFlight(s, n) && CanRun(s, steps) && AlwaysFromSettled(s, steps)
    && Run(s, steps).callers == s.callers[n := CallOver]
    && (if s.callers[n].Found? then id !in s.rows else id == s.callers[n].id)
    && id in Run(s, steps).rows && Run(s, steps).rows[id].parent == Some(s.callers[n].root)
    && forall x | x in s.rows && x != id :: x in Run(s, steps).rows && Run(s, steps).rows[x] == s.rows[x]
  }

  lemma CarryMarked(s: State, n: nat)
    requires n in s.callers && s.callers[n].Marked? && s.callers[n].id in s.rows
    ensures Carries(s, n, [Join(n, Done)], s.callers[n].id)
  {
    RunStep(s, Join(n, Done), []);
    assert [Join(n, Done)] + [] == [Join(n, Done)];
    assert AlwaysFromSettled(Apply(s, Join(n, Done)), [Join(n, Done)][1..]);
  }

  lemma CarryAdded(s: State, n: nat)
    requires n in s.callers && s.callers[n].Added? && s.callers[n].id in s.rows
    ensures Carries(s, n, [Mark(n, Failed), Join(n, Done)], s.callers[n].id)
  {
    var mark := Mark(n, Failed);
    var s1 := Apply(s, mark);
    assert s1.rows == s.rows;
    CarryMarked(s1, n);
    RunStep(s, mark, [Join(n, Done)]);
    assert [mark] + [Join(n, Done)] == [mark, Join(n, Done)];
    assert [mark, Join(n, Done)][1..] == [Join(n, Done)];
  }

  lemma Carry(s: State, n: nat, free: UUID) returns (steps: seq<Step>, id: UUID)
    requires InFlight(s, n) && OwnRows(s) && free !in s.rows
    ensures Carries(s, n, steps, id)
  {
    if s.callers[n].Marked? {
      steps, id := [Join(n, Done)], s.callers[n].id;
      CarryMarked(s, n);
    } else if s.callers[n].Added? {
      steps, id := [Mark(n, Failed), Join(n, Done)], s.callers[n].id;
      CarryAdded(s, n);
    } else {
      var row := s.rows[s.callers[n].root].(parent := None, current := true, version := 1);
      var add := Add(n, free, row);
      var rest := [Mark(n, Failed), Join(n, Done)];
      CarryAdded(Apply(s, add), n);
      RunStep(s, add, rest);
      assert ([add] + rest)[1..] == rest;
      steps, id := [add] + rest, free;
    }
  }

  lemma {:induction false} RunAppend(s: State, a: seq<Step>, b: seq<Step>)
    requires CanRun(s, a) && CanRun(Run(s, a), b)
    ensures CanRun(s, a + b) && Run(s, a + b) == Run(Run(s, a), b)
    ensures AlwaysFromSettled(s, a) && AlwaysFromSettled(Run(s, a), b) ==> AlwaysFromSettled(s, a + b)
    decreases |a|
  {
    if a == [] {
      assert a + b == b;
    } else {
      assert (a + b)[0] == a[0] && (a + b)[1..] == a[1..] + b;
      RunAppend(Apply(s, a[0]), a[1..], b);
    }
  }

  /** The run makes new versions of settled rows only and ends with a parent that has a parent. */
  ghost predicate Deepens(s: State, steps: seq<Step>) { CanRun(s, steps) && AlwaysFromSettled(s, steps) && Deep(Run(s, steps)) }

  lemma OverPendingDeepens(s: State, x: UUID, n: nat, free: UUID) returns (steps: seq<Step>)
    requires OwnRows(s) && free !in s.rows && OverPending(s, x, n)
    ensures Deepens(s, steps)
  {
    var id;
    steps, id := Carry(s, n, free);
    assert x != id;
  }

  lemma UnderChildDeepens(s: State, m: nat, free: UUID) returns (steps: seq<Step>)
    requires OwnRows(s) && free !in s.rows && UnderChild(s, m)
    ensures Deepens(s, steps)
  {
    var id;
    steps, id := Carry(s, m, free);
    assert s.callers[m].root != id;
  }

  lemma UnderPendingDeepens(s: State, m: nat, n: nat, free: UUID) returns (steps: seq<Step>)
    requires OwnRows(s) && free !in s.rows && UnderPending(s, m, n)
    ensures Deepens(s, steps)
  {
    var root := s.callers[m].root;
    var a, x := Carry(s, m, free);
    var s1 := Run(s, a);
    assert m != n && x != root;
    assert PendingRow(s1, n, root) && root in s1.rows;
    var b, id := CarryPending(s1, n);
    RunAppend(s, a, b);
    steps := a + b;
    assert id == root;
    assert Run(s1, b).rows[x].parent == Some(root) && Run(s1, b).rows[root].parent.Some?;
  }

  lemma CarryPending(s: State, n: nat) returns (steps: seq<Step>, id: UUID)
    requires n in s.callers && (s.callers[n].Added? || s.callers[n].Marked?) && s.callers[n].id in s.rows
    ensures Carries(s, n, steps, id)
  {
    id := s.callers[n].id;
    if s.callers[n].Marked? {
      steps := [Join(n, Done)];
      CarryMarked(s, n);
    } else {
      steps := [Mark(n, Failed), Join(n, Done)];
      CarryAdded(s, n);
    }
  }

  /** The exact condition for depth: from a state whose links have depth at most one, a link of depth two can
      come about, though new versions are made from settled rows only, if and only if some call in flight works
      under a row that has a parent or is still to be joined to one, or some row has joined such a row. */
  lemma DepthWindow(s: State)
    requires Shallow(s) && OwnRows(s) && exists free: UUID :: free !in s.rows
    ensures (exists steps :: Deepens(s, steps)) <==> Doomed(s)
  {
    var free: UUID :| free !in s.rows;
    if m, n :| UnderPending(s, m, n) {
      var steps := UnderPendingDeepens(s, m, n, free);
    } else if m :| UnderChild(s, m) {
      var steps := UnderChildDeepens(s, m, free);
    } else if x, n :| OverPending(s, x, n) {
      var steps := OverPendingDeepens(s, x, n, free);
    }
    if steps :| Deepens(s, steps) {
      if !Doomed(s) {
        StaysShallow(s, steps);
      }
    }
  }

  /** And a state becomes so by exactly one kind of step: a new version begun from a row whose own call has not
      joined it yet. */
  lemma DoomedByIff(s: State, step: Step)
    requires Shallow(s) && OwnRows(s) && !Doomed(s) && Enabled(s, step)
    ensures Doomed(Apply(s, step)) <==> !FromSettled(s, step)
  {
    if FromSettled(s, step) {
      NotDoomedKept(s, step);
    } else {
      var n :| PendingRow(s, n, step.parent);
      assert UnderPending(Apply(s, step), step.n, n);
    }
  }

  /** From nothing, links stay at depth one as long as new versions are made from settled rows. */
  lemma SettledStaysShallow(steps: seq<Step>)
    requires CanRun(START, steps) && AlwaysFromSettled(START, steps)
    ensures Shallow(Run(START, steps)) && !Doomed(Run(START, steps))
  {
    StaysShallow(START, steps);
  }

  // ---------------------------------------------------------------- current members

  predicate CurrentIn(s: State, root: UUID, x: UUID) { Calls.InFamily(s.rows, root, x) && s.rows[x].current }

  ghost predicate OneCurrent(s: State, root: UUID) {
    exists x :: CurrentIn(s, root, x) && forall y | CurrentIn(s, root, y) :: y == x
  }

  /** A call has marked the family and not yet joined its row. */
  predicate Between(s: State, n: nat, root: UUID) { n in s.callers && s.callers[n].Marked? && s.callers[n].root == root }

  predicate MarksRoot(s: State, step: Step, root: UUID) {
    step.Mark? && step.n in s.callers && s.callers[step.n].Added? && s.callers[step.n].root == root
  }

  /** Every bookkeeping write takes effect. */
  predicate Effective(step: Step) { step.Mark? || step.Join? ==> step.out.Effective() }

  predicate AllEffective(steps: seq<Step>) { forall i | 0 <= i < |steps| :: Effective(steps[i]) }

  /** Current in the family, or about to be: the rows of calls between marking and joining. */
  ghost predicate Due(s: State, root: UUID, x: UUID) {
    CurrentIn(s, root, x) || exists n :: Between(s, n, root) && s.callers[n].id == x
  }

  ghost predicate OneDue(s: State, root: UUID) { exists x :: Due(s, root, x) && forall y | Due(s, root, y) :: y == x }

  ghost predicate Orderly(s: State) { Shallow(s) && OwnRows(s) && !Doomed(s) }

  /** Only a marking changes what is due in a family. */
  lemma DueStays(s: State, step: Step, s': State, root: UUID, x: UUID)
    requires Orderly(s) && Enabled(s, step) && Effective(step) && IsRoot(s, root) && !MarksRoot(s, step, root)
    requires s'.rows == RowsAfter(s, step) && s'.callers == CallersAfter(s, step) && IsRoot(s', root)
    ensures Due(s', root, x) <==> Due(s, root, x)
  {
    CurrentElsewhere(s, step, s', root, x);
    if n :| Between(s, n, root) && s.callers[n].id == x {
      assert step.Join? && step.n == n ==> CurrentIn(s', root, x);
      assert !(step.Join? && step.n == n) ==> Between(s', n, root) && s'.callers[n].id == x;
    }
    if n :| Between(s', n, root) && s'.callers[n].id == x {
      assert Between(s, n, root) && s.callers[n].id == x;
    }
  }

  lemma CurrentElsewhere(s: State, step: Step, s': State, root: UUID, x: UUID)
    requires Orderly(s) && Enabled(s, step) && Effective(step) && IsRoot(s, root) && !MarksRoot(s, step, root)
    requires s'.rows == RowsAfter(s, step) && IsRoot(s', root)
    ensures CurrentIn(s', root, x) <==>
            CurrentIn(s, root, x) || (step.Join? && s.callers[step.n].root == root && s.callers[step.n].id == x)
  {
    if step.Mark? {
      assert !UnderChild(s, step.n);
    } else if step.Join? {
      assert IsRoot(s, s.callers[step.n].id);
    }
  }

  /** After a marking, due are the marking call's row and those of the calls in between already. */
  lemma DueAfterMark(s: State, step: Step, s': State, root: UUID, x: UUID)
    requires Orderly(s) && Enabled(s, step) && Effective(step) && MarksRoot(s, step, root)
    requires s'.rows == RowsAfter(s, step) && s'.callers == CallersAfter(s, step)
    ensures Due(s', root, x) <==> x == s.callers[step.n].id || exists m :: Between(s, m, root) && s.callers[m].id == x
  {
    assert !CurrentIn(s', root, x);
    assert Between(s', step.n, root);
    if m :| Between(s, m, root) && s.callers[m].id == x {
      assert Between(s', m, root) && s'.callers[m].id == x;
    }
    if m :| Between(s', m, root) && s'.callers[m].id == x {
      assert m != step.n ==> Between(s, m, root) && s.callers[m].id == x;
    }
  }

  /** Nobody else is between marking and joining in the family. */
  ghost predicate Alone(s: State, root: UUID) { forall m :: !Between(s, m, root) }

  lemma MarkDecides(s: State, step: Step, s': State, root: UUID)
    requires Orderly(s) && Enabled(s, step) && Effective(step) && MarksRoot(s, step, root)
    requires s'.rows == RowsAfter(s, step) && s'.callers == CallersAfter(s, step)
    ensures OneDue(s', root) <==> Alone(s, root)
  {
    var id := s.callers[step.n].id;
    forall x ensures Due(s', root, x) <==> x == id || exists m :: Between(s, m, root) && s.callers[m].id == x {
      DueAfterMark(s, step, s', root, x);
    }
    assert Due(s', root, id);
    if m :| Between(s, m, root) {
      assert Due(s', root, s.callers[m].id);
      assert PendingRow(s, m, s.callers[m].id) && PendingRow(s, step.n, id);
    }
  }

  lemma OthersDecideNothing(s: State, step: Step, s': State, root: UUID)
    requires Orderly(s) && Enabled(s, step) && Effective(step) && IsRoot(s, root) && !MarksRoot(s, step, root)
    requires s'.rows == RowsAfter(s, step) && s'.callers == CallersAfter(s, step) && IsRoot(s', root)
    ensures OneDue(s', root) <==> OneDue(s, root)
  {
    forall x ensures Due(s', root, x) <==> Due(s, root, x) {
      DueStays(s, step, s', root, x);
    }
  }

  predicate MarksIn(s: State, steps: seq<Step>, root: UUID)
    requires CanRun(s, steps)
    decreases |steps|
  {
    steps != [] && (MarksRoot(s, steps[0], root) || MarksIn(Apply(s, steps[0]), steps[1..], root))
  }

  /** When the family was marked for the last time in the run, if ever, no other call was between its marking
      and its joining. */
  ghost predicate LastMarkAlone(s: State, steps: seq<Step>, root: UUID)
    requires CanRun(s, steps)
    decreases |steps|
  {
    steps == [] ||
    var s1 := Apply(s, steps[0]);
    if MarksRoot(s, steps[0], root) && !MarksIn(s1, steps[1..], root) then Alone(s, root)
    else LastMarkAlone(s1, steps[1..], root)
  }

  lemma {:induction false} RootFromStart(s: State, steps: seq<Step>, root: UUID)
    requires CanRun(s, steps) && root in s.rows && IsRoot(Run(s, steps), root)
    ensures IsRoot(s, root)
    decreases |steps|
  {
    if steps != [] {
      assert root in Apply(s, steps[0]).rows;
      assert s.rows[root].parent.Some? ==> Apply(s, steps[0]).rows[root].parent.Some?;
      RootFromStart(Apply(s, steps[0]), steps[1..], root);
    }
  }

  lemma {:induction false} LastMarkDecides(s: State, steps: seq<Step>, root: UUID)
    requires Orderly(s) && CanRun(s, steps) && AlwaysFromSettled(s, steps) && AllEffective(steps)
    requires root in s.rows && IsRoot(Run(s, steps), root)
    ensures OneDue(Run(s, steps), root) <==>
            if MarksIn(s, steps, root) then LastMarkAlone(s, steps, root) else OneDue(s, root)
    decreases |steps|
  {
    if steps != [] {
      var s1 := Apply(s, steps[0]);
      OwnRowsKept(s, steps[0], s1);
      ShallowKept(s, steps[0], s1);
      NotDoomedKept(s, steps[0]);
      RootFromStart(s, steps, root);
      assert root in s1.rows;
      RootFromStart(s1, steps[1..], root);
      assert Effective(steps[0]) && AllEffective(steps[1..]);
      LastMarkDecides(s1, steps[1..], root);
      if MarksRoot(s, steps[0], root) {
        MarkDecides(s, steps[0], s1, root);
      } else {
        OthersDecideNothing(s, steps[0], s1, root);
      }
    }
  }

  lemma NewFamilyCurrent(s: State, step: Step, s': State, root: UUID, y: UUID)
    requires Shallow(s) && Enabled(s, step) && root !in s.rows && s'.rows == RowsAfter(s, step) && root in s'.rows
    ensures CurrentIn(s', root, y) <==> y == root
  {
  }

  lemma NewFamilyAlone(s: State, step: Step, s': State, root: UUID, n: nat)
    requires OwnRows(s) && Enabled(s, step) && root !in s.rows && s'.callers == CallersAfter(s, step)
    ensures !Between(s', n, root)
  {
    assert step.Mark? ==> InFlight(s, step.n);
    assert Between(s, n, root) ==> InFlight(s, n);
  }

  /** A row just created is the only one due in its family. */
  lemma NewFamily(s: State, step: Step, s': State, root: UUID)
    requires OwnRows(s) && Shallow(s) && Enabled(s, step) && root !in s.rows
    requires s'.rows == RowsAfter(s, step) && s'.callers == CallersAfter(s, step) && root in s'.rows
    ensures OneDue(s', root)
  {
    forall n ensures !Between(s', n, root) { NewFamilyAlone(s, step, s', root, n); }
    forall y ensures Due(s', root, y) <==> y == root { NewFamilyCurrent(s, step, s', root, y); }
    assert Due(s', root, root);
  }

  lemma {:induction false} NoMarkBefore(s: State, steps: seq<Step>, root: UUID)
    requires Orderly(s) && CanRun(s, steps) && AlwaysFromSettled(s, steps) && AllEffective(steps)
    requires root !in s.rows && IsRoot(Run(s, steps), root)
    ensures OneDue(Run(s, steps), root) <==> LastMarkAlone(s, steps, root)
    decreases |steps|
  {
    if steps != [] {
      var s1 := Apply(s, steps[0]);
      OwnRowsKept(s, steps[0], s1);
      ShallowKept(s, steps[0], s1);
      NotDoomedKept(s, steps[0]);
      assert !MarksRoot(s, steps[0], root) by {
        assert steps[0].Mark? ==> InFlight(s, steps[0].n);
      }
      assert Effective(steps[0]) && AllEffective(steps[1..]);
      if root in s1.rows {
        NewFamily(s, steps[0], s1, root);
        LastMarkDecides(s1, steps[1..], root);
        NoMarksAlone(s1, steps[1..], root);
      } else {
        NoMarkBefore(s1, steps[1..], root);
      }
    }
  }

  lemma {:induction false} NoMarksAlone(s: State, steps: seq<Step>, root: UUID)
    requires CanRun(s, steps)
    ensures !MarksIn(s, steps, root) ==> LastMarkAlone(s, steps, root)
    decreases |steps|
  {
    if steps != [] {
      NoMarksAlone(Apply(s, steps[0]), steps[1..], root);
    }
  }

  /** The exact condition for current members: after any interleaving in which new versions are made from settled
      rows and every bookkeeping write takes effect, a family in which no call is between marking and joining has
      exactly one current member if and only if no other call was in between when it was last marked. */
  lemma OneCurrentIffLastMarkAlone(steps: seq<Step>, root: UUID)
    requires CanRun(START, steps) && AlwaysFromSettled(START, steps) && AllEffective(steps)
    requires IsRoot(Run(START, steps), root) && Alone(Run(START, steps), root)
    ensures OneCurrent(Run(START, steps), root) <==> LastMarkAlone(START, steps, root)
  {
    var s := Run(START, steps);
    NoMarkBefore(START, steps, root);
    assert forall x :: Due(s, root, x) <==> CurrentIn(s, root, x);
  }

  /** Wherever calls overlap so, three writes that all succeed leave two current members. */
  lemma OverlapLeadsToTwo(s: State, m: nat, n: nat, root: UUID)
    requires Orderly(s) && Between(s, m, root) && n in s.callers && s.callers[n].Added? && s.callers[n].root == root
    ensures var steps := [Mark(n, Done), Join(m, Done), Join(n, Done)];
            && CanRun(s, steps) && s.callers[m].id != s.callers[n].id
            && CurrentIn(Run(s, steps), root, s.callers[m].id) && CurrentIn(Run(s, steps), root, s.callers[n].id)
  {
    var a, b, c := Mark(n, Done), Join(m, Done), Join(n, Done);
    var x, y := s.callers[m].id, s.callers[n].id;
    assert PendingRow(s, m, x) && PendingRow(s, n, y);
    var s1 := Apply(s, a);
    var s2 := Apply(s1, b);
    var s3 := Apply(s2, c);
    assert CurrentIn(s3, root, x) && CurrentIn(s3, root, y);
    RunStep(s2, c, []);
    RunStep(s1, b, [c]);
    RunStep(s, a, [b, c]);
    assert [a] + [b, c] == [a, b, c] && [b] + [c] == [b, c] && [c] + [] == [c];
  }

  // ---------------------------------------------------------------- real races

  const FIRST := FirstVersion(NIL, 1, EvidenceKey(NIL, 1, 1, "a"), "", "")

  /** One step more of a run from nothing. */
  lemma Then(steps: seq<Step>, s: State, step: Step, next: seq<Step>)
    requires CanRun(START, steps) && Run(START, steps) == s && Enabled(s, step) && next == steps + [step]
    ensures CanRun(START, next) && Run(START, next) == Apply(s, step)
    ensures AlwaysFromSettled(START, steps) && FromSettled(s, step) ==> AlwaysFromSettled(START, next)
  {
    RunStep(s, step, []);
    assert [step] + [] == [step];
    assert FromSettled(s, step) ==> AlwaysFromSettled(s, [step]);
    RunAppend(START, steps, [step]);
  }

  const ONE_ROW := State(map[1 := FIRST], map[])
  const ONE_FOUND := State(map[1 := FIRST], map[7 := Found(1, 2)])

  lemma FirstFound()
    ensures var steps := [Create(1, FIRST), Find(7, 1)];
            CanRun(START, steps) && Run(START, steps) == ONE_FOUND && AlwaysFromSettled(START, steps)
  {
    var create, find := Create(1, FIRST), Find(7, 1);
    Then([], START, create, [create]);
    assert Apply(START, create) == ONE_ROW;
    Then([create], ONE_ROW, find, [create, find]);
    assert Apply(ONE_ROW, find) == ONE_FOUND;
  }

  /** A version begun from a row that has not joined its family yet ends up under a parent that has a parent. */
  lemma UnsettledParentDeepens() returns (steps: seq<Step>)
    ensures CanRun(START, steps) && Deep(Run(START, steps))
  {
    FirstFound();
    var a, b := [Create(1, FIRST), Find(7, 1)], Add(7, 2, FIRST);
    Then(a, ONE_FOUND, b, a + [b]);
    var s3 := State(map[1 := FIRST, 2 := FIRST], map[7 := Added(1, 2, 2)]);
    assert Apply(ONE_FOUND, b) == s3;
    Then(a + [b], s3, Find(8, 2), a + [b] + [Find(8, 2)]);
    var s4 := Apply(s3, Find(8, 2));
    assert UnderPending(s4, 8, 7);
    steps := UnderPendingDeepens(s4, 8, 7, 3);
    RunAppend(START, a + [b] + [Find(8, 2)], steps);
    steps := a + [b] + [Find(8, 2)] + steps;
  }

  /** Two callers have found row 1 and added their rows. */
  predicate BothAdded(s: State) {
    7 in s.callers && 8 in s.callers && s.callers[7] == Added(1, 2, 2) && s.callers[8] == Added(1, 2, 3)
  }

  lemma TwoAdded() returns (steps: seq<Step>)
    ensures CanRun(START, steps) && AlwaysFromSettled(START, steps) && BothAdded(Run(START, steps))
  {
    FirstFound();
    var a, b, c, d := [Create(1, FIRST), Find(7, 1)], Find(8, 1), Add(7, 2, FIRST), Add(8, 3, FIRST);
    Then(a, ONE_FOUND, b, a + [b]);
    var s3 := State(map[1 := FIRST], map[7 := Found(1, 2), 8 := Found(1, 2)]);
    assert Apply(ONE_FOUND, b) == s3;
    Then(a + [b], s3, c, a + [b] + [c]);
    var s4 := Apply(s3, c);
    Then(a + [b] + [c], s4, d, a + [b] + [c] + [d]);
    steps := a + [b] + [c] + [d];
  }

  /** Two new versions of one row at once, every write succeeding, leave two current members. */
  lemma TwoCurrent() returns (steps: seq<Step>)
    ensures CanRun(START, steps) && CurrentIn(Run(START, steps), 1, 2) && CurrentIn(Run(START, steps), 1, 3)
  {
    steps := TwoAdded();
    var s, mark := Run(START, steps), Mark(7, Done);
    Then(steps, s, mark, steps + [mark]);
    StaysShallow(START, steps + [mark]);
    OverlapLeadsToTwo(Apply(s, mark), 7, 8, 1);
    RunAppend(START, steps + [mark], [Mark(8, Done), Join(7, Done), Join(8, Done)]);
    steps := steps + [mark] + [Mark(8, Done), Join(7, Done), Join(8, Done)];
  }
}
