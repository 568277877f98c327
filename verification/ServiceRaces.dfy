/** Case and evidence calls that overlap: each checks first and writes later, so a write can come after its
    check has ceased to hold. For holds and for archiving, exactly when that can happen. */
module ServiceRaces {
  import opened Common
  import opened Texts
  import opened EvidenceNames
  import opened EvidenceTables
  import Calls = VaultCalls
  import Queries = CaseQueries

  /** What an upload will write, apart from its number. */
  datatype Draft = Draft(caseId: UUID, key: ObjectKey, hash: string, description: string)

  /** The family and the version number a new version will join under. */
  datatype Family = Family(root: UUID, version: nat)

  /** A call by what it has checked and written so far. */
  datatype Caller =
    | Looked(id: UUID)
    | StatusRead(id: UUID)
    | HoldRead(id: UUID)
    | ParentRead(draft: Draft, parent: Family)
    | UploadChecked(draft: Draft, base: Option<Family>)
    | Counted(row: Row, base: Option<Family>)
    | RowAdded(id: UUID, family: Family)
    | FamilyMarked(id: UUID, family: Family)
    | ArchiveChecked(caseId: UUID)
    | HoldChecked(caseId: UUID, hold: bool)
    | UpdateRead(caseId: UUID, u: Calls.CaseUpdate)
    | UpdateChecked(caseId: UUID, u: Calls.CaseUpdate)
    | CallOver

  datatype State = State(cases: map<UUID, Case>, rows: map<UUID, Row>, callers: map<nat, Caller>)

  datatype Step =
    | Look(n: nat, id: UUID)
    | ReadStatus(n: nat)
    | ReadHold(n: nat)
    | MarkDestroyed(n: nat, out: Outcome)
    | LookParent(n: nat, parent: UUID, draft: Draft)
    | CheckParentCase(n: nat)
    | CheckUpload(n: nat, draft: Draft)
    | Count(n: nat, out: Outcome)
    | AddRow(n: nat, id: UUID, out: Outcome)
    | MarkFamily(n: nat, out: Outcome)
    | JoinFamily(n: nat, out: Outcome)
    | CheckArchive(n: nat, caseId: UUID)
    | WriteArchived(n: nat, out: Outcome)
    | CheckHold(n: nat, caseId: UUID, hold: bool)
    | WriteHold(n: nat, out: Outcome)
    | ReadForUpdate(n: nat, caseId: UUID, u: Calls.CaseUpdate)
    | Validate(n: nat)
    | WriteUpdate(n: nat, out: Outcome)

  predicate At(s: State, n: nat) { n in s.callers }

  predicate Known(s: State, id: UUID) { id in s.rows && s.rows[id].caseId in s.cases }

  predicate Enabled(s: State, step: Step) {
    match step
    case Look(n, id) => !At(s, n) && Known(s, id)
    case ReadStatus(n) => At(s, n) && s.callers[n].Looked? && Known(s, s.callers[n].id)
    case ReadHold(n) => At(s, n) && s.callers[n].StatusRead? && Known(s, s.callers[n].id)
    case MarkDestroyed(n, _) => At(s, n) && s.callers[n].HoldRead? && Known(s, s.callers[n].id)
    case LookParent(n, p, d) => !At(s, n) && Known(s, p) && d.caseId == s.rows[p].caseId
    case CheckParentCase(n) => At(s, n) && s.callers[n].ParentRead? && s.callers[n].draft.caseId in s.cases
    case CheckUpload(n, d) => !At(s, n) && d.caseId in s.cases
    case Count(n, _) => At(s, n) && s.callers[n].UploadChecked? && s.callers[n].draft.caseId in s.cases
    case AddRow(n, id, _) => At(s, n) && s.callers[n].Counted? && id !in s.rows
    case MarkFamily(n, _) => At(s, n) && s.callers[n].RowAdded?
    case JoinFamily(n, _) => At(s, n) && s.callers[n].FamilyMarked?
    case CheckArchive(n, c) => !At(s, n) && c in s.cases
    case WriteArchived(n, _) => At(s, n) && s.callers[n].ArchiveChecked? && s.callers[n].caseId in s.cases
    case CheckHold(n, c, _) => !At(s, n) && c in s.cases
    case WriteHold(n, _) => At(s, n) && s.callers[n].HoldChecked? && s.callers[n].caseId in s.cases
    case ReadForUpdate(n, c, _) => !At(s, n) && c in s.cases
    case Validate(n) => At(s, n) && s.callers[n].UpdateRead? && s.callers[n].caseId in s.cases
    case WriteUpdate(n, _) => At(s, n) && s.callers[n].UpdateChecked? && s.callers[n].caseId in s.cases
  }

  function CaseOf(s: State, id: UUID): Case
    requires Known(s, id)
  {
    s.cases[s.rows[id].caseId]
  }

  function Numbered(d: Draft, counter: nat): Row { FirstVersion(d.caseId, counter, d.key, d.hash, d.description) }

  /** What the call of a step has come to. */
  function Next(s: State, step: Step): Caller
    requires Enabled(s, step)
  {
    match step
    case Look(_, id) => if s.rows[id].destroyed then CallOver else Looked(id)
    case ReadStatus(n) =>
      if CaseOf(s, s.callers[n].id).status == ARCHIVED then CallOver else StatusRead(s.callers[n].id)
    case ReadHold(n) => if CaseOf(s, s.callers[n].id).legalHold then CallOver else HoldRead(s.callers[n].id)
    case MarkDestroyed(_, _) => CallOver
    case LookParent(_, p, d) =>
      if s.rows[p].destroyed then CallOver else ParentRead(d, Family(Calls.Root(s.rows, p), s.rows[p].version + 1))
    case CheckParentCase(n) =>
      if s.cases[s.callers[n].draft.caseId].status == ACTIVE then UploadChecked(s.callers[n].draft, Some(s.callers[n].parent))
      else CallOver
    case CheckUpload(_, d) => if s.cases[d.caseId].status == ACTIVE then UploadChecked(d, None) else CallOver
    case Count(n, out) =>
      var d := s.callers[n].draft;
      if out.Done? then Counted(Numbered(d, s.cases[d.caseId].counter + 1), s.callers[n].base) else CallOver
    case AddRow(n, id, out) =>
      if out.Done? && s.callers[n].base.Some? then RowAdded(id, s.callers[n].base.value) else CallOver
    case MarkFamily(n, _) => FamilyMarked(s.callers[n].id, s.callers[n].family)
    case JoinFamily(_, _) => CallOver
    case CheckArchive(_, c) =>
      if !s.cases[c].legalHold && Calls.IsValidStatusTransition(s.cases[c].status, ARCHIVED) then ArchiveChecked(c) else CallOver
    case WriteArchived(_, _) => CallOver
    case CheckHold(_, c, hold) =>
      if s.cases[c].status != ARCHIVED && s.cases[c].legalHold != hold then HoldChecked(c, hold) else CallOver
    case WriteHold(_, _) => CallOver
    case ReadForUpdate(_, c, u) => if s.cases[c].status == ARCHIVED then CallOver else UpdateRead(c, u)
    case Validate(n) =>
      var c, u := s.callers[n].caseId, s.callers[n].u;
      if u.status.Some? && !Calls.IsValidStatusTransition(s.cases[c].status, u.status.value) then CallOver
      else UpdateChecked(c, u)
    case WriteUpdate(_, _) => CallOver
  }

  function Set(cases: map<UUID, Case>, c: UUID, k: Case, out: Outcome): map<UUID, Case> {
    if out.Effective() then cases[c := k] else cases
  }

  function CasesAfter(s: State, step: Step): map<UUID, Case>
    requires Enabled(s, step)
  {
    match step
    case Count(n, out) =>
      var c := s.callers[n].draft.caseId;
      Set(s.cases, c, s.cases[c].(counter := s.cases[c].counter + 1), out)
    case WriteArchived(n, out) =>
      var c := s.callers[n].caseId;
      Set(s.cases, c, s.cases[c].(status := ARCHIVED), out)
    case WriteHold(n, out) =>
      var c := s.callers[n].caseId;
      Set(s.cases, c, s.cases[c].(legalHold := s.callers[n].hold), out)
    case WriteUpdate(n, out) =>
      var c := s.callers[n].caseId;
      Set(s.cases, c, Queries.Requested(s.cases[c], s.callers[n].u), out)
    case _ => s.cases
  }

  function RowsAfter(s: State, step: Step): map<UUID, Row>
    requires Enabled(s, step)
  {
    match step
    case MarkDestroyed(n, out) =>
      var id := s.callers[n].id;
      if out.Effective() then s.rows[id := s.rows[id].(destroyed := true)] else s.rows
    case AddRow(n, id, out) => if out.Effective() then s.rows[id := s.callers[n].row] else s.rows
    case MarkFamily(n, out) => Calls.MarkPrevious(s.rows, s.callers[n].family.root, out)
    case JoinFamily(n, out) =>
      Calls.SetVersion(s.rows, s.callers[n].id, s.callers[n].family.root, s.callers[n].family.version, out)
    case _ => s.rows
  }

  function Apply(s: State, step: Step): State
    requires Enabled(s, step)
  {
    State(CasesAfter(s, step), RowsAfter(s, step), s.callers[step.n := Next(s, step)])
  }

  predicate CanRun(s: State, steps: seq<Step>)
    decreases |steps|
  {
    steps == [] || (Enabled(s, steps[0]) && CanRun(Apply(s, steps[0]), steps[1..]))
  }

  function Run(s: State, steps: seq<Step>): State
    requires CanRun(s, steps)
    decreases |steps|
  {
    if steps == [] then s else Run(Apply(s, steps[0]), steps[1..])
  }

  lemma RunStep(s: State, step: Step, rest: seq<Step>)
    requires Enabled(s, step) && CanRun(Apply(s, step), rest)
    ensures CanRun(s, [step] + rest) && Run(s, [step] + rest) == Run(Apply(s, step), rest)
  {
    assert ([step] + rest)[1..] == rest;
  }

  // ---------------------------------------------------------------- what callers know

  predicate InCase(s: State, c: UUID, id: UUID) { id in s.rows && s.rows[id].caseId == c }

  /** Parents are in the case of their children. */
  ghost predicate FamiliesInCase(s: State) {
    forall x | x in s.rows && s.rows[x].parent.Some? :: InCase(s, s.rows[x].caseId, s.rows[x].parent.value)
  }

  /** Destructions and new versions work on rows that exist; a new version's family is in its own case. */
  predicate CallerKnows(s: State, k: Caller) {
    match k
    case Looked(id) => id in s.rows
    case StatusRead(id) => id in s.rows
    case HoldRead(id) => id in s.rows
    case ParentRead(d, b) => InCase(s, d.caseId, b.root)
    case UploadChecked(d, b) => b.Some? ==> InCase(s, d.caseId, b.value.root)
    case Counted(row, b) => row.parent.None? && (b.Some? ==> InCase(s, row.caseId, b.value.root))
    case RowAdded(id, b) => id in s.rows && InCase(s, s.rows[id].caseId, b.root)
    case FamilyMarked(id, b) => id in s.rows && InCase(s, s.rows[id].caseId, b.root)
    case _ => true
  }

  ghost predicate CallersKnow(s: State) { forall n | n in s.callers :: CallerKnows(s, s.callers[n]) }

  ghost predicate Sound(s: State) { FamiliesInCase(s) && CallersKnow(s) }

  /** Rows stay, in their cases. */
  lemma RowsStay(s: State, step: Step, c: UUID, id: UUID)
    requires Enabled(s, step) && InCase(s, c, id)
    ensures id in RowsAfter(s, step) && RowsAfter(s, step)[id].caseId == c
  {
  }

  lemma KnowledgeStays(s: State, step: Step, s': State, k: Caller)
    requires Enabled(s, step) && s'.rows == RowsAfter(s, step) && CallerKnows(s, k)
    ensures CallerKnows(s', k)
  {
  }

  lemma NextKnows(s: State, step: Step, s': State)
    requires Sound(s) && Enabled(s, step) && s'.rows == RowsAfter(s, step)
    ensures CallerKnows(s', Next(s, step))
  {
    assert At(s, step.n) ==> CallerKnows(s, s.callers[step.n]);
  }

  lemma FamiliesInCaseKept(s: State, step: Step, s': State)
    requires Sound(s) && Enabled(s, step) && s'.rows == RowsAfter(s, step)
    ensures FamiliesInCase(s')
  {
    assert At(s, step.n) ==> CallerKnows(s, s.callers[step.n]);
    forall x | x in s'.rows && s'.rows[x].parent.Some? ensures InCase(s', s'.rows[x].caseId, s'.rows[x].parent.value) {
    }
  }

  lemma SoundKept(s: State, step: Step)
    requires Sound(s) && Enabled(s, step)
    ensures Sound(Apply(s, step))
  {
    var s' := Apply(s, step);
    FamiliesInCaseKept(s, step, s');
    NextKnows(s, step, s');
    forall n | n in s'.callers ensures CallerKnows(s', s'.callers[n]) {
      if n != step.n {
        KnowledgeStays(s, step, s', s.callers[n]);
      }
    }
  }

  // ---------------------------------------------------------------- holds

  predicate LiveIn(s: State, c: UUID, id: UUID) { InCase(s, c, id) && !s.rows[id].destroyed }

  /** A destruction of live evidence of the case that found no hold and has yet to mark it. */
  predicate PastHold(s: State, c: UUID, n: nat) { At(s, n) && s.callers[n].HoldRead? && LiveIn(s, c, s.callers[n].id) }

  predicate Held(s: State, c: UUID) { c in s.cases && s.cases[c].legalHold }

  ghost predicate NonePastHold(s: State, c: UUID) { forall n :: !PastHold(s, c, n) }

  /** The hold is never released on the way. */
  predicate HeldThroughout(s: State, steps: seq<Step>, c: UUID)
    requires CanRun(s, steps)
    decreases |steps|
  {
    Held(s, c) && (steps == [] || HeldThroughout(Apply(s, steps[0]), steps[1..], c))
  }

  lemma LiveStays(s: State, step: Step, s': State, c: UUID, id: UUID)
    requires Enabled(s, step) && s'.rows == RowsAfter(s, step) && NonePastHold(s, c)
    ensures LiveIn(s, c, id) ==> LiveIn(s', c, id)
    ensures LiveIn(s', c, id) && id in s.rows ==> LiveIn(s, c, id)
  {
    assert step.MarkDestroyed? ==> !PastHold(s, c, step.n);
  }

  lemma NonePastHoldKept(s: State, step: Step, s': State, c: UUID)
    requires CallersKnow(s) && Enabled(s, step) && Held(s, c) && NonePastHold(s, c)
    requires s'.rows == RowsAfter(s, step) && s'.callers == s.callers[step.n := Next(s, step)]
    ensures NonePastHold(s', c)
  {
    forall n | PastHold(s', c, n) ensures PastHold(s, c, n) {
      assert n in s.callers ==> CallerKnows(s, s.callers[n]);
      LiveStays(s, step, s', c, s'.callers[n].id);
    }
  }

  lemma {:induction false} HoldRun(s: State, steps: seq<Step>, c: UUID, id: UUID)
    requires Sound(s) && CanRun(s, steps) && HeldThroughout(s, steps, c) && NonePastHold(s, c) && LiveIn(s, c, id)
    ensures LiveIn(Run(s, steps), c, id)
    decreases |steps|
  {
    if steps != [] {
      var s1 := Apply(s, steps[0]);
      SoundKept(s, steps[0]);
      LiveStays(s, steps[0], s1, c, id);
      NonePastHoldKept(s, steps[0], s1, c);
      HoldRun(s1, steps[1..], c, id);
    }
  }

  /** The run destroys evidence of the case while the hold stands. */
  ghost predicate DestroysUnderHold(s: State, steps: seq<Step>, c: UUID) {
    CanRun(s, steps) && HeldThroughout(s, steps, c) && exists id :: LiveIn(s, c, id) && !LiveIn(Run(s, steps), c, id)
  }

  lemma MarkingDestroys(s: State, c: UUID, n: nat)
    requires Held(s, c) && PastHold(s, c, n)
    ensures DestroysUnderHold(s, [MarkDestroyed(n, Done)], c)
  {
    var mark := MarkDestroyed(n, Done);
    RunStep(s, mark, []);
    assert [mark] + [] == [mark] && [mark][1..] == [];
    assert HeldThroughout(Apply(s, mark), [], c);
    assert LiveIn(s, c, s.callers[n].id) && !LiveIn(Run(s, [mark]), c, s.callers[n].id);
  }

  /** The exact window: under a standing hold evidence can still be destroyed if and only if some destruction
      had read "not held" before and not yet marked its record. */
  lemma HoldWindow(s: State, c: UUID)
    requires Sound(s) && Held(s, c)
    ensures (exists steps :: DestroysUnderHold(s, steps, c)) <==> exists n :: PastHold(s, c, n)
  {
    if n :| PastHold(s, c, n) {
      MarkingDestroys(s, c, n);
    }
    if steps :| DestroysUnderHold(s, steps, c) {
      var id :| LiveIn(s, c, id) && !LiveIn(Run(s, steps), c, id);
      if NonePastHold(s, c) {
        HoldRun(s, steps, c, id);
      }
    }
  }

  // ---------------------------------------------------------------- archived cases

  /** The same case record, its counter included, and the same evidence rows, families included. */
  ghost predicate SameView(s: State, s': State, c: UUID) {
    && (c in s.cases <==> c in s'.cases) && (c in s.cases && c in s'.cases ==> s'.cases[c] == s.cases[c])
    && (forall id :: InCase(s, c, id) <==> InCase(s', c, id))
    && (forall id | InCase(s, c, id) && id in s'.rows :: s'.rows[id] == s.rows[id])
  }

  predicate Archived(s: State, c: UUID) { c in s.cases && s.cases[c].status == ARCHIVED }

  /** A row as joining a family leaves it. */
  function JoinedRow(row: Row, b: Family): Row { row.(parent := Some(b.root), version := b.version, current := true) }

  /** A call past the check that should have stopped it, whose writes would change the archived case. */
  predicate PastArchive(s: State, c: UUID, n: nat)
    requires Archived(s, c)
  {
    At(s, n) &&
    match s.callers[n]
    case UploadChecked(d, _) => d.caseId == c
    case Counted(row, _) => row.caseId == c
    case RowAdded(id, _) => InCase(s, c, id)
    case FamilyMarked(id, b) => InCase(s, c, id) && JoinedRow(s.rows[id], b) != s.rows[id]
    case HoldChecked(x, hold) => x == c && hold != s.cases[c].legalHold
    case UpdateRead(x, u) => x == c && u.status.None? && Queries.Requested(s.cases[c], u) != s.cases[c]
    case UpdateChecked(x, u) => x == c && Queries.Requested(s.cases[c], u) != s.cases[c]
    case HoldRead(id) => LiveIn(s, c, id)
    case StatusRead(id) => LiveIn(s, c, id) && !s.cases[c].legalHold
    case _ => false
  }

  ghost predicate NonePastArchive(s: State, c: UUID)
    requires Archived(s, c)
  {
    forall n :: !PastArchive(s, c, n)
  }

  lemma ArchivedCaseStays(s: State, step: Step, c: UUID)
    requires Enabled(s, step) && Archived(s, c) && NonePastArchive(s, c)
    ensures c in CasesAfter(s, step) && CasesAfter(s, step)[c] == s.cases[c]
  {
    assert !PastArchive(s, c, step.n);
  }

  lemma ArchivedRowsStay(s: State, step: Step, s': State, c: UUID, id: UUID)
    requires Sound(s) && Enabled(s, step) && Archived(s, c) && NonePastArchive(s, c) && s'.rows == RowsAfter(s, step)
    ensures InCase(s, c, id) <==> InCase(s', c, id)
    ensures InCase(s, c, id) && id in s'.rows ==> s'.rows[id] == s.rows[id]
  {
    assert !PastArchive(s, c, step.n);
    assert At(s, step.n) ==> CallerKnows(s, s.callers[step.n]);
  }

  /** Callers that did not step are past their checks no more than before. */
  lemma OthersNotPast(s: State, s': State, c: UUID, k: Caller, n: nat)
    requires Archived(s, c) && SameView(s, s', c) && At(s, n) && s.callers[n] == k && At(s', n) && s'.callers[n] == k
    requires CallerKnows(s, k) && !PastArchive(s, c, n)
    ensures !PastArchive(s', c, n)
  {
  }

  predicate OfDestruction(step: Step) { step.Look? || step.ReadStatus? || step.ReadHold? || step.MarkDestroyed? }

  predicate OfUpload(step: Step) { step.LookParent? || step.CheckParentCase? || step.CheckUpload? || step.Count? || step.AddRow? }

  predicate OfBookkeeping(step: Step) { step.MarkFamily? || step.JoinFamily? }

  lemma DestructionNotPast(s: State, step: Step, s': State, c: UUID)
    requires Sound(s) && Enabled(s, step) && Archived(s, c) && !PastArchive(s, c, step.n) && SameView(s, s', c)
    requires s'.rows == RowsAfter(s, step) && step.n in s'.callers && s'.callers[step.n] == Next(s, step)
    requires OfDestruction(step)
    ensures !PastArchive(s', c, step.n)
  {
    assert At(s, step.n) ==> CallerKnows(s, s.callers[step.n]);
  }

  lemma UploadNotPast(s: State, step: Step, s': State, c: UUID)
    requires Sound(s) && Enabled(s, step) && Archived(s, c) && !PastArchive(s, c, step.n) && SameView(s, s', c)
    requires s'.rows == RowsAfter(s, step) && step.n in s'.callers && s'.callers[step.n] == Next(s, step)
    requires OfUpload(step)
    ensures !PastArchive(s', c, step.n)
  {
  }

  lemma BookkeepingNotPast(s: State, step: Step, s': State, c: UUID)
    requires Sound(s) && Enabled(s, step) && Archived(s, c) && !PastArchive(s, c, step.n) && SameView(s, s', c)
    requires s'.rows == RowsAfter(s, step) && step.n in s'.callers && s'.callers[step.n] == Next(s, step)
    requires OfBookkeeping(step)
    ensures !PastArchive(s', c, step.n)
  {
    assert At(s, step.n) ==> CallerKnows(s, s.callers[step.n]);
  }

  lemma CaseCallNotPast(s: State, step: Step, s': State, c: UUID)
    requires Sound(s) && Enabled(s, step) && Archived(s, c) && !PastArchive(s, c, step.n) && SameView(s, s', c)
    requires s'.rows == RowsAfter(s, step) && step.n in s'.callers && s'.callers[step.n] == Next(s, step)
    requires !OfDestruction(step) && !OfUpload(step) && !OfBookkeeping(step)
    ensures !PastArchive(s', c, step.n)
  {
  }

  lemma NextNotPast(s: State, step: Step, s': State, c: UUID)
    requires Sound(s) && Enabled(s, step) && Archived(s, c) && !PastArchive(s, c, step.n) && SameView(s, s', c)
    requires s'.rows == RowsAfter(s, step) && step.n in s'.callers && s'.callers[step.n] == Next(s, step)
    ensures !PastArchive(s', c, step.n)
  {
    if OfDestruction(step) {
      DestructionNotPast(s, step, s', c);
    } else if OfUpload(step) {
      UploadNotPast(s, step, s', c);
    } else if OfBookkeeping(step) {
      BookkeepingNotPast(s, step, s', c);
    } else {
      CaseCallNotPast(s, step, s', c);
    }
  }

  lemma ArchivedStep(s: State, step: Step, c: UUID)
    requires Sound(s) && Enabled(s, step) && Archived(s, c) && NonePastArchive(s, c)
    ensures SameView(s, Apply(s, step), c) && NonePastArchive(Apply(s, step), c)
  {
    var s' := Apply(s, step);
    ArchivedCaseStays(s, step, c);
    forall id
      ensures InCase(s, c, id) <==> InCase(s', c, id)
      ensures InCase(s, c, id) && id in s'.rows ==> s'.rows[id] == s.rows[id]
    {
      ArchivedRowsStay(s, step, s', c, id);
    }
    NextNotPast(s, step, s', c);
    forall n ensures !PastArchive(s', c, n) {
      if n in s.callers && n != step.n {
        OthersNotPast(s, s', c, s.callers[n], n);
      }
    }
  }

  lemma {:induction false} ArchivedRun(s: State, steps: seq<Step>, c: UUID)
    requires Sound(s) && CanRun(s, steps) && Archived(s, c) && NonePastArchive(s, c)
    ensures SameView(s, Run(s, steps), c)
    decreases |steps|
  {
    if steps != [] {
      var s1 := Apply(s, steps[0]);
      SoundKept(s, steps[0]);
      ArchivedStep(s, steps[0], c);
      ArchivedRun(s1, steps[1..], c);
      SameViewTrans(s, s1, Run(s, steps), c);
    }
  }

  lemma SameViewTrans(a: State, b: State, d: State, c: UUID)
    requires SameView(a, b, c) && SameView(b, d, c)
    ensures SameView(a, d, c)
  {
    forall id | InCase(a, c, id) && id in d.rows ensures d.rows[id] == a.rows[id] {
      assert InCase(b, c, id);
    }
  }

  /** The run changes the case or its evidence. */
  ghost predicate Changes(s: State, steps: seq<Step>, c: UUID) { CanRun(s, steps) && !SameView(s, Run(s, steps), c) }

  lemma OneStepChanges(s: State, step: Step, c: UUID)
    requires Enabled(s, step) && !SameView(s, Apply(s, step), c)
    ensures Changes(s, [step], c)
  {
    RunStep(s, step, []);
    assert [step] + [] == [step];
  }

  lemma TwoStepsChange(s: State, a: Step, b: Step, c: UUID)
    requires Enabled(s, a) && Enabled(Apply(s, a), b) && !SameView(s, Apply(Apply(s, a), b), c)
    ensures Changes(s, [a, b], c)
  {
    RunStep(Apply(s, a), b, []);
    RunStep(s, a, [b]);
    assert [a] + [b] == [a, b] && [b] + [] == [b];
  }

  lemma DestructionChanges(s: State, c: UUID, n: nat) returns (steps: seq<Step>)
    requires Archived(s, c) && PastArchive(s, c, n) && (s.callers[n].HoldRead? || s.callers[n].StatusRead?)
    ensures Changes(s, steps, c)
  {
    var id, mark := s.callers[n].id, MarkDestroyed(n, Done);
    if s.callers[n].HoldRead? {
      steps := [mark];
      assert InCase(s, c, id) && Apply(s, mark).rows[id].destroyed;
      OneStepChanges(s, mark, c);
    } else {
      steps := [ReadHold(n), mark];
      assert InCase(s, c, id) && Apply(Apply(s, ReadHold(n)), mark).rows[id].destroyed;
      TwoStepsChange(s, ReadHold(n), mark, c);
    }
  }

  lemma VersionChanges(s: State, c: UUID, n: nat) returns (steps: seq<Step>)
    requires Archived(s, c) && PastArchive(s, c, n) && (s.callers[n].RowAdded? || s.callers[n].FamilyMarked?)
    ensures Changes(s, steps, c)
  {
    var id, b, join := s.callers[n].id, s.callers[n].family, JoinFamily(n, Done);
    assert InCase(s, c, id);
    if JoinedRow(s.rows[id], b) == s.rows[id] {
      steps := [MarkFamily(n, Done)];
      assert !Apply(s, steps[0]).rows[id].current;
      OneStepChanges(s, steps[0], c);
    } else if s.callers[n].FamilyMarked? {
      steps := [join];
      assert Apply(s, join).rows[id] == JoinedRow(s.rows[id], b);
      OneStepChanges(s, join, c);
    } else {
      steps := [MarkFamily(n, Failed), join];
      assert Apply(Apply(s, steps[0]), join).rows[id] == JoinedRow(s.rows[id], b);
      TwoStepsChange(s, steps[0], join, c);
    }
  }

  lemma UploadChanges(s: State, c: UUID, n: nat, free: UUID) returns (steps: seq<Step>)
    requires Archived(s, c) && PastArchive(s, c, n) && free !in s.rows && (s.callers[n].UploadChecked? || s.callers[n].Counted?)
    ensures Changes(s, steps, c)
  {
    if s.callers[n].UploadChecked? {
      steps := [Count(n, Done)];
    } else {
      steps := [AddRow(n, free, Done)];
      assert InCase(Apply(s, steps[0]), c, free);
    }
    OneStepChanges(s, steps[0], c);
  }

  /** Each such call can be carried on to a change. */
  lemma PastArchiveChanges(s: State, c: UUID, n: nat, free: UUID) returns (steps: seq<Step>)
    requires Archived(s, c) && PastArchive(s, c, n) && free !in s.rows
    ensures Changes(s, steps, c)
  {
    if s.callers[n].HoldRead? || s.callers[n].StatusRead? {
      steps := DestructionChanges(s, c, n);
    } else if s.callers[n].RowAdded? || s.callers[n].FamilyMarked? {
      steps := VersionChanges(s, c, n);
    } else if s.callers[n].UploadChecked? || s.callers[n].Counted? {
      steps := UploadChanges(s, c, n, free);
    } else if s.callers[n].HoldChecked? {
      steps := [WriteHold(n, Done)];
      OneStepChanges(s, steps[0], c);
    } else if s.callers[n].UpdateRead? {
      steps := [Validate(n), WriteUpdate(n, Done)];
      TwoStepsChange(s, Validate(n), WriteUpdate(n, Done), c);
    } else {
      steps := [WriteUpdate(n, Done)];
      OneStepChanges(s, steps[0], c);
    }
  }

  /** The exact window: an archived case, its counter, its evidence or their families can still change if and
      only if some call had passed the check that should have stopped it and has yet to write. */
  lemma ArchiveWindow(s: State, c: UUID)
    requires Sound(s) && Archived(s, c) && exists free: UUID :: free !in s.rows
    ensures (exists steps :: Changes(s, steps, c)) <==> exists n :: PastArchive(s, c, n)
  {
    var free: UUID :| free !in s.rows;
    if n :| PastArchive(s, c, n) {
      var steps := PastArchiveChanges(s, c, n, free);
    }
    if steps :| Changes(s, steps, c) {
      if NonePastArchive(s, c) {
        ArchivedRun(s, steps, c);
      }
    }
  }
}
