/** The calls of VaultCalls as runs of ServiceRaces and VersionRaces, so that those machines are about the same
    services, and the races they admit. */
module CallsAsRaces {
  import opened Common
  import opened Texts
  import opened EvidenceNames
  import opened EvidenceTables
  import Calls = VaultCalls
  import Queries = CaseQueries
  import opened ServiceRaces
  import Versions = VersionRaces

  /** `steps` can run from `s` and leave it at `s'`. */
  ghost predicate Leads(s: State, steps: seq<Step>, s': State) { CanRun(s, steps) && Run(s, steps) == s' }

  lemma Then(s: State, step: Step, rest: seq<Step>, s': State)
    requires Enabled(s, step) && Leads(Apply(s, step), rest, s')
    ensures Leads(s, [step] + rest, s')
  {
    RunStep(s, step, rest);
  }

  lemma Last(s: State, step: Step)
    requires Enabled(s, step)
    ensures Leads(s, [step], Apply(s, step))
  {
    Then(s, step, [], Apply(s, step));
    assert [step] + [] == [step];
  }

  /** The tables of calls with some callers at work on them. */
  function StateOf(t: Calls.Tables, callers: map<nat, Caller>): State { State(t.cases, t.rows, callers) }

  /** The run leaves the tables as the call does. */
  ghost predicate Does(s: State, steps: seq<Step>, t: Calls.Tables) {
    CanRun(s, steps) && Run(s, steps).cases == t.cases && Run(s, steps).rows == t.rows
  }

  // ---------------------------------------------------------------- calls that run undisturbed

  /** A destruction that passes its checks. */
  lemma DestroyIsRun(r: Calls.Rules, t: Calls.Tables, callers: map<nat, Caller>, n: nat, id: UUID, reason: string,
                     mark: Outcome, file: Outcome, thumb: Outcome)
    requires n !in callers && id in t.rows && !t.rows[id].destroyed
    requires Calls.DestroyProblem(r, t, t.rows[id], reason).None?
    ensures Does(StateOf(t, callers), [Look(n, id)] + ([ReadStatus(n)] + ([ReadHold(n)] + [MarkDestroyed(n, mark)])),
                 Calls.DestroyAfter(r, t, id, reason, mark, file, thumb).0)
  {
    var s := StateOf(t, callers);
    var s1 := Apply(s, Look(n, id));
    var s2 := Apply(s1, ReadStatus(n));
    var s3 := Apply(s2, ReadHold(n));
    Last(s3, MarkDestroyed(n, mark));
    var s4 := Apply(s3, MarkDestroyed(n, mark));
    Then(s2, ReadHold(n), [MarkDestroyed(n, mark)], s4);
    Then(s1, ReadStatus(n), [ReadHold(n)] + [MarkDestroyed(n, mark)], s4);
    Then(s, Look(n, id), [ReadStatus(n)] + ([ReadHold(n)] + [MarkDestroyed(n, mark)]), s4);
  }

  /** An archiving that passes its checks. */
  lemma ArchiveIsRun(r: Calls.Rules, t: Calls.Tables, callers: map<nat, Caller>, n: nat, c: UUID, out: Outcome)
    requires n !in callers && c in t.cases && !t.cases[c].legalHold
    requires Calls.IsValidStatusTransition(t.cases[c].status, ARCHIVED)
    ensures Does(StateOf(t, callers), [CheckArchive(n, c)] + [WriteArchived(n, out)], Calls.After(r, t, Calls.ArchiveCase(c, out)).0)
  {
    var s := StateOf(t, callers);
    var s1 := Apply(s, CheckArchive(n, c));
    Last(s1, WriteArchived(n, out));
    Then(s, CheckArchive(n, c), [WriteArchived(n, out)], Apply(s1, WriteArchived(n, out)));
  }

  /** Setting or releasing a hold. */
  lemma HoldIsRun(r: Calls.Rules, t: Calls.Tables, callers: map<nat, Caller>, n: nat, c: UUID, hold: bool, out: Outcome)
    requires n !in callers && c in t.cases && t.cases[c].status != ARCHIVED && t.cases[c].legalHold != hold
    ensures Does(StateOf(t, callers), [CheckHold(n, c, hold)] + [WriteHold(n, out)],
                 Calls.After(r, t, Calls.SetLegalHold(c, hold, out)).0)
  {
    var s := StateOf(t, callers);
    var s1 := Apply(s, CheckHold(n, c, hold));
    Last(s1, WriteHold(n, out));
    Then(s, CheckHold(n, c, hold), [WriteHold(n, out)], Apply(s1, WriteHold(n, out)));
  }

  lemma UpdateWrites(r: Calls.Rules, t: Calls.Tables, c: UUID, u: Calls.CaseUpdate, out: Outcome)
    requires c in t.cases && t.cases[c].status != ARCHIVED && Calls.UpdateProblem(r, t.cases[c], u).None?
    ensures var t' := Calls.After(r, t, Calls.UpdateCase(c, u, out)).0;
            t'.rows == t.rows && t'.cases == Set(t.cases, c, Queries.Requested(t.cases[c], Queries.Sanitized(r, u)), out)
    ensures u.status.Some? ==> Calls.IsValidStatusTransition(t.cases[c].status, u.status.value)
  {
    Queries.RequestedIsServiceUpdate(r, t.cases[c], u);
  }

  /** An update that passes its checks. */
  lemma UpdateIsRun(r: Calls.Rules, t: Calls.Tables, callers: map<nat, Caller>, n: nat, c: UUID, u: Calls.CaseUpdate, out: Outcome)
    requires n !in callers && c in t.cases && t.cases[c].status != ARCHIVED && Calls.UpdateProblem(r, t.cases[c], u).None?
    ensures Does(StateOf(t, callers), [ReadForUpdate(n, c, Queries.Sanitized(r, u))] + ([Validate(n)] + [WriteUpdate(n, out)]),
                 Calls.After(r, t, Calls.UpdateCase(c, u, out)).0)
  {
    var s, read := StateOf(t, callers), ReadForUpdate(n, c, Queries.Sanitized(r, u));
    var s1 := Apply(s, read);
    var s2 := Apply(s1, Validate(n));
    UpdateWrites(r, t, c, u, out);
    Last(s2, WriteUpdate(n, out));
    Then(s1, Validate(n), [WriteUpdate(n, out)], Apply(s2, WriteUpdate(n, out)));
    Then(s, read, [Validate(n)] + [WriteUpdate(n, out)], Apply(s2, WriteUpdate(n, out)));
  }

  function DraftOf(r: Calls.Rules, u: Calls.UploadInput): Draft {
    Draft(u.caseId, Calls.FileKey(r, u), r.sha(u.data), r.escape(r.trim(u.description)))
  }

  function BookkeepingSteps(n: nat, u: Calls.UploadInput, base: Option<Family>, mark: Outcome, join: Outcome): seq<Step> {
    if u.create.Done? && base.Some? then [MarkFamily(n, mark)] + [JoinFamily(n, join)] else []
  }

  function AddSteps(n: nat, u: Calls.UploadInput, base: Option<Family>, mark: Outcome, join: Outcome): seq<Step> {
    if u.count.Done? && u.put.Done? then [AddRow(n, u.rowId, u.create)] + BookkeepingSteps(n, u, base, mark, join) else []
  }

  /** The rows after the bookkeeping of a new version, if the row was added and is one. */
  function BookkeptRows(rows: map<UUID, Row>, u: Calls.UploadInput, base: Option<Family>, mark: Outcome, join: Outcome): map<UUID, Row> {
    if u.create.Done? && base.Some? then
      Calls.SetVersion(Calls.MarkPrevious(rows, base.value.root, mark), u.rowId, base.value.root, base.value.version, join)
    else rows
  }

  lemma BookkeepingRuns(s: State, n: nat, u: Calls.UploadInput, base: Option<Family>, mark: Outcome, join: Outcome) returns (s': State)
    requires u.create.Done? && base.Some? ==> n in s.callers && s.callers[n] == RowAdded(u.rowId, base.value)
    ensures Leads(s, BookkeepingSteps(n, u, base, mark, join), s')
    ensures s'.cases == s.cases && s'.rows == BookkeptRows(s.rows, u, base, mark, join)
  {
    s' := s;
    if u.create.Done? && base.Some? {
      var s1 := Apply(s, MarkFamily(n, mark));
      s' := Apply(s1, JoinFamily(n, join));
      Last(s1, JoinFamily(n, join));
      Then(s, MarkFamily(n, mark), [JoinFamily(n, join)], s');
    }
  }

  /** From counting on. */
  lemma CountRuns(s: State, n: nat, d: Draft, u: Calls.UploadInput, base: Option<Family>, mark: Outcome, join: Outcome)
    returns (s': State)
    requires n in s.callers && s.callers[n] == UploadChecked(d, base) && d.caseId in s.cases && u.rowId !in s.rows
    ensures Leads(s, [Count(n, u.count)] + AddSteps(n, u, base, mark, join), s')
    ensures s'.cases == Set(s.cases, d.caseId, s.cases[d.caseId].(counter := s.cases[d.caseId].counter + 1), u.count)
    ensures s'.rows == if u.count.Done? && u.put.Done? then
                         BookkeptRows(if u.create.Effective() then s.rows[u.rowId := Numbered(d, s.cases[d.caseId].counter + 1)]
                                      else s.rows, u, base, mark, join)
                       else s.rows
  {
    var s1 := Apply(s, Count(n, u.count));
    s' := s1;
    if u.count.Done? && u.put.Done? {
      var add := AddRow(n, u.rowId, u.create);
      s' := BookkeepingRuns(Apply(s1, add), n, u, base, mark, join);
      Then(s1, add, BookkeepingSteps(n, u, base, mark, join), s');
    }
    Then(s, Count(n, u.count), AddSteps(n, u, base, mark, join), s');
  }

  /** An upload that passes its checks, however its calls turn out. */
  lemma UploadIsRun(r: Calls.Rules, t: Calls.Tables, callers: map<nat, Caller>, n: nat, u: Calls.UploadInput)
    requires n !in callers && u.rowId !in t.rows && Calls.UploadProblem(r, t, u).None?
    ensures Does(StateOf(t, callers), [CheckUpload(n, DraftOf(r, u))] + ([Count(n, u.count)] + AddSteps(n, u, None, Done, Done)),
                 Calls.UploadAfter(r, t, u).0)
  {
    var s, check := StateOf(t, callers), CheckUpload(n, DraftOf(r, u));
    var s' := CountRuns(Apply(s, check), n, DraftOf(r, u), u, None, Done, Done);
    Then(s, check, [Count(n, u.count)] + AddSteps(n, u, None, Done, Done), s');
  }

  /** A new version that passes its checks, however its calls turn out. */
  lemma NewVersionIsRun(r: Calls.Rules, t: Calls.Tables, callers: map<nat, Caller>, n: nat, p: UUID, u: Calls.UploadInput,
                        mark: Outcome, join: Outcome)
    requires n !in callers && u.rowId !in t.rows && p in t.rows && !t.rows[p].destroyed && u.caseId == t.rows[p].caseId
    requires Calls.UploadProblem(r, t, u).None?
    ensures var base := Some(Family(Calls.Root(t.rows, p), t.rows[p].version + 1));
            var steps := [LookParent(n, p, DraftOf(r, u))] + ([CheckParentCase(n)] + ([Count(n, u.count)] + AddSteps(n, u, base, mark, join)));
            Does(StateOf(t, callers), steps, Calls.VersionAfter(r, t, p, u, mark, join).0)
  {
    var base := Some(Family(Calls.Root(t.rows, p), t.rows[p].version + 1));
    var s, look := StateOf(t, callers), LookParent(n, p, DraftOf(r, u));
    var s1 := Apply(s, look);
    var s2 := Apply(s1, CheckParentCase(n));
    var s' := CountRuns(s2, n, DraftOf(r, u), u, base, mark, join);
    assert u.(caseId := t.rows[p].caseId) == u;
    Then(s1, CheckParentCase(n), [Count(n, u.count)] + AddSteps(n, u, base, mark, join), s');
    Then(s, look, [CheckParentCase(n)] + ([Count(n, u.count)] + AddSteps(n, u, base, mark, join)), s');
  }

  lemma AcceptedVersionRows(r: Calls.Rules, t: Calls.Tables, p: UUID, u: Calls.UploadInput, mark: Outcome, join: Outcome)
    requires u.rowId !in t.rows && p in t.rows && u.caseId == t.rows[p].caseId
    requires Calls.VersionAfter(r, t, p, u, mark, join).1 == Calls.Accepted
    ensures u.caseId in t.cases
    ensures var row := Numbered(DraftOf(r, u), t.cases[u.caseId].counter + 1); var root := Calls.Root(t.rows, p);
            Calls.VersionAfter(r, t, p, u, mark, join).0.rows
            == Calls.SetVersion(Calls.MarkPrevious(t.rows[u.rowId := row], root, mark), u.rowId, root, t.rows[p].version + 1, join)
  {
    assert Calls.VersionInput(t, p, u) == u;
    Calls.VersionLeaves(r, t, p, u, mark, join);
    Calls.UploadLeaves(r, t, u);
    Calls.AcceptedIffCreated(r, t, u);
  }

  /** An accepted new version as a run of the machine that only looks at rows. */
  lemma NewVersionIsVersionRun(r: Calls.Rules, t: Calls.Tables, callers: map<nat, Versions.Caller>, n: nat, p: UUID,
                               u: Calls.UploadInput, mark: Outcome, join: Outcome)
    requires n !in callers && u.rowId !in t.rows && p in t.rows && u.caseId == t.rows[p].caseId
    requires Calls.VersionAfter(r, t, p, u, mark, join).1 == Calls.Accepted
    ensures u.caseId in t.cases
    ensures var row := Numbered(DraftOf(r, u), t.cases[u.caseId].counter + 1);
            var s := Versions.State(t.rows, callers);
            var steps := [Versions.Find(n, p)] + ([Versions.Add(n, u.rowId, row)] + ([Versions.Mark(n, mark)] + [Versions.Join(n, join)]));
            Versions.CanRun(s, steps) && Versions.Run(s, steps).rows == Calls.VersionAfter(r, t, p, u, mark, join).0.rows
  {
    AcceptedVersionRows(r, t, p, u, mark, join);
    var row := Numbered(DraftOf(r, u), t.cases[u.caseId].counter + 1);
    var s := Versions.State(t.rows, callers);
    var find, add, marking, joining := Versions.Find(n, p), Versions.Add(n, u.rowId, row), Versions.Mark(n, mark), Versions.Join(n, join);
    var s1 := Versions.Apply(s, find);
    var s2 := Versions.Apply(s1, add);
    var s3 := Versions.Apply(s2, marking);
    Versions.RunStep(s3, joining, []);
    assert [joining] + [] == [joining];
    Versions.RunStep(s2, marking, [joining]);
    Versions.RunStep(s1, add, [marking] + [joining]);
    Versions.RunStep(s, find, [add] + ([marking] + [joining]));
  }

  // ---------------------------------------------------------------- real races

  /** One case with one live row in it. */
  function OneCase(status: string, held: bool, callers: map<nat, Caller>): State {
    State(map[1 := Case("", "", "", "", status, held, 0)],
          map[2 := FirstVersion(1, 1, EvidenceKey(1, 2, 1, "a"), "", "")], callers)
  }

  lemma Destructive(n: nat)
    ensures Leads(OneCase(ACTIVE, false, map[]), [Look(n, 2)] + ([ReadStatus(n)] + [ReadHold(n)]),
                  OneCase(ACTIVE, false, map[n := HoldRead(2)]))
  {
    var s := OneCase(ACTIVE, false, map[]);
    var s1 := Apply(s, Look(n, 2));
    var s2 := Apply(s1, ReadStatus(n));
    assert Apply(s2, ReadHold(n)) == OneCase(ACTIVE, false, map[n := HoldRead(2)]);
    Last(s2, ReadHold(n));
    Then(s1, ReadStatus(n), [ReadHold(n)], OneCase(ACTIVE, false, map[n := HoldRead(2)]));
    Then(s, Look(n, 2), [ReadStatus(n)] + [ReadHold(n)], OneCase(ACTIVE, false, map[n := HoldRead(2)]));
  }

  lemma HoldsNow(callers: map<nat, Caller>, n: nat)
    requires n !in callers
    ensures Leads(OneCase(ACTIVE, false, callers), [CheckHold(n, 1, true)] + [WriteHold(n, Done)],
                  OneCase(ACTIVE, true, callers[n := CallOver]))
  {
    var s := OneCase(ACTIVE, false, callers);
    var s1 := Apply(s, CheckHold(n, 1, true));
    assert Apply(s1, WriteHold(n, Done)) == OneCase(ACTIVE, true, callers[n := CallOver]);
    Last(s1, WriteHold(n, Done));
    Then(s, CheckHold(n, 1, true), [WriteHold(n, Done)], OneCase(ACTIVE, true, callers[n := CallOver]));
  }

  lemma {:induction false} Append(s: State, a: seq<Step>, t: State, b: seq<Step>, u: State)
    requires Leads(s, a, t) && Leads(t, b, u)
    ensures Leads(s, a + b, u)
    decreases |a|
  {
    if a == [] {
      assert a + b == b;
    } else {
      assert (a + b)[0] == a[0] && (a + b)[1..] == a[1..] + b;
      Append(Apply(s, a[0]), a[1..], t, b, u);
    }
  }

  /** A hold set between a destruction's check and its mark does not save the evidence. */
  lemma DestroyedUnderHold() returns (steps: seq<Step>)
    ensures CanRun(OneCase(ACTIVE, false, map[]), steps)
    ensures var t := Run(OneCase(ACTIVE, false, map[]), steps); Held(t, 1) && 2 in t.rows && t.rows[2].destroyed
  {
    var a, b := [Look(0, 2)] + ([ReadStatus(0)] + [ReadHold(0)]), [CheckHold(1, 1, true)] + [WriteHold(1, Done)];
    var callers := map[0 := HoldRead(2)];
    Destructive(0);
    HoldsNow(callers, 1);
    Append(OneCase(ACTIVE, false, map[]), a, OneCase(ACTIVE, false, callers), b, OneCase(ACTIVE, true, callers[1 := CallOver]));
    var t := OneCase(ACTIVE, true, callers[1 := CallOver]);
    Last(t, MarkDestroyed(0, Done));
    Append(OneCase(ACTIVE, false, map[]), a + b, t, [MarkDestroyed(0, Done)], Apply(t, MarkDestroyed(0, Done)));
    steps := a + b + [MarkDestroyed(0, Done)];
  }

  /** A request to close the case. */
  const TO_CLOSED := Calls.CaseUpdate(None, None, None, Some(CLOSED))

  lemma ValidatesClosing(callers: map<nat, Caller>, n: nat)
    requires n !in callers
    ensures Leads(OneCase(ACTIVE, false, callers), [ReadForUpdate(n, 1, TO_CLOSED)] + [Validate(n)],
                  OneCase(ACTIVE, false, callers[n := UpdateChecked(1, TO_CLOSED)]))
  {
    var s := OneCase(ACTIVE, false, callers);
    var s1 := Apply(s, ReadForUpdate(n, 1, TO_CLOSED));
    assert Calls.IsValidStatusTransition(ACTIVE, CLOSED);
    assert Apply(s1, Validate(n)) == OneCase(ACTIVE, false, callers[n := UpdateChecked(1, TO_CLOSED)]);
    Last(s1, Validate(n));
    Then(s, ReadForUpdate(n, 1, TO_CLOSED), [Validate(n)], Apply(s1, Validate(n)));
  }

  lemma Closes(status: string, callers: map<nat, Caller>, n: nat)
    requires n in callers && callers[n] == UpdateChecked(1, TO_CLOSED)
    ensures Leads(OneCase(status, false, callers), [WriteUpdate(n, Done)], OneCase(CLOSED, false, callers[n := CallOver]))
  {
    assert Apply(OneCase(status, false, callers), WriteUpdate(n, Done)) == OneCase(CLOSED, false, callers[n := CallOver]);
    Last(OneCase(status, false, callers), WriteUpdate(n, Done));
  }

  lemma Archives(callers: map<nat, Caller>, n: nat)
    requires n !in callers
    ensures Leads(OneCase(CLOSED, false, callers), [CheckArchive(n, 1)] + [WriteArchived(n, Done)],
                  OneCase(ARCHIVED, false, callers[n := CallOver]))
  {
    var s := OneCase(CLOSED, false, callers);
    assert Calls.IsValidStatusTransition(CLOSED, ARCHIVED);
    var s1 := Apply(s, CheckArchive(n, 1));
    assert Apply(s1, WriteArchived(n, Done)) == OneCase(ARCHIVED, false, callers[n := CallOver]);
    Last(s1, WriteArchived(n, Done));
    Then(s, CheckArchive(n, 1), [WriteArchived(n, Done)], Apply(s1, WriteArchived(n, Done)));
  }

  /** Two callers validate the step from active to closed; one writes it and the case is archived; then the
      other writes, and the archived case is closed again. */
  lemma ArchivedCaseReopened() returns (steps: seq<Step>, late: Step)
    ensures var s := OneCase(ACTIVE, false, map[]);
            && CanRun(s, steps) && Archived(Run(s, steps), 1) && CanRun(s, steps + [late])
            && 1 in Run(s, steps + [late]).cases && Run(s, steps + [late]).cases[1].status == CLOSED
  {
    var s, checked := OneCase(ACTIVE, false, map[]), UpdateChecked(1, TO_CLOSED);
    var a := [ReadForUpdate(0, 1, TO_CLOSED)] + [Validate(0)];
    var b := [ReadForUpdate(1, 1, TO_CLOSED)] + [Validate(1)];
    var d := [CheckArchive(2, 1)] + [WriteArchived(2, Done)];
    var k1 := map[][0 := checked];
    var k2 := k1[1 := checked];
    var k3 := k2[1 := CallOver];
    var k4 := k3[2 := CallOver];
    ValidatesClosing(map[], 0);
    ValidatesClosing(k1, 1);
    Append(s, a, OneCase(ACTIVE, false, k1), b, OneCase(ACTIVE, false, k2));
    Closes(ACTIVE, k2, 1);
    Append(s, a + b, OneCase(ACTIVE, false, k2), [WriteUpdate(1, Done)], OneCase(CLOSED, false, k3));
    Archives(k3, 2);
    Append(s, a + b + [WriteUpdate(1, Done)], OneCase(CLOSED, false, k3), d, OneCase(ARCHIVED, false, k4));
    Closes(ARCHIVED, k4, 0);
    steps, late := a + b + [WriteUpdate(1, Done)] + d, WriteUpdate(0, Done);
    Append(s, steps, OneCase(ARCHIVED, false, k4), [late], OneCase(CLOSED, false, k4[0 := CallOver]));
  }
}
