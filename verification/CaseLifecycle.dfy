/** What archiving and legal holds protect, over any sequence of case and evidence calls. */
module CaseLifecycle {
  import opened Common
  import opened Texts
  import opened EvidenceNames
  import opened EvidenceTables
  import opened VaultCalls
  import opened VersionFamilies

  // ---------------------------------------------------------------- status

  /** Zero or more allowed steps. */
  predicate StatusReaches(from: string, to: string) {
    from == to || IsValidStatusTransition(from, to) || (from == ACTIVE && to == ARCHIVED)
  }

  /** One call leaves the status alone or takes one allowed step; an archived case does not change at all. */
  ghost predicate CaseSteps(c: Case, c': Case) {
    && c'.reference == c.reference
    && (c'.status == c.status || IsValidStatusTransition(c.status, c'.status))
    && (c.status == ARCHIVED ==> c' == c)
  }

  lemma CaseCallSteps(r: Rules, t: Tables, call: Call, id: UUID)
    requires FreshIds(t, call) && id in t.cases && OnCase(call)
    ensures id in After(r, t, call).0.cases && CaseSteps(t.cases[id], After(r, t, call).0.cases[id])
  {
    match call
    case CreateCase(_, _, _) =>
    case UpdateCase(_, _, _) =>
    case ArchiveCase(_, _) =>
    case SetLegalHold(_, _, _) =>
  }

  lemma CallStepsCase(r: Rules, t: Tables, call: Call, id: UUID)
    requires FreshIds(t, call) && id in t.cases
    ensures id in After(r, t, call).0.cases && CaseSteps(t.cases[id], After(r, t, call).0.cases[id])
  {
    if OnCase(call) {
      CaseCallSteps(r, t, call, id);
    } else {
      EvidenceCallCases(r, t, call);
    }
  }

  /** Over any sequence of calls a status only moves forward along active, closed, archived, and an
      archived case is the same for ever. */
  lemma {:induction false} StatusOnlyMovesForward(r: Rules, t: Tables, calls: seq<Call>, id: UUID)
    requires CanRun(r, t, calls) && id in t.cases
    ensures id in Run(r, t, calls).cases
    ensures var c, c' := t.cases[id], Run(r, t, calls).cases[id];
            StatusReaches(c.status, c'.status) && c'.reference == c.reference && (c.status == ARCHIVED ==> c' == c)
    decreases |calls|
  {
    if calls != [] {
      CallStepsCase(r, t, calls[0], id);
      StatusOnlyMovesForward(r, After(r, t, calls[0]).0, calls[1..], id);
    }
  }

  // ---------------------------------------------------------------- evidence of an archived case

  ghost predicate InCase(rows: map<UUID, Row>, c: UUID, id: UUID) { id in rows && rows[id].caseId == c }

  /** The same records with the same flags, versions, links, hashes and keys. */
  ghost predicate SameEvidence(rows: map<UUID, Row>, rows': map<UUID, Row>, c: UUID) {
    && (forall id :: InCase(rows, c, id) <==> InCase(rows', c, id))
    && (forall id | InCase(rows, c, id) && id in rows' ::
         rows'[id].(description := rows[id].description, thumbnail := rows[id].thumbnail) == rows[id])
  }

  /** The same stored evidence files. */
  ghost predicate SameFiles(objects: map<ObjectKey, Bytes>, objects': map<ObjectKey, Bytes>, c: UUID) {
    forall k: ObjectKey | k.EvidenceKey? && k.caseId == c :: SameObject(objects, objects', k)
  }

  /** A row names a file of its own case and a thumbnail outside all evidence files. */
  predicate KeyInCase(row: Row) {
    && row.key.EvidenceKey? && row.key.caseId == row.caseId
    && (row.thumbnail.Some? ==> row.thumbnail.value.ThumbnailKey?)
  }

  ghost predicate KeysInCase(rows: map<UUID, Row>) { forall id | id in rows :: KeyInCase(rows[id]) }

  /** How a change shows in the rows: at most one row is written, and of the others only members of the
      family joined change, and only their current flag. */
  ghost predicate Shows(rows: map<UUID, Row>, rows': map<UUID, Row>, c: RowChange) {
    && (forall id | id in rows :: id in rows')
    && (forall id | id in rows' && id !in rows :: !c.Same? && id == c.id)
    && (forall id | id in rows && (c.Same? || id != c.id) ::
         rows'[id] == rows[id] || (c.Versioned? && InFamily(rows, c.root, id) && rows'[id] == rows[id].(current := false)))
    && (!c.Same? ==> c.id in rows' && rows'[c.id].(parent := c.row.parent, version := c.row.version, current := c.row.current) == c.row)
    && (c.Touched? ==> rows'[c.id] == c.row)
  }

  lemma PlainChangeShows(rows: map<UUID, Row>, c: RowChange)
    requires ChangeOk(rows, c) && !c.Versioned?
    ensures Shows(rows, Applied(rows, c), c)
  {
  }

  lemma VersionShows(rows: map<UUID, Row>, c: RowChange)
    requires ChangeOk(rows, c) && c.Versioned?
    ensures Shows(rows, Applied(rows, c), c)
  {
  }

  lemma AppliedShows(rows: map<UUID, Row>, c: RowChange)
    requires ChangeOk(rows, c)
    ensures Shows(rows, Applied(rows, c), c)
  {
    if c.Versioned? {
      VersionShows(rows, c);
    } else {
      PlainChangeShows(rows, c);
    }
  }

  lemma WrittenKeyInCase(r: Rules, t: Tables, call: Call)
    requires KeysInCase(t.rows)
    ensures var c := ChangeOf(r, t, call); !c.Same? ==> KeyInCase(c.row)
  {
  }

  lemma ShowsKeepsKeys(rows: map<UUID, Row>, rows': map<UUID, Row>, c: RowChange)
    requires KeysInCase(rows) && Shows(rows, rows', c) && (!c.Same? ==> KeyInCase(c.row))
    ensures KeysInCase(rows')
  {
    forall id | id in rows' ensures KeyInCase(rows'[id]) {
      if id in rows { assert KeyInCase(rows[id]); }
    }
  }

  lemma KeysInCaseKept(r: Rules, t: Tables, call: Call)
    requires ParentsAreRoots(t.rows) && FreshIds(t, call) && KeysInCase(t.rows)
    ensures KeysInCase(After(r, t, call).0.rows)
  {
    CallChangesRows(r, t, call);
    AppliedShows(t.rows, ChangeOf(r, t, call));
    WrittenKeyInCase(r, t, call);
    ShowsKeepsKeys(t.rows, After(r, t, call).0.rows, ChangeOf(r, t, call));
  }

  lemma {:induction false} RunKeepsShape(r: Rules, t: Tables, calls: seq<Call>)
    requires ParentsAreRoots(t.rows) && KeysInCase(t.rows) && CanRun(r, t, calls)
    ensures ParentsAreRoots(Run(r, t, calls).rows) && KeysInCase(Run(r, t, calls).rows)
    decreases |calls|
  {
    if calls != [] {
      KeysInCaseKept(r, t, calls[0]);
      CallChangesRows(r, t, calls[0]);
      ParentsKept(t.rows, ChangeOf(r, t, calls[0]));
      RunKeepsShape(r, After(r, t, calls[0]).0, calls[1..]);
    }
  }

  /** The premises of this module hold of everything calls can make of an empty vault, however they fail. */
  lemma ReachableShape(r: Rules, calls: seq<Call>)
    requires CanRun(r, EMPTY, calls)
    ensures ParentsAreRoots(Run(r, EMPTY, calls).rows) && KeysInCase(Run(r, EMPTY, calls).rows)
  {
    RunKeepsShape(r, EMPTY, calls);
  }

  /** A change whose row is of another case leaves a case's evidence alone. */
  lemma ChangeElsewhere(rows: map<UUID, Row>, rows': map<UUID, Row>, c: RowChange, caseId: UUID)
    requires ParentsAreRoots(rows) && ChangeOk(rows, c) && Shows(rows, rows', c)
    requires !c.Same? ==> c.row.caseId != caseId
    ensures SameEvidence(rows, rows', caseId)
  {
    if c.Versioned? {
      assert forall id | InFamily(rows, c.root, id) :: rows[id].caseId == c.row.caseId;
    }
  }

  /** A change to a row's description or thumbnail leaves its case's evidence alone. */
  lemma TouchUpText(rows: map<UUID, Row>, id: UUID, row: Row, caseId: UUID)
    requires id in rows && row.(description := rows[id].description, thumbnail := rows[id].thumbnail) == rows[id]
    ensures SameEvidence(rows, rows[id := row], caseId)
  {
  }

  lemma ArchivedRowsStay(r: Rules, t: Tables, call: Call, c: UUID)
    requires ParentsAreRoots(t.rows) && FreshIds(t, call)
    requires c in t.cases && t.cases[c].status == ARCHIVED
    ensures SameEvidence(t.rows, After(r, t, call).0.rows, c)
  {
    CallChangesRows(r, t, call);
    var change := ChangeOf(r, t, call);
    if change.Touched? && !call.Destroy? {
      TouchUpText(t.rows, change.id, change.row, c);
    } else {
      AppliedShows(t.rows, change);
      ChangeElsewhere(t.rows, After(r, t, call).0.rows, change, c);
    }
  }

  lemma ArchivedFilesStay(r: Rules, t: Tables, call: Call, c: UUID)
    requires KeysInCase(t.rows) && c in t.cases && t.cases[c].status == ARCHIVED
    ensures SameFiles(t.objects, After(r, t, call).0.objects, c)
  {
    forall k: ObjectKey | k.EvidenceKey? && k.caseId == c ensures SameObject(t.objects, After(r, t, call).0.objects, k) {
      assert !Touches(r, t, call, k);
      ObjectsStay(r, t, call, k);
    }
  }

  /** From the moment a case is archived, its set of evidence records, their destroyed and current flags,
      versions, parents, hashes and keys, and its stored evidence files are the same for ever. */
  lemma {:induction false} ArchivedEvidenceIsFrozen(r: Rules, t: Tables, calls: seq<Call>, c: UUID)
    requires ParentsAreRoots(t.rows) && KeysInCase(t.rows) && CanRun(r, t, calls)
    requires c in t.cases && t.cases[c].status == ARCHIVED
    ensures SameEvidence(t.rows, Run(r, t, calls).rows, c)
    ensures SameFiles(t.objects, Run(r, t, calls).objects, c)
    decreases |calls|
  {
    if calls != [] {
      var t1 := After(r, t, calls[0]).0;
      CallStepsCase(r, t, calls[0], c);
      ArchivedRowsStay(r, t, calls[0], c);
      ArchivedFilesStay(r, t, calls[0], c);
      KeysInCaseKept(r, t, calls[0]);
      CallChangesRows(r, t, calls[0]);
      ParentsKept(t.rows, ChangeOf(r, t, calls[0]));
      ArchivedEvidenceIsFrozen(r, t1, calls[1..], c);
      SameEvidenceTrans(t.rows, t1.rows, Run(r, t, calls).rows, c);
    }
  }

  lemma SameEvidenceTrans(a: map<UUID, Row>, b: map<UUID, Row>, d: map<UUID, Row>, c: UUID)
    requires SameEvidence(a, b, c) && SameEvidence(b, d, c)
    ensures SameEvidence(a, d, c)
  {
    forall id | InCase(a, c, id) && id in d
      ensures d[id].(description := a[id].description, thumbnail := a[id].thumbnail) == a[id]
    {
      assert InCase(b, c, id);
    }
  }

  // ---------------------------------------------------------------- legal holds

  /** Every record of the case is still there, none newly destroyed. */
  ghost predicate NoneDestroyed(rows: map<UUID, Row>, rows': map<UUID, Row>, c: UUID) {
    forall id | InCase(rows, c, id) :: InCase(rows', c, id) && rows'[id].destroyed == rows[id].destroyed && rows'[id].key == rows[id].key
  }

  /** Every stored file of the case's records is still there. */
  ghost predicate NoFileLost(t: Tables, objects': map<ObjectKey, Bytes>, c: UUID) {
    forall id | InCase(t.rows, c, id) && t.rows[id].key in t.objects ::
      t.rows[id].key in objects' && objects'[t.rows[id].key] == t.objects[t.rows[id].key]
  }

  /** An upload's object id names no earlier file. */
  ghost predicate FreshKey(t: Tables, call: Call) {
    (call.Upload? || call.UploadNewVersion?) ==> forall id | id in t.rows && t.rows[id].key.EvidenceKey? ::
      t.rows[id].key.objectId != call.u.objectId
  }

  predicate Releases(call: Call, c: UUID) { call.SetLegalHold? && call.id == c && !call.hold }

  lemma HoldKeptBy(r: Rules, t: Tables, call: Call, c: UUID)
    requires FreshIds(t, call) && c in t.cases && t.cases[c].legalHold && !Releases(call, c)
    ensures c in After(r, t, call).0.cases && After(r, t, call).0.cases[c].legalHold
  {
    if !OnCase(call) {
      EvidenceCallCases(r, t, call);
    }
  }

  lemma HoldKeepsRows(r: Rules, t: Tables, call: Call, c: UUID)
    requires ParentsAreRoots(t.rows) && FreshIds(t, call) && c in t.cases && t.cases[c].legalHold
    ensures NoneDestroyed(t.rows, After(r, t, call).0.rows, c)
  {
    CallChangesRows(r, t, call);
    AppliedShows(t.rows, ChangeOf(r, t, call));
  }

  lemma HoldKeepsFiles(r: Rules, t: Tables, call: Call, c: UUID)
    requires KeysInCase(t.rows) && FreshIds(t, call) && FreshKey(t, call) && c in t.cases && t.cases[c].legalHold
    ensures NoFileLost(t, After(r, t, call).0.objects, c)
  {
    forall id | InCase(t.rows, c, id) && t.rows[id].key in t.objects
      ensures SameObject(t.objects, After(r, t, call).0.objects, t.rows[id].key)
    {
      assert KeyInCase(t.rows[id]);
      assert call.Destroy? && call.id in t.rows ==> KeyInCase(t.rows[call.id]);
      assert !Touches(r, t, call, t.rows[id].key);
      ObjectsStay(r, t, call, t.rows[id].key);
    }
  }

  lemma HoldRefusesArchive(r: Rules, t: Tables, c: UUID, out: Outcome)
    requires c in t.cases && t.cases[c].legalHold
    ensures After(r, t, ArchiveCase(c, out)) == (t, Invalid(LegalHold))
  {
  }

  ghost predicate AlwaysFreshKeys(r: Rules, t: Tables, calls: seq<Call>)
    decreases |calls|
  {
    calls == [] || (FreshKey(t, calls[0]) && AlwaysFreshKeys(r, After(r, t, calls[0]).0, calls[1..]))
  }

  /** As long as a hold is not released, the hold stays, no evidence of the case is destroyed and none of
      its files is lost, whatever calls are made and however they fail. */
  lemma {:induction false} HoldProtectsEvidence(r: Rules, t: Tables, calls: seq<Call>, c: UUID)
    requires ParentsAreRoots(t.rows) && KeysInCase(t.rows) && CanRun(r, t, calls) && AlwaysFreshKeys(r, t, calls)
    requires c in t.cases && t.cases[c].legalHold && forall i | 0 <= i < |calls| :: !Releases(calls[i], c)
    ensures c in Run(r, t, calls).cases && Run(r, t, calls).cases[c].legalHold
    ensures NoneDestroyed(t.rows, Run(r, t, calls).rows, c)
    ensures NoFileLost(t, Run(r, t, calls).objects, c)
    decreases |calls|
  {
    if calls != [] {
      var t1 := After(r, t, calls[0]).0;
      HoldKeptBy(r, t, calls[0], c);
      HoldKeepsRows(r, t, calls[0], c);
      HoldKeepsFiles(r, t, calls[0], c);
      KeysInCaseKept(r, t, calls[0]);
      CallChangesRows(r, t, calls[0]);
      ParentsKept(t.rows, ChangeOf(r, t, calls[0]));
      HoldProtectsEvidence(r, t1, calls[1..], c);
    }
  }

  /** Exactly when a call archives a case under hold: the status update from closed, which does not consult
      the hold. */
  lemma HoldBypass(r: Rules, t: Tables, call: Call, c: UUID)
    requires FreshIds(t, call) && c in t.cases && t.cases[c].legalHold && t.cases[c].status != ARCHIVED
    ensures c in After(r, t, call).0.cases
    ensures After(r, t, call).0.cases[c].status == ARCHIVED <==>
            && call.UpdateCase? && call.id == c && call.update.status == Some(ARCHIVED) && call.out.Effective()
            && t.cases[c].status == CLOSED && UpdateProblem(r, t.cases[c], call.update).None?
  {
    if OnCase(call) {
      CaseCallSteps(r, t, call, c);
    } else {
      EvidenceCallCases(r, t, call);
    }
  }

  /** Exactly when a call newly destroys a record. */
  lemma DestroyedIff(r: Rules, t: Tables, call: Call, id: UUID)
    requires ParentsAreRoots(t.rows) && FreshIds(t, call) && id in t.rows && !t.rows[id].destroyed
    ensures id in After(r, t, call).0.rows
    ensures After(r, t, call).0.rows[id].destroyed <==>
            && call.Destroy? && call.id == id && call.mark.Effective() && r.trim(call.reason) != ""
            && t.rows[id].caseId in t.cases
            && t.cases[t.rows[id].caseId].status != ARCHIVED && !t.cases[t.rows[id].caseId].legalHold
  {
    CallChangesRows(r, t, call);
    AppliedShows(t.rows, ChangeOf(r, t, call));
  }
}
