/** Version families: what uploads, new versions and destructions keep, and exactly when a new version
    whose bookkeeping calls fail breaks it. */
module VersionFamilies {
  import opened Common
  import opened Texts
  import opened EvidenceNames
  import opened EvidenceTables
  import opened VaultCalls

  /** Parent links have depth at most one and stay inside a case. */
  ghost predicate ParentsAreRoots(rows: map<UUID, Row>) {
    forall id | id in rows && rows[id].parent.Some? ::
      && rows[id].parent.value in rows
      && rows[rows[id].parent.value].parent.None?
      && rows[rows[id].parent.value].caseId == rows[id].caseId
  }

  ghost predicate IsCurrentOf(rows: map<UUID, Row>, root: UUID, id: UUID) {
    InFamily(rows, root, id) && rows[id].current
  }

  /** A family has one current member and no other. */
  ghost predicate OneCurrent(rows: map<UUID, Row>, root: UUID) {
    exists id :: IsCurrentOf(rows, root, id) && forall other | IsCurrentOf(rows, root, other) :: other == id
  }

  ghost predicate IsRoot(rows: map<UUID, Row>, id: UUID) { id in rows && rows[id].parent.None? }

  ghost predicate EveryFamilyHasOneCurrent(rows: map<UUID, Row>) {
    forall root | IsRoot(rows, root) :: OneCurrent(rows, root)
  }

  // ---------------------------------------------------------------- reading a family

  /** The rows listed as the history of a row: its root and everything whose parent is that root. */
  function VersionHistory(rows: map<UUID, Row>, id: UUID): set<UUID>
    requires id in rows
  {
    set x | x in rows && InFamily(rows, Root(rows, id), x)
  }

  /** From any member, the history is the whole family, and every row is in exactly one family. */
  lemma HistoryIsWholeFamily(rows: map<UUID, Row>, id: UUID, other: UUID)
    requires ParentsAreRoots(rows) && id in rows && other in rows
    ensures id in VersionHistory(rows, id)
    ensures other in VersionHistory(rows, id) <==> Root(rows, other) == Root(rows, id)
    ensures other in VersionHistory(rows, id) ==> VersionHistory(rows, other) == VersionHistory(rows, id)
  {
  }

  // ---------------------------------------------------------------- effects on the rows alone

  /** How a call changes the rows as far as families are concerned. */
  datatype RowChange =
    | Same
    | Added(id: UUID, row: Row)
    | Touched(id: UUID, row: Row)
    | Versioned(id: UUID, row: Row, root: UUID, version: nat, mark: Outcome, set': Outcome)

  function Applied(rows: map<UUID, Row>, c: RowChange): map<UUID, Row> {
    match c
    case Same => rows
    case Added(id, row) => rows[id := row]
    case Touched(id, row) => rows[id := row]
    case Versioned(id, row, root, version, mark, set') =>
      SetVersion(MarkPrevious(rows[id := row], root, mark), id, root, version, set')
  }

  /** What such a change may be: a fresh first version, a row with its family fields untouched, or a fresh
      row put into the family of an existing one. */
  ghost predicate ChangeOk(rows: map<UUID, Row>, c: RowChange) {
    match c
    case Same => true
    case Added(id, row) => id !in rows && row.current && row.version == 1 && row.parent.None?
    case Touched(id, row) =>
      && id in rows && row.parent == rows[id].parent && row.current == rows[id].current
      && row.version == rows[id].version && row.caseId == rows[id].caseId
      && (rows[id].destroyed ==> row.destroyed)
    case Versioned(id, row, root, version, _, _) =>
      && id !in rows && row.current && row.version == 1 && row.parent.None?
      && IsRoot(rows, root) && row.caseId == rows[root].caseId
  }

  function UploadChange(r: Rules, t: Tables, u: UploadInput): RowChange {
    if Creates(r, t, u) && u.create.Effective() then Added(u.rowId, UploadedRow(r, t, u))
    else Same
  }

  function ChangeOf(r: Rules, t: Tables, call: Call): RowChange {
    match call
    case Upload(u) => UploadChange(r, t, u)
    case UploadNewVersion(p, u, mark, set') =>
      if p !in t.rows || t.rows[p].destroyed then Same
      else
        var u' := VersionInput(t, p, u);
        var up := UploadChange(r, t, u');
        if up.Added? && u.create.Done?
        then Versioned(up.id, up.row, Root(t.rows, p), t.rows[p].version + 1, mark, set')
        else up
    case Destroy(id, reason, mark, _, _) =>
      if id in t.rows && !t.rows[id].destroyed && DestroyProblem(r, t, t.rows[id], reason).None? && mark.Effective()
      then Touched(id, t.rows[id].(destroyed := true))
      else Same
    case UpdateMetadata(id, text, out) =>
      if r.size(text) <= MAX_DESCRIPTION && id in t.rows && !t.rows[id].destroyed && out.Effective()
      then Touched(id, t.rows[id].(description := r.escape(r.trim(text))))
      else Same
    case LinkThumbnail(id, _, put, link) =>
      if id in t.rows && put.Done? && link.Effective()
      then Touched(id, t.rows[id].(thumbnail := Some(ThumbnailKey(t.rows[id].caseId, id))))
      else Same
    case _ => Same
  }

  lemma OtherCallRows(r: Rules, t: Tables, call: Call)
    requires !call.Upload? && !call.UploadNewVersion?
    ensures After(r, t, call).0.rows == Applied(t.rows, ChangeOf(r, t, call))
  {
  }

  lemma VersionRows(r: Rules, t: Tables, p: UUID, u: UploadInput, mark: Outcome, set': Outcome)
    ensures VersionAfter(r, t, p, u, mark, set').0.rows == Applied(t.rows, ChangeOf(r, t, UploadNewVersion(p, u, mark, set')))
  {
    VersionLeaves(r, t, p, u, mark, set');
    if p in t.rows {
      UploadLeaves(r, t, VersionInput(t, p, u));
      AcceptedIffCreated(r, t, VersionInput(t, p, u));
    }
  }

  lemma ChangeIsOk(r: Rules, t: Tables, call: Call)
    requires ParentsAreRoots(t.rows) && FreshIds(t, call)
    ensures ChangeOk(t.rows, ChangeOf(r, t, call))
  {
  }

  /** Every call changes the rows by one such change. */
  lemma CallChangesRows(r: Rules, t: Tables, call: Call)
    requires ParentsAreRoots(t.rows) && FreshIds(t, call)
    ensures After(r, t, call).0.rows == Applied(t.rows, ChangeOf(r, t, call))
    ensures ChangeOk(t.rows, ChangeOf(r, t, call))
  {
    ChangeIsOk(r, t, call);
    match call
    case Upload(u) => UploadLeaves(r, t, u);
    case UploadNewVersion(p, u, mark, set') => VersionRows(r, t, p, u, mark, set');
    case _ => OtherCallRows(r, t, call);
  }

  // ---------------------------------------------------------------- families under a change

  /** The rows after both bookkeeping calls of a new version: the new row has joined the family of `root`,
      whose earlier members are no longer current. */
  ghost predicate JoinsFamily(rows: map<UUID, Row>, rows': map<UUID, Row>, c: RowChange) {
    && c.Versioned? && rows'.Keys == rows.Keys + {c.id}
    && rows'[c.id] == c.row.(parent := Some(c.root), version := c.version, current := true)
    && forall x | x in rows ::
         rows'[x] == if InFamily(rows, c.root, x) then rows[x].(current := false) else rows[x]
  }

  lemma BothCallsJoin(rows: map<UUID, Row>, c: RowChange)
    requires ChangeOk(rows, c) && c.Versioned? && c.mark.Effective() && c.set'.Effective()
    ensures JoinsFamily(rows, Applied(rows, c), c)
  {
  }

  lemma JoinKeepsParents(rows: map<UUID, Row>, rows': map<UUID, Row>, c: RowChange)
    requires ParentsAreRoots(rows) && ChangeOk(rows, c) && JoinsFamily(rows, rows', c)
    ensures ParentsAreRoots(rows')
  {
  }

  lemma OneCallKeepsParents(rows: map<UUID, Row>, c: RowChange)
    requires ParentsAreRoots(rows) && ChangeOk(rows, c) && c.Versioned? && c.mark.Effective() != c.set'.Effective()
    ensures ParentsAreRoots(Applied(rows, c))
  {
  }

  lemma PlainChangeKeepsParents(rows: map<UUID, Row>, c: RowChange)
    requires ParentsAreRoots(rows) && ChangeOk(rows, c) && !c.Versioned?
    ensures ParentsAreRoots(Applied(rows, c))
  {
  }

  lemma ParentsKept(rows: map<UUID, Row>, c: RowChange)
    requires ParentsAreRoots(rows) && ChangeOk(rows, c)
    ensures ParentsAreRoots(Applied(rows, c))
  {
    if !c.Versioned? {
      PlainChangeKeepsParents(rows, c);
    } else if c.mark.Effective() != c.set'.Effective() {
      OneCallKeepsParents(rows, c);
    } else if c.mark.Effective() {
      BothCallsJoin(rows, c);
      JoinKeepsParents(rows, Applied(rows, c), c);
    } else {
      PlainChangeKeepsParents(rows, Added(c.id, c.row));
    }
  }

  /** The same members with the same versions and current flags. */
  ghost predicate SameFamily(rows: map<UUID, Row>, rows': map<UUID, Row>, root: UUID) {
    && (forall id :: InFamily(rows, root, id) <==> InFamily(rows', root, id))
    && (forall id | InFamily(rows, root, id) && id in rows' ::
         rows'[id].version == rows[id].version && rows'[id].current == rows[id].current)
  }

  /** A change leaves alone every family but the one it adds to. */
  lemma AddedOtherFamilies(rows: map<UUID, Row>, id: UUID, row: Row, root: UUID)
    requires ParentsAreRoots(rows) && ChangeOk(rows, Added(id, row)) && root != id && IsRoot(rows[id := row], root)
    ensures IsRoot(rows, root) && SameFamily(rows, rows[id := row], root)
  {
  }

  lemma TouchedFamilies(rows: map<UUID, Row>, id: UUID, row: Row, root: UUID)
    requires ChangeOk(rows, Touched(id, row)) && IsRoot(rows[id := row], root)
    ensures IsRoot(rows, root) && SameFamily(rows, rows[id := row], root)
  {
  }

  lemma JoinOtherFamilies(rows: map<UUID, Row>, rows': map<UUID, Row>, c: RowChange, root: UUID)
    requires ParentsAreRoots(rows) && ChangeOk(rows, c) && JoinsFamily(rows, rows', c)
    requires root != c.root && IsRoot(rows', root)
    ensures IsRoot(rows, root) && SameFamily(rows, rows', root)
  {
  }

  lemma SameFamilyOneCurrent(rows: map<UUID, Row>, rows': map<UUID, Row>, root: UUID)
    requires OneCurrent(rows, root) && SameFamily(rows, rows', root)
    ensures OneCurrent(rows', root)
  {
    var id :| IsCurrentOf(rows, root, id) && forall other | IsCurrentOf(rows, root, other) :: other == id;
    assert InFamily(rows', root, id) && IsCurrentOf(rows', root, id);
    forall other | IsCurrentOf(rows', root, other) ensures other == id {
      assert InFamily(rows, root, other) && IsCurrentOf(rows, root, other);
    }
  }

  lemma AddedFamilyOneCurrent(rows: map<UUID, Row>, id: UUID, row: Row)
    requires ParentsAreRoots(rows) && ChangeOk(rows, Added(id, row))
    ensures OneCurrent(rows[id := row], id)
  {
    assert IsCurrentOf(rows[id := row], id, id);
  }

  lemma AddedKeepsOneCurrent(rows: map<UUID, Row>, id: UUID, row: Row)
    requires ParentsAreRoots(rows) && EveryFamilyHasOneCurrent(rows) && ChangeOk(rows, Added(id, row))
    ensures EveryFamilyHasOneCurrent(rows[id := row])
  {
    var rows' := rows[id := row];
    forall root | IsRoot(rows', root) ensures OneCurrent(rows', root) {
      if root == id {
        AddedFamilyOneCurrent(rows, id, row);
      } else {
        AddedOtherFamilies(rows, id, row, root);
        SameFamilyOneCurrent(rows, rows', root);
      }
    }
  }

  lemma TouchedKeepsOneCurrent(rows: map<UUID, Row>, id: UUID, row: Row)
    requires EveryFamilyHasOneCurrent(rows) && ChangeOk(rows, Touched(id, row))
    ensures EveryFamilyHasOneCurrent(rows[id := row])
  {
    var rows' := rows[id := row];
    forall root | IsRoot(rows', root) ensures OneCurrent(rows', root) {
      TouchedFamilies(rows, id, row, root);
      SameFamilyOneCurrent(rows, rows', root);
    }
  }

  lemma JoinedFamilyOneCurrent(rows: map<UUID, Row>, rows': map<UUID, Row>, c: RowChange)
    requires ParentsAreRoots(rows) && ChangeOk(rows, c) && JoinsFamily(rows, rows', c)
    ensures OneCurrent(rows', c.root)
  {
    assert IsCurrentOf(rows', c.root, c.id);
    forall other | IsCurrentOf(rows', c.root, other) ensures other == c.id {
      JoinedCurrentIsNew(rows, rows', c, other);
    }
  }

  lemma JoinedCurrentIsNew(rows: map<UUID, Row>, rows': map<UUID, Row>, c: RowChange, other: UUID)
    requires ChangeOk(rows, c) && JoinsFamily(rows, rows', c) && IsCurrentOf(rows', c.root, other)
    ensures other == c.id
  {
  }

  lemma JoinKeepsOneCurrent(rows: map<UUID, Row>, rows': map<UUID, Row>, c: RowChange)
    requires ParentsAreRoots(rows) && EveryFamilyHasOneCurrent(rows) && ChangeOk(rows, c) && JoinsFamily(rows, rows', c)
    ensures EveryFamilyHasOneCurrent(rows')
  {
    forall root | IsRoot(rows', root) ensures OneCurrent(rows', root) {
      if root == c.root {
        JoinedFamilyOneCurrent(rows, rows', c);
      } else {
        JoinOtherFamilies(rows, rows', c, root);
        SameFamilyOneCurrent(rows, rows', root);
      }
    }
  }

  lemma MarkOnlyLosesCurrent(rows: map<UUID, Row>, c: RowChange)
    requires ParentsAreRoots(rows) && ChangeOk(rows, c)
    requires c.Versioned? && c.mark.Effective() && !c.set'.Effective()
    ensures !EveryFamilyHasOneCurrent(Applied(rows, c))
  {
    var rows' := Applied(rows, c);
    assert IsRoot(rows', c.root);
    assert forall id :: !IsCurrentOf(rows', c.root, id);
  }

  lemma SetOnlyMakesTwoCurrent(rows: map<UUID, Row>, c: RowChange)
    requires ParentsAreRoots(rows) && EveryFamilyHasOneCurrent(rows) && ChangeOk(rows, c)
    requires c.Versioned? && !c.mark.Effective() && c.set'.Effective()
    ensures !EveryFamilyHasOneCurrent(Applied(rows, c))
  {
    var rows' := Applied(rows, c);
    var id :| IsCurrentOf(rows, c.root, id);
    assert IsRoot(rows', c.root);
    assert IsCurrentOf(rows', c.root, id) && IsCurrentOf(rows', c.root, c.id) && id != c.id;
  }

  /** Exactly when a change keeps one current member in every family. */
  lemma OneCurrentIff(rows: map<UUID, Row>, c: RowChange)
    requires ParentsAreRoots(rows) && EveryFamilyHasOneCurrent(rows) && ChangeOk(rows, c)
    ensures EveryFamilyHasOneCurrent(Applied(rows, c)) <==> (c.Versioned? ==> c.mark.Effective() == c.set'.Effective())
  {
    match c
    case Same =>
    case Added(id, row) => AddedKeepsOneCurrent(rows, id, row);
    case Touched(id, row) => TouchedKeepsOneCurrent(rows, id, row);
    case Versioned(id, row, _, _, mark, set') =>
      if mark.Effective() {
        if set'.Effective() {
          BothCallsJoin(rows, c);
          JoinKeepsOneCurrent(rows, Applied(rows, c), c);
        } else {
          MarkOnlyLosesCurrent(rows, c);
        }
      } else if set'.Effective() {
        SetOnlyMakesTwoCurrent(rows, c);
      } else {
        AddedKeepsOneCurrent(rows, id, row);
      }
  }

  // ---------------------------------------------------------------- version numbers

  ghost predicate HasVersion(rows: map<UUID, Row>, root: UUID, v: nat) {
    exists id :: InFamily(rows, root, id) && rows[id].version == v
  }

  /** The versions of a family are exactly 1..k, each once, and the current member is the newest. */
  ghost predicate VersionsAre(rows: map<UUID, Row>, root: UUID, k: nat) {
    && (forall id | InFamily(rows, root, id) :: 1 <= rows[id].version <= k)
    && (forall a, b | InFamily(rows, root, a) && InFamily(rows, root, b) && a != b :: rows[a].version != rows[b].version)
    && (forall v | 1 <= v <= k :: HasVersion(rows, root, v))
    && (forall id | IsCurrentOf(rows, root, id) :: rows[id].version == k)
  }

  ghost predicate EveryFamilyIsNumbered(rows: map<UUID, Row>) {
    forall root | IsRoot(rows, root) :: exists k: nat :: VersionsAre(rows, root, k)
  }

  /** A new version is made from the current member and its bookkeeping calls succeed. */
  ghost predicate MadeFromCurrent(rows: map<UUID, Row>, c: RowChange) {
    c.Versioned? ==>
      && c.mark.Effective() && c.set'.Effective()
      && exists p :: IsCurrentOf(rows, c.root, p) && c.version == rows[p].version + 1
  }

  lemma SameFamilyVersions(rows: map<UUID, Row>, rows': map<UUID, Row>, root: UUID, k: nat)
    requires VersionsAre(rows, root, k) && SameFamily(rows, rows', root)
    ensures VersionsAre(rows', root, k)
  {
    forall id | InFamily(rows', root, id) ensures InFamily(rows, root, id) && rows'[id].version == rows[id].version {
    }
    forall v | 1 <= v <= k ensures HasVersion(rows', root, v) {
      assert HasVersion(rows, root, v);
      var id :| InFamily(rows, root, id) && rows[id].version == v;
      assert InFamily(rows', root, id);
    }
  }

  lemma NewVersionIsNext(rows: map<UUID, Row>, rows': map<UUID, Row>, c: RowChange, k: nat)
    requires ParentsAreRoots(rows) && ChangeOk(rows, c) && MadeFromCurrent(rows, c) && JoinsFamily(rows, rows', c)
    requires VersionsAre(rows, c.root, k)
    ensures VersionsAre(rows', c.root, k + 1)
  {
    assert c.version == k + 1;
    assert forall id | InFamily(rows', c.root, id) && id != c.id :: InFamily(rows, c.root, id) && rows'[id].version == rows[id].version;
    forall v | 1 <= v <= k + 1 ensures HasVersion(rows', c.root, v) {
      if v == k + 1 {
        assert InFamily(rows', c.root, c.id);
      } else {
        assert HasVersion(rows, c.root, v);
        var id :| InFamily(rows, c.root, id) && rows[id].version == v;
        assert InFamily(rows', c.root, id);
      }
    }
  }

  lemma FirstVersionAlone(rows: map<UUID, Row>, id: UUID)
    requires IsRoot(rows, id) && rows[id].version == 1 && forall x | InFamily(rows, id, x) :: x == id
    ensures VersionsAre(rows, id, 1)
  {
    assert InFamily(rows, id, id);
    assert HasVersion(rows, id, 1);
  }

  lemma SameFamilyNumbered(rows: map<UUID, Row>, rows': map<UUID, Row>, root: UUID)
    requires EveryFamilyIsNumbered(rows) && IsRoot(rows, root) && SameFamily(rows, rows', root)
    ensures exists k: nat :: VersionsAre(rows', root, k)
  {
    var k: nat :| VersionsAre(rows, root, k);
    SameFamilyVersions(rows, rows', root, k);
  }

  lemma AddedNumbered(rows: map<UUID, Row>, rows': map<UUID, Row>, id: UUID, row: Row)
    requires ParentsAreRoots(rows) && EveryFamilyIsNumbered(rows) && ChangeOk(rows, Added(id, row)) && rows' == rows[id := row]
    ensures EveryFamilyIsNumbered(rows')
  {
    forall root | IsRoot(rows', root) ensures exists k: nat :: VersionsAre(rows', root, k) {
      if root == id {
        FirstVersionAlone(rows', id);
      } else {
        AddedOtherFamilies(rows, id, row, root);
        SameFamilyNumbered(rows, rows', root);
      }
    }
  }

  lemma TouchedNumbered(rows: map<UUID, Row>, rows': map<UUID, Row>, id: UUID, row: Row)
    requires EveryFamilyIsNumbered(rows) && ChangeOk(rows, Touched(id, row)) && rows' == rows[id := row]
    ensures EveryFamilyIsNumbered(rows')
  {
    forall root | IsRoot(rows', root) ensures exists k: nat :: VersionsAre(rows', root, k) {
      TouchedFamilies(rows, id, row, root);
      SameFamilyNumbered(rows, rows', root);
    }
  }

  lemma JoinNumbered(rows: map<UUID, Row>, rows': map<UUID, Row>, c: RowChange)
    requires ParentsAreRoots(rows) && EveryFamilyIsNumbered(rows) && ChangeOk(rows, c)
    requires MadeFromCurrent(rows, c) && JoinsFamily(rows, rows', c)
    ensures EveryFamilyIsNumbered(rows')
  {
    forall root | IsRoot(rows', root) ensures exists k: nat :: VersionsAre(rows', root, k) {
      if root == c.root {
        var k: nat :| VersionsAre(rows, root, k);
        NewVersionIsNext(rows, rows', c, k);
      } else {
        JoinOtherFamilies(rows, rows', c, root);
        SameFamilyNumbered(rows, rows', root);
      }
    }
  }

  lemma NumberingKept(rows: map<UUID, Row>, c: RowChange)
    requires ParentsAreRoots(rows) && EveryFamilyIsNumbered(rows) && ChangeOk(rows, c) && MadeFromCurrent(rows, c)
    ensures EveryFamilyIsNumbered(Applied(rows, c))
  {
    match c
    case Same =>
    case Added(id, row) => AddedNumbered(rows, Applied(rows, c), id, row);
    case Touched(id, row) => TouchedNumbered(rows, Applied(rows, c), id, row);
    case Versioned(_, _, _, _, _, _) =>
      BothCallsJoin(rows, c);
      JoinNumbered(rows, Applied(rows, c), c);
  }

  // ---------------------------------------------------------------- over any sequence of calls

  /** The two bookkeeping calls of a new version both take effect or both do not. */
  predicate BookkeepingAgrees(call: Call) {
    call.UploadNewVersion? ==> call.mark.Effective() == call.set'.Effective()
  }

  lemma CallKeepsFamilies(r: Rules, t: Tables, call: Call)
    requires ParentsAreRoots(t.rows) && EveryFamilyHasOneCurrent(t.rows) && FreshIds(t, call) && BookkeepingAgrees(call)
    ensures ParentsAreRoots(After(r, t, call).0.rows) && EveryFamilyHasOneCurrent(After(r, t, call).0.rows)
  {
    CallChangesRows(r, t, call);
    ParentsKept(t.rows, ChangeOf(r, t, call));
    OneCurrentIff(t.rows, ChangeOf(r, t, call));
  }

  /** Over any sequence of calls: parent links have depth at most one within a case, and as long as no new
      version has only half of its bookkeeping take effect, every family has exactly one current member. */
  lemma {:induction false} FamiliesOverRuns(r: Rules, t: Tables, calls: seq<Call>)
    requires ParentsAreRoots(t.rows) && EveryFamilyHasOneCurrent(t.rows) && CanRun(r, t, calls)
    requires forall i | 0 <= i < |calls| :: BookkeepingAgrees(calls[i])
    ensures ParentsAreRoots(Run(r, t, calls).rows) && EveryFamilyHasOneCurrent(Run(r, t, calls).rows)
    decreases |calls|
  {
    if calls != [] {
      CallKeepsFamilies(r, t, calls[0]);
      FamiliesOverRuns(r, After(r, t, calls[0]).0, calls[1..]);
    }
  }

  /** A successful new version keeps one current member in every family exactly when its two bookkeeping
      calls, which the service only logs when they fail, both take effect or both do not. */
  lemma NewVersionKeepsOneCurrentIff(r: Rules, t: Tables, p: UUID, u: UploadInput, mark: Outcome, set': Outcome)
    requires ParentsAreRoots(t.rows) && EveryFamilyHasOneCurrent(t.rows) && u.rowId !in t.rows
    requires VersionAfter(r, t, p, u, mark, set').1 == Accepted
    ensures EveryFamilyHasOneCurrent(VersionAfter(r, t, p, u, mark, set').0.rows) <==> mark.Effective() == set'.Effective()
  {
    var call := UploadNewVersion(p, u, mark, set');
    CallChangesRows(r, t, call);
    OneCurrentIff(t.rows, ChangeOf(r, t, call));
  }

  /** Every new version in the sequence is made from the member that is current at that point. */
  ghost predicate AlwaysFromCurrent(r: Rules, t: Tables, calls: seq<Call>)
    decreases |calls|
  {
    calls == [] ||
    (MadeFromCurrent(t.rows, ChangeOf(r, t, calls[0])) && AlwaysFromCurrent(r, After(r, t, calls[0]).0, calls[1..]))
  }

  /** Then the versions of every family are exactly 1..k, and its current member is version k. */
  lemma {:induction false} VersionsOverRuns(r: Rules, t: Tables, calls: seq<Call>)
    requires ParentsAreRoots(t.rows) && EveryFamilyIsNumbered(t.rows)
    requires CanRun(r, t, calls) && AlwaysFromCurrent(r, t, calls)
    ensures ParentsAreRoots(Run(r, t, calls).rows) && EveryFamilyIsNumbered(Run(r, t, calls).rows)
    decreases |calls|
  {
    if calls != [] {
      CallChangesRows(r, t, calls[0]);
      ParentsKept(t.rows, ChangeOf(r, t, calls[0]));
      NumberingKept(t.rows, ChangeOf(r, t, calls[0]));
      VersionsOverRuns(r, After(r, t, calls[0]).0, calls[1..]);
    }
  }
}
