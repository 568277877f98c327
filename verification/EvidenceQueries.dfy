/** Listing the evidence of a case: how a filter becomes conditions and arguments. */
module EvidenceQueries {
  import opened Common
  import opened Texts
  import opened Sql
  import opened Paging

  datatype EvidenceFilter = EvidenceFilter(
    caseId: UUID, currentOnly: bool, includeDestroyed: bool, classification: string, mimeType: string,
    tags: seq<string>, search: string, userRole: string)

  datatype Query = Query(joinDisclosures: bool, conditions: seq<Condition>, args: seq<Value>, limitAt: nat,
                         countConditions: seq<Condition>, countArgs: seq<Value>)

  const DEFENCE := "defence"
  const SEARCHED := [Filename, OriginalName, Column.Description]

  /** A search looks at the stored and the original file name and the description. */
  predicate Found(w: World, row: Row, search: string) {
    || Like(w.fold, "%" + search + "%", row.text(Filename))
    || Like(w.fold, "%" + search + "%", row.text(OriginalName))
    || Like(w.fold, "%" + search + "%", row.text(Column.Description))
  }

  /** What a filter says of the evidence row itself. */
  predicate Matches(w: World, f: EvidenceFilter, row: Row) {
    && row.caseId == f.caseId
    && (f.currentOnly ==> row.current)
    && (!f.includeDestroyed ==> !row.destroyed)
    && (f.classification == "" || row.text(Classification) == f.classification)
    && (f.mimeType == "" || Like(w.fold, f.mimeType + "%", row.text(MimeType)))
    && (forall t | t in f.tags :: t in row.tags)
    && (f.search == "" || Found(w, row, f.search))
  }

  /** The defence sees only what has been disclosed in the row's case. */
  predicate Visible(w: World, f: EvidenceFilter, row: Row) {
    f.userRole == "defence" ==> (row.id, row.caseId) in w.disclosed
  }

  predicate Clause(w: World, f: EvidenceFilter, cursor: Option<UUID>, row: Row, k: nat) {
    match k
    case 0 => row.caseId == f.caseId
    case 1 => f.currentOnly ==> row.current
    case 2 => !f.includeDestroyed ==> !row.destroyed
    case 3 => f.classification == "" || row.text(Classification) == f.classification
    case 4 => f.mimeType == "" || Like(w.fold, f.mimeType + "%", row.text(MimeType))
    case 5 => forall t | t in f.tags :: t in row.tags
    case 6 => f.search == "" || Found(w, row, f.search)
    case _ => cursor.Some? ==> row.id < cursor.value
  }

  function Clauses(f: EvidenceFilter, cursor: Option<UUID>): (World, Row, nat) -> bool {
    (w: World, row: Row, k: nat) => Clause(w, f, cursor, row, k)
  }

  lemma ClausesMean(w: World, f: EvidenceFilter, cursor: Option<UUID>, row: Row)
    ensures (forall j: nat | j < 7 :: Clauses(f, cursor)(w, row, j)) <==> Matches(w, f, row)
    ensures (forall j: nat | j < 8 :: Clauses(f, cursor)(w, row, j))
       <==> Matches(w, f, row) && (cursor.Some? ==> row.id < cursor.value)
  {
    var c := Clauses(f, cursor);
    assert c(w, row, 0) == Clause(w, f, cursor, row, 0) && c(w, row, 1) == Clause(w, f, cursor, row, 1);
    assert c(w, row, 2) == Clause(w, f, cursor, row, 2) && c(w, row, 3) == Clause(w, f, cursor, row, 3);
    assert c(w, row, 4) == Clause(w, f, cursor, row, 4) && c(w, row, 5) == Clause(w, f, cursor, row, 5);
    assert c(w, row, 6) == Clause(w, f, cursor, row, 6) && c(w, row, 7) == Clause(w, f, cursor, row, 7);
  }

  predicate Selected(w: World, join: bool, cs: seq<Condition>, args: seq<Value>, row: Row)
    requires AllWellFormed(cs, args)
  {
    AllHold(w, cs, args, row) && (join ==> (row.id, row.caseId) in w.disclosed)
  }

  const DEFAULT_LIMIT := 50
  const MAX_LIMIT := 200

  ghost predicate Correct(q: Query, f: EvidenceFilter, limit: int, cursor: Option<UUID>) {
    && AllWellFormed(q.conditions, q.args) && AllWellFormed(q.countConditions, q.countArgs)
    && q.limitAt == |q.args| && q.limitAt > 0 && q.args[q.limitAt - 1] == Number(ClampLimit(limit, 50, 200) + 1)
    && (forall w, row :: Selected(w, q.joinDisclosures, q.conditions, q.args, row) <==>
          Matches(w, f, row) && Visible(w, f, row) && (cursor.Some? ==> row.id < cursor.value))
    && (forall w, row :: Selected(w, q.joinDisclosures, q.countConditions, q.countArgs, row) <==>
          Matches(w, f, row) && Visible(w, f, row))
  }

  /** A condition on one argument at the next placeholder is the k-th clause of the filter. */
  ghost predicate IsClause(f: EvidenceFilter, cursor: Option<UUID>, args: seq<Value>, c: Condition, v: Value, k: nat) {
    && WellFormed(c, args + [v])
    && forall w, row :: Holds(w, c, args + [v], row) <==> Clauses(f, cursor)(w, row, k)
  }

  lemma CaseClause(f: EvidenceFilter, cursor: Option<UUID>, args: seq<Value>)
    ensures IsClause(f, cursor, args, CaseIs(|args| + 1), Ident(f.caseId), 0)
  {
    assert (args + [Ident(f.caseId)])[|args|] == Ident(f.caseId);
  }

  lemma ClassificationClause(f: EvidenceFilter, cursor: Option<UUID>, args: seq<Value>)
    requires f.classification != ""
    ensures IsClause(f, cursor, args, TextIs(Classification, |args| + 1), Text(f.classification), 3)
  {
    assert (args + [Text(f.classification)])[|args|] == Text(f.classification);
  }

  lemma MimeClause(f: EvidenceFilter, cursor: Option<UUID>, args: seq<Value>)
    requires f.mimeType != ""
    ensures IsClause(f, cursor, args, AnyLike([MimeType], |args| + 1), Text(f.mimeType + "%"), 4)
  {
    assert (args + [Text(f.mimeType + "%")])[|args|] == Text(f.mimeType + "%");
    assert [MimeType][0] == MimeType;
  }

  lemma TagsClause(f: EvidenceFilter, cursor: Option<UUID>, args: seq<Value>)
    requires f.tags != []
    ensures IsClause(f, cursor, args, HasTags(|args| + 1), Texts(f.tags), 5)
  {
    assert (args + [Texts(f.tags)])[|args|] == Texts(f.tags);
  }

  lemma SearchClause(f: EvidenceFilter, cursor: Option<UUID>, args: seq<Value>)
    requires f.search != ""
    ensures IsClause(f, cursor, args, AnyLike(SEARCHED, |args| + 1), Text("%" + f.search + "%"), 6)
  {
    assert (args + [Text("%" + f.search + "%")])[|args|] == Text("%" + f.search + "%");
    assert SEARCHED[0] == Filename && SEARCHED[1] == OriginalName && SEARCHED[2] == Column.Description;
  }

  lemma CursorClause(f: EvidenceFilter, cursor: Option<UUID>, args: seq<Value>)
    requires cursor.Some?
    ensures IsClause(f, cursor, args, IdBelow(|args| + 1), Ident(cursor.value), 7)
  {
    assert (args + [Ident(cursor.value)])[|args|] == Ident(cursor.value);
  }

  /** The conditions on the record's state: the first three clauses, with one argument. */
  method BuildState(f: EvidenceFilter, ghost cursor: Option<UUID>)
    returns (conditions: seq<Condition>, args: seq<Value>, argIdx: nat)
    ensures argIdx == |args| + 1 && Means(conditions, args, Clauses(f, cursor), 3)
  {
    conditions, args, argIdx := [], [], 1;
    ghost var clauses := Clauses(f, cursor);
    CaseClause(f, cursor, args);
    Appended(conditions, args, clauses, 0, CaseIs(argIdx), [Ident(f.caseId)]);
    conditions := conditions + [CaseIs(argIdx)];
    args := args + [Ident(f.caseId)];
    argIdx := argIdx + 1;
    assert args + [] == args;
    if f.currentOnly {
      Appended(conditions, args, clauses, 1, IsCurrent, []);
      conditions := conditions + [IsCurrent];
    } else {
      Skipped(conditions, args, clauses, 1);
    }
    if !f.includeDestroyed {
      Appended(conditions, args, clauses, 2, NotDestroyed, []);
      conditions := conditions + [NotDestroyed];
    } else {
      Skipped(conditions, args, clauses, 2);
    }
  }

  method BuildKind(f: EvidenceFilter, ghost cursor: Option<UUID>)
    returns (conditions: seq<Condition>, args: seq<Value>, argIdx: nat)
    ensures argIdx == |args| + 1 && Means(conditions, args, Clauses(f, cursor), 5)
  {
    conditions, args, argIdx := BuildState(f, cursor);
    ghost var clauses := Clauses(f, cursor);
    if f.classification != "" {
      ClassificationClause(f, cursor, args);
      Appended(conditions, args, clauses, 3, TextIs(Classification, argIdx), [Text(f.classification)]);
      conditions := conditions + [TextIs(Classification, argIdx)];
      args := args + [Text(f.classification)];
      argIdx := argIdx + 1;
    } else {
      Skipped(conditions, args, clauses, 3);
    }
    if f.mimeType != "" {
      MimeClause(f, cursor, args);
      Appended(conditions, args, clauses, 4, AnyLike([MimeType], argIdx), [Text(f.mimeType + "%")]);
      conditions := conditions + [AnyLike([MimeType], argIdx)];
      args := args + [Text(f.mimeType + "%")];
      argIdx := argIdx + 1;
    } else {
      Skipped(conditions, args, clauses, 4);
    }
  }

  /** The conditions without the cursor's. */
  method BuildFilter(f: EvidenceFilter, ghost cursor: Option<UUID>)
    returns (conditions: seq<Condition>, args: seq<Value>, argIdx: nat)
    ensures argIdx == |args| + 1 && Means(conditions, args, Clauses(f, cursor), 7)
  {
    conditions, args, argIdx := BuildKind(f, cursor);
    ghost var clauses := Clauses(f, cursor);
    if |f.tags| > 0 {
      TagsClause(f, cursor, args);
      Appended(conditions, args, clauses, 5, HasTags(argIdx), [Texts(f.tags)]);
      conditions := conditions + [HasTags(argIdx)];
      args := args + [Texts(f.tags)];
      argIdx := argIdx + 1;
    } else {
      Skipped(conditions, args, clauses, 5);
    }
    if f.search != "" {
      SearchClause(f, cursor, args);
      Appended(conditions, args, clauses, 6, AnyLike(SEARCHED, argIdx), [Text("%" + f.search + "%")]);
      conditions := conditions + [AnyLike(SEARCHED, argIdx)];
      args := args + [Text("%" + f.search + "%")];
      argIdx := argIdx + 1;
    } else {
      Skipped(conditions, args, clauses, 6);
    }
  }

  /** The list query and the count query of a page: an unreadable cursor is refused, otherwise both mean
      what the filter says. */
  method BuildFindByCase(f: EvidenceFilter, limit: int, cursor: string, decode: string -> Option<UUID>)
    returns (r: Result<Query, string>)
    ensures r.Err? <==> cursor != "" && decode(cursor).None?
    ensures r.Ok? ==> Correct(r.value, f, limit, if cursor == "" then None else decode(cursor))
  {
    ghost var at := if cursor == "" then None else decode(cursor);
    var conditions, args, argIdx := BuildFilter(f, at);
    if cursor != "" {
      var id := decode(cursor);
      if id.None? {
        return Err("invalid cursor");
      }
      CursorClause(f, at, args);
      Appended(conditions, args, Clauses(f, at), 7, IdBelow(argIdx), [Ident(id.value)]);
      conditions := conditions + [IdBelow(argIdx)];
      args := args + [Ident(id.value)];
      argIdx := argIdx + 1;
    } else {
      Skipped(conditions, args, Clauses(f, at), 7);
    }
    var join := f.userRole == DEFENCE;
    var countConditions, countArgs := conditions, args;
    if cursor != "" {
      countConditions := countConditions[..|countConditions| - 1];
      countArgs := countArgs[..|countArgs| - 1];
    }
    MeansExtended(conditions, args, Clauses(f, at), 8, [Number(ClampLimit(limit, DEFAULT_LIMIT, MAX_LIMIT) + 1)]);
    args := args + [Number(ClampLimit(limit, DEFAULT_LIMIT, MAX_LIMIT) + 1)];
    forall w, row
      ensures AllHold(w, conditions, args, row) <==> Matches(w, f, row) && (at.Some? ==> row.id < at.value)
    {
      ClausesMean(w, f, at, row);
    }
    forall w, row ensures AllHold(w, countConditions, countArgs, row) <==> Matches(w, f, row) {
      ClausesMean(w, f, at, row);
    }
    r := Ok(Query(join, conditions, args, argIdx, countConditions, countArgs));
  }
}
