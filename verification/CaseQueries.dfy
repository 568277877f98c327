/** Listing and updating cases: how a filter becomes conditions and arguments, and an update assignments. */
module CaseQueries {
  import opened Common
  import opened Texts
  import opened Sql
  import opened Paging
  import Tables = EvidenceTables
  import Calls = VaultCalls

  datatype CaseFilter = CaseFilter(userId: string, systemAdmin: bool, status: seq<string>, jurisdiction: string, search: string)

  datatype Query = Query(conditions: seq<Condition>, args: seq<Value>, limitAt: nat,
                         countConditions: seq<Condition>, countArgs: seq<Value>)

  const SEARCHED := [Title, ReferenceCode, Column.Description]

  /** A search looks at title, reference code and description. */
  predicate Found(w: World, row: Row, search: string) {
    || Like(w.fold, "%" + search + "%", row.text(Title))
    || Like(w.fold, "%" + search + "%", row.text(ReferenceCode))
    || Like(w.fold, "%" + search + "%", row.text(Column.Description))
  }

  /** Which cases a filter is for. */
  predicate Matches(w: World, f: CaseFilter, row: Row) {
    && (f.systemAdmin || f.userId == "" || (row.id, f.userId) in w.roles)
    && (f.status == [] || row.text(Status) in f.status)
    && (f.jurisdiction == "" || row.text(Jurisdiction) == f.jurisdiction)
    && (f.search == "" || Found(w, row, f.search))
  }

  predicate Clause(w: World, f: CaseFilter, cursor: Option<UUID>, row: Row, k: nat) {
    match k
    case 0 => f.systemAdmin || f.userId == "" || (row.id, f.userId) in w.roles
    case 1 => f.status == [] || row.text(Status) in f.status
    case 2 => f.jurisdiction == "" || row.text(Jurisdiction) == f.jurisdiction
    case 3 => f.search == "" || Found(w, row, f.search)
    case _ => cursor.Some? ==> row.id < cursor.value
  }

  function Clauses(f: CaseFilter, cursor: Option<UUID>): (World, Row, nat) -> bool {
    (w: World, row: Row, k: nat) => Clause(w, f, cursor, row, k)
  }

  /** The first four clauses are the filter, the fifth the cursor. */
  lemma ClausesMean(w: World, f: CaseFilter, cursor: Option<UUID>, row: Row)
    ensures (forall j: nat | j < 4 :: Clauses(f, cursor)(w, row, j)) <==> Matches(w, f, row)
    ensures (forall j: nat | j < 5 :: Clauses(f, cursor)(w, row, j))
       <==> Matches(w, f, row) && (cursor.Some? ==> row.id < cursor.value)
  {
    var c := Clauses(f, cursor);
    assert c(w, row, 0) == Clause(w, f, cursor, row, 0) && c(w, row, 1) == Clause(w, f, cursor, row, 1);
    assert c(w, row, 2) == Clause(w, f, cursor, row, 2) && c(w, row, 3) == Clause(w, f, cursor, row, 3);
    assert c(w, row, 4) == Clause(w, f, cursor, row, 4);
  }

  const DEFAULT_LIMIT := 50
  const MAX_LIMIT := 200

  /** The list query selects exactly the matching cases below the cursor and its last placeholder is the
      limit, one row more than the page; the count query selects exactly the matching cases. */
  ghost predicate Correct(q: Query, f: CaseFilter, limit: int, cursor: Option<UUID>) {
    && AllWellFormed(q.conditions, q.args) && AllWellFormed(q.countConditions, q.countArgs)
    && q.limitAt == |q.args| && q.limitAt > 0 && q.args[q.limitAt - 1] == Number(ClampLimit(limit, 50, 200) + 1)
    && (forall w, row :: AllHold(w, q.conditions, q.args, row) <==>
          Matches(w, f, row) && (cursor.Some? ==> row.id < cursor.value))
    && (forall w, row :: AllHold(w, q.countConditions, q.countArgs, row) <==> Matches(w, f, row))
  }

  /** The values of the status placeholders. */
  function StatusValues(status: seq<string>): seq<Value> {
    seq(|status|, i requires 0 <= i < |status| => Text(status[i]))
  }

  lemma StatusHolds(w: World, row: Row, status: seq<string>, args: seq<Value>, ps: seq<nat>)
    requires |ps| == |status| && forall i | 0 <= i < |ps| :: IsText(args, ps[i]) && args[ps[i] - 1].text == status[i]
    ensures Holds(w, TextIn(Status, ps), args, row) <==> row.text(Status) in status
  {
    if row.text(Status) in status {
      var i :| 0 <= i < |status| && status[i] == row.text(Status);
      assert row.text(Status) == args[ps[i] - 1].text;
    }
  }

  lemma StatusClause(f: CaseFilter, cursor: Option<UUID>, args: seq<Value>, ps: seq<nat>)
    requires f.status != [] && |ps| == |f.status| && forall i | 0 <= i < |ps| :: ps[i] == |args| + 1 + i
    ensures WellFormed(TextIn(Status, ps), args + StatusValues(f.status))
    ensures forall w, row :: Holds(w, TextIn(Status, ps), args + StatusValues(f.status), row) <==> Clauses(f, cursor)(w, row, 1)
  {
    var all := args + StatusValues(f.status);
    forall i | 0 <= i < |ps| ensures IsText(all, ps[i]) && all[ps[i] - 1].text == f.status[i] {
    }
    forall w, row ensures Holds(w, TextIn(Status, ps), all, row) <==> Clauses(f, cursor)(w, row, 1) {
      StatusHolds(w, row, f.status, all, ps);
    }
  }

  lemma RoleClause(f: CaseFilter, cursor: Option<UUID>, args: seq<Value>)
    requires !f.systemAdmin && f.userId != ""
    ensures var more := [Text(f.userId)];
            && WellFormed(HasRole(|args| + 1), args + more)
            && forall w, row :: Holds(w, HasRole(|args| + 1), args + more, row) <==> Clauses(f, cursor)(w, row, 0)
  {
    assert (args + [Text(f.userId)])[|args|] == Text(f.userId);
  }

  lemma JurisdictionClause(f: CaseFilter, cursor: Option<UUID>, args: seq<Value>)
    requires f.jurisdiction != ""
    ensures var more := [Text(f.jurisdiction)];
            && WellFormed(TextIs(Jurisdiction, |args| + 1), args + more)
            && forall w, row :: Holds(w, TextIs(Jurisdiction, |args| + 1), args + more, row) <==> Clauses(f, cursor)(w, row, 2)
  {
    assert (args + [Text(f.jurisdiction)])[|args|] == Text(f.jurisdiction);
  }

  lemma SearchClause(f: CaseFilter, cursor: Option<UUID>, args: seq<Value>)
    requires f.search != ""
    ensures var more := [Text("%" + f.search + "%")];
            && WellFormed(AnyLike(SEARCHED, |args| + 1), args + more)
            && forall w, row :: Holds(w, AnyLike(SEARCHED, |args| + 1), args + more, row) <==> Clauses(f, cursor)(w, row, 3)
  {
    assert (args + [Text("%" + f.search + "%")])[|args|] == Text("%" + f.search + "%");
    assert SEARCHED[0] == Title && SEARCHED[1] == ReferenceCode && SEARCHED[2] == Column.Description;
  }

  lemma CursorClause(f: CaseFilter, cursor: Option<UUID>, args: seq<Value>)
    requires cursor.Some?
    ensures var more := [Ident(cursor.value)];
            && WellFormed(IdBelow(|args| + 1), args + more)
            && forall w, row :: Holds(w, IdBelow(|args| + 1), args + more, row) <==> Clauses(f, cursor)(w, row, 4)
  {
    assert (args + [Ident(cursor.value)])[|args|] == Ident(cursor.value);
  }

  /** One placeholder for each status. */
  method StatusPlaceholders(status: seq<string>, args: seq<Value>) returns (ps: seq<nat>, args': seq<Value>, argIdx: nat)
    ensures args' == args + StatusValues(status) && argIdx == |args'| + 1
    ensures |ps| == |status| && forall i | 0 <= i < |ps| :: ps[i] == |args| + 1 + i
  {
    ps, args', argIdx := [], args, |args| + 1;
    for i := 0 to |status|
      invariant args' == args + StatusValues(status)[..i] && argIdx == |args'| + 1
      invariant |ps| == i && forall j | 0 <= j < i :: ps[j] == |args| + 1 + j
    {
      ps := ps + [argIdx];
      args' := args' + [Text(status[i])];
      argIdx := argIdx + 1;
    }
  }

  /** The first two filter fields. */
  method BuildRoleAndStatus(f: CaseFilter, ghost cursor: Option<UUID>)
    returns (conditions: seq<Condition>, args: seq<Value>, argIdx: nat)
    ensures argIdx == |args| + 1 && Means(conditions, args, Clauses(f, cursor), 2)
  {
    conditions, args, argIdx := [], [], 1;
    ghost var clauses := Clauses(f, cursor);
    if !f.systemAdmin && f.userId != "" {
      RoleClause(f, cursor, args);
      Appended(conditions, args, clauses, 0, HasRole(argIdx), [Text(f.userId)]);
      conditions := conditions + [HasRole(argIdx)];
      args := args + [Text(f.userId)];
      argIdx := argIdx + 1;
    } else {
      Skipped(conditions, args, clauses, 0);
    }
    if |f.status| > 0 {
      var placeholders, args', argIdx' := StatusPlaceholders(f.status, args);
      StatusClause(f, cursor, args, placeholders);
      Appended(conditions, args, clauses, 1, TextIn(Status, placeholders), StatusValues(f.status));
      conditions := conditions + [TextIn(Status, placeholders)];
      args, argIdx := args', argIdx';
    } else {
      Skipped(conditions, args, clauses, 1);
    }
  }

  /** The conditions without the cursor's. */
  method BuildFilter(f: CaseFilter, ghost cursor: Option<UUID>)
    returns (conditions: seq<Condition>, args: seq<Value>, argIdx: nat)
    ensures argIdx == |args| + 1 && Means(conditions, args, Clauses(f, cursor), 4)
  {
    conditions, args, argIdx := BuildRoleAndStatus(f, cursor);
    ghost var clauses := Clauses(f, cursor);
    if f.jurisdiction != "" {
      JurisdictionClause(f, cursor, args);
      Appended(conditions, args, clauses, 2, TextIs(Jurisdiction, argIdx), [Text(f.jurisdiction)]);
      conditions := conditions + [TextIs(Jurisdiction, argIdx)];
      args := args + [Text(f.jurisdiction)];
      argIdx := argIdx + 1;
    } else {
      Skipped(conditions, args, clauses, 2);
    }
    if f.search != "" {
      SearchClause(f, cursor, args);
      Appended(conditions, args, clauses, 3, AnyLike(SEARCHED, argIdx), [Text("%" + f.search + "%")]);
      conditions := conditions + [AnyLike(SEARCHED, argIdx)];
      args := args + [Text("%" + f.search + "%")];
      argIdx := argIdx + 1;
    } else {
      Skipped(conditions, args, clauses, 3);
    }
  }

  /** The list query and the count query of a page: an unreadable cursor is refused, otherwise both mean
      what the filter says. */
  method BuildFindAll(f: CaseFilter, limit: int, cursor: string, decode: string -> Option<UUID>)
    returns (r: Result<Query, string>)
    ensures r.Err? <==> cursor != "" && decode(cursor).None?
    ensures r.Ok? ==> Correct(r.value, f, limit, if cursor == "" then None else decode(cursor))
  {
    ghost var at := if cursor == "" then None else decode(cursor);
    var conditions, args, argIdx := BuildFilter(f, at);
    if cursor != "" {
      var id := decode(cursor);
      if id.None? {
        return Err("invalid cursor");
      }
      CursorClause(f, at, args);
      Appended(conditions, args, Clauses(f, at), 4, IdBelow(argIdx), [Ident(id.value)]);
      conditions := conditions + [IdBelow(argIdx)];
      args := args + [Ident(id.value)];
      argIdx := argIdx + 1;
    } else {
      Skipped(conditions, args, Clauses(f, at), 4);
    }
    var countConditions, countArgs := conditions, args;
    if cursor != "" {
      countConditions := countConditions[..|countConditions| - 1];
      countArgs := countArgs[..|countArgs| - 1];
    }
    MeansExtended(conditions, args, Clauses(f, at), 5, [Number(ClampLimit(limit, DEFAULT_LIMIT, MAX_LIMIT) + 1)]);
    args := args + [Number(ClampLimit(limit, DEFAULT_LIMIT, MAX_LIMIT) + 1)];
    forall w, row
      ensures AllHold(w, conditions, args, row) <==> Matches(w, f, row) && (at.Some? ==> row.id < at.value)
    {
      ClausesMean(w, f, at, row);
    }
    forall w, row ensures AllHold(w, countConditions, countArgs, row) <==> Matches(w, f, row) {
      ClausesMean(w, f, at, row);
    }
    r := Ok(Query(conditions, args, argIdx, countConditions, countArgs));
  }

  // ---------------------------------------------------------------- updates

  datatype Assignment = Assignment(column: Column, p: nat)

  function Assigned(c: Tables.Case, a: Assignment, args: seq<Value>): Tables.Case
    requires IsText(args, a.p)
  {
    var text := args[a.p - 1].text;
    match a.column
    case Title => c.(title := text)
    case Description => c.(description := text)
    case Jurisdiction => c.(jurisdiction := text)
    case Status => c.(status := text)
    case _ => c
  }

  /** A case row after the assignments. */
  function AssignedAll(c: Tables.Case, sets: seq<Assignment>, args: seq<Value>): Tables.Case
    requires forall i | 0 <= i < |sets| :: IsText(args, sets[i].p)
  {
    if sets == [] then c else Assigned(AssignedAll(c, sets[..|sets| - 1], args), sets[|sets| - 1], args)
  }

  lemma {:induction false} AssignedExtended(c: Tables.Case, sets: seq<Assignment>, args: seq<Value>, v: Value)
    requires forall i | 0 <= i < |sets| :: IsText(args, sets[i].p)
    ensures forall i | 0 <= i < |sets| :: IsText(args + [v], sets[i].p)
    ensures AssignedAll(c, sets, args + [v]) == AssignedAll(c, sets, args)
  {
    if sets != [] {
      AssignedExtended(c, sets[..|sets| - 1], args, v);
    }
  }

  function Or(text: Option<string>, otherwise: string): string {
    match text
    case None => otherwise
    case Some(s) => s
  }

  /** The update a request asks for, column by column. */
  function Updated(c: Tables.Case, u: Calls.CaseUpdate, fields: nat): Tables.Case {
    var a := if fields < 1 then c else c.(title := Or(u.title, c.title));
    var b := if fields < 2 then a else a.(description := Or(u.description, c.description));
    var d := if fields < 3 then b else b.(jurisdiction := Or(u.jurisdiction, c.jurisdiction));
    if fields < 4 then d else d.(status := Or(u.status, c.status))
  }

  ghost predicate Assigns(sets: seq<Assignment>, args: seq<Value>, u: Calls.CaseUpdate, fields: nat) {
    && (forall i | 0 <= i < |sets| :: IsText(args, sets[i].p))
    && forall c :: AssignedAll(c, sets, args) == Updated(c, u, fields)
  }

  /** One field: a placeholder and an argument if the request has it, nothing otherwise. */
  method SetField(sets: seq<Assignment>, args: seq<Value>, argIdx: nat, column: Column, text: Option<string>,
                  ghost u: Calls.CaseUpdate, ghost fields: nat)
    returns (sets': seq<Assignment>, args': seq<Value>, argIdx': nat)
    requires argIdx == |args| + 1 && fields < 4 && Assigns(sets, args, u, fields)
    requires (fields == 0 && column == Title && text == u.title)
          || (fields == 1 && column == Description && text == u.description)
          || (fields == 2 && column == Jurisdiction && text == u.jurisdiction)
          || (fields == 3 && column == Status && text == u.status)
    ensures argIdx' == |args'| + 1 && Assigns(sets', args', u, fields + 1)
    ensures |sets'| == |sets| + if text.Some? then 1 else 0
  {
    sets', args', argIdx' := sets, args, argIdx;
    if text.Some? {
      sets' := sets + [Assignment(column, argIdx)];
      args' := args + [Text(text.value)];
      argIdx' := argIdx + 1;
      forall c
        ensures forall i | 0 <= i < |sets'| :: IsText(args', sets'[i].p)
        ensures AssignedAll(c, sets', args') == Updated(c, u, fields + 1)
      {
        AssignedExtended(c, sets, args, Text(text.value));
        assert sets'[..|sets|] == sets;
      }
      var c := Tables.Case("", "", "", "", "", false, 0);
      AssignedExtended(c, sets, args, Text(text.value));
    }
  }

  /** The whole update: every requested column, and nothing else. */
  function Requested(c: Tables.Case, u: Calls.CaseUpdate): Tables.Case {
    c.(title := Or(u.title, c.title), description := Or(u.description, c.description),
       jurisdiction := Or(u.jurisdiction, c.jurisdiction), status := Or(u.status, c.status))
  }

  /** The assignments, under the arguments, are the requested update of every case. */
  ghost predicate Performs(sets: seq<Assignment>, args: seq<Value>, u: Calls.CaseUpdate) {
    && (forall i | 0 <= i < |sets| :: IsText(args, sets[i].p))
    && forall c :: AssignedAll(c, sets, args) == Requested(c, u)
  }

  lemma AssignsRequested(sets: seq<Assignment>, args: seq<Value>, u: Calls.CaseUpdate, id: UUID)
    requires Assigns(sets, args, u, 4)
    ensures Performs(sets, args + [Ident(id)], u)
  {
    AssignedExtended(Tables.Case("", "", "", "", "", false, 0), sets, args, Ident(id));
    forall c ensures AssignedAll(c, sets, args + [Ident(id)]) == Requested(c, u) {
      AssignedExtended(c, sets, args, Ident(id));
      assert Updated(c, u, 4) == Requested(c, u);
    }
  }

  /** What the service asks of the repository. */
  function Sanitized(r: Calls.Rules, u: Calls.CaseUpdate): Calls.CaseUpdate {
    var clean := (text: Option<string>) => match text case None => None case Some(s) => Some(r.escape(r.trim(s)));
    Calls.CaseUpdate(clean(u.title), clean(u.description), clean(u.jurisdiction), u.status)
  }

  /** The update statement of a sanitized request leaves the row as the service's UpdateCase does. */
  lemma RequestedIsServiceUpdate(r: Calls.Rules, c: Tables.Case, u: Calls.CaseUpdate)
    ensures Requested(c, Sanitized(r, u)) == Calls.Updated(r, c, u)
  {
  }

  /** The assignments mean exactly the requested update of any case, none when nothing is requested, and the
      last placeholder is the id. */
  method BuildUpdate(id: UUID, u: Calls.CaseUpdate) returns (sets: seq<Assignment>, args: seq<Value>, argIdx: nat)
    ensures argIdx == |args| && argIdx > 0 && args[argIdx - 1] == Ident(id)
    ensures Performs(sets, args, u)
    ensures sets == [] <==> u == Calls.CaseUpdate(None, None, None, None)
  {
    sets, args, argIdx := [], [], 1;
    sets, args, argIdx := SetField(sets, args, argIdx, Title, u.title, u, 0);
    sets, args, argIdx := SetField(sets, args, argIdx, Description, u.description, u, 1);
    sets, args, argIdx := SetField(sets, args, argIdx, Jurisdiction, u.jurisdiction, u, 2);
    sets, args, argIdx := SetField(sets, args, argIdx, Status, u.status, u, 3);
    AssignsRequested(sets, args, u, id);
    args := args + [Ident(id)];
  }
}
