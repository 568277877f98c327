/** The case and evidence services as calls on the tables, one call at a time: what each checks, in
    which order, and what it leaves behind when some of its repository or storage calls fail. */
module VaultCalls {
  import opened Common
  import opened Texts
  import opened EvidenceNames
  import opened EvidenceTables

  datatype Tables = Tables(cases: map<UUID, Case>, rows: map<UUID, Row>, objects: map<ObjectKey, Bytes>)

  /** Library and configuration functions the services apply to text and data. */
  datatype Rules = Rules(
    trim: string -> string,
    escape: string -> string,
    size: string -> nat,
    referenceOk: string -> bool,
    cleanFilename: string -> string,
    sha: Bytes -> string,
    maxUpload: nat)

  const MAX_TITLE := 500
  const MAX_DESCRIPTION := 10_000
  const MAX_JURISDICTION := 200

  datatype Field = Title | Description | Jurisdiction | Reference | Status | LegalHold | CaseId | Filename | File | Evidence
                 | Reason

  datatype Reply = Accepted | NotFound | Invalid(field: Field) | CallFailed

  /** What a service reports after a write. */
  function ReplyOf(out: Outcome): Reply { if out.Done? then Accepted else CallFailed }

  // ---------------------------------------------------------------- cases

  /** The allowed status steps. */
  predicate IsValidStatusTransition(from: string, to: string) {
    (from == ACTIVE && to == CLOSED) || (from == CLOSED && to == ARCHIVED)
  }

  datatype CaseInput = CaseInput(reference: string, title: string, description: string, jurisdiction: string)

  datatype CaseUpdate = CaseUpdate(
    title: Option<string>, description: Option<string>, jurisdiction: Option<string>, status: Option<string>)

  function CreateProblem(r: Rules, input: CaseInput): Option<Field> {
    var title, reference := r.trim(input.title), r.trim(input.reference);
    if title == "" || r.size(title) > MAX_TITLE then Some(Title)
    else if r.size(r.trim(input.description)) > MAX_DESCRIPTION then Some(Description)
    else if r.size(r.trim(input.jurisdiction)) > MAX_JURISDICTION then Some(Jurisdiction)
    else if reference == "" || !r.referenceOk(reference) then Some(Reference)
    else None
  }

  function NewCase(r: Rules, input: CaseInput): Case {
    Case(r.trim(input.reference), r.escape(r.trim(input.title)), r.escape(r.trim(input.description)),
         r.escape(r.trim(input.jurisdiction)), ACTIVE, false, 0)
  }

  function UpdateProblem(r: Rules, c: Case, u: CaseUpdate): Option<Field> {
    if u.title.Some? && (r.trim(u.title.value) == "" || r.size(r.trim(u.title.value)) > MAX_TITLE) then Some(Title)
    else if u.description.Some? && r.size(r.trim(u.description.value)) > MAX_DESCRIPTION then Some(Description)
    else if u.jurisdiction.Some? && r.size(r.trim(u.jurisdiction.value)) > MAX_JURISDICTION then Some(Jurisdiction)
    else if u.status.Some? && !IsValidStatusTransition(c.status, u.status.value) then Some(Status)
    else None
  }

  function Cleaned(r: Rules, text: Option<string>, old': string): string {
    match text
    case None => old'
    case Some(s) => r.escape(r.trim(s))
  }

  function Updated(r: Rules, c: Case, u: CaseUpdate): Case {
    c.(title := Cleaned(r, u.title, c.title), description := Cleaned(r, u.description, c.description),
       jurisdiction := Cleaned(r, u.jurisdiction, c.jurisdiction),
       status := match u.status case None => c.status case Some(s) => s)
  }

  function SetCase(t: Tables, id: UUID, c: Case, out: Outcome): Tables {
    if out.Effective() then t.(cases := t.cases[id := c]) else t
  }

  // ---------------------------------------------------------------- evidence

  /** One upload: its input, the ids it draws, and how its repository and storage calls turn out. */
  datatype UploadInput = UploadInput(
    caseId: UUID, data: Bytes, filename: string, description: string,
    objectId: UUID, rowId: UUID,
    count: Outcome, put: Outcome, create: Outcome, cleanup: Outcome)

  function UploadProblem(r: Rules, t: Tables, u: UploadInput): Option<Reply> {
    if u.caseId == NIL then Some(Invalid(CaseId))
    else if r.trim(u.filename) == "" then Some(Invalid(Filename))
    else if r.size(u.description) > MAX_DESCRIPTION then Some(Invalid(Description))
    else if u.caseId !in t.cases then Some(CallFailed)
    else if t.cases[u.caseId].status != ACTIVE then Some(Invalid(CaseId))
    else if |u.data| > r.maxUpload then Some(Invalid(File))
    else None
  }

  function FileKey(r: Rules, u: UploadInput): ObjectKey {
    EvidenceKey(u.caseId, u.objectId, 1, r.cleanFilename(u.filename))
  }

  function Counted(t: Tables, c: UUID, out: Outcome): Tables
    requires c in t.cases
  {
    SetCase(t, c, t.cases[c].(counter := t.cases[c].counter + 1), out)
  }

  function UploadAfter(r: Rules, t: Tables, u: UploadInput): (Tables, Reply) {
    var problem := UploadProblem(r, t, u);
    if problem.Some? then (t, problem.value)
    else
      var counted := Counted(t, u.caseId, u.count);
      if !u.count.Done? then (counted, CallFailed)
      else
        var key := FileKey(r, u);
        var stored := counted.(objects := With(t.objects, key, u.data, u.put));
        if !u.put.Done? then (stored, CallFailed)
        else
          var row := FirstVersion(u.caseId, counted.cases[u.caseId].counter, key, r.sha(u.data), r.escape(r.trim(u.description)));
          var created := stored.(rows := if u.create.Effective() then t.rows[u.rowId := row] else t.rows);
          if u.create.Done? then (created, Accepted)
          else (created.(objects := Without(created.objects, key, u.cleanup)), CallFailed)
  }

  /** The family of versions a row belongs to is named by its root. */
  function Root(rows: map<UUID, Row>, id: UUID): UUID
    requires id in rows
  {
    match rows[id].parent
    case None => id
    case Some(p) => p
  }

  predicate InFamily(rows: map<UUID, Row>, root: UUID, id: UUID) {
    id in rows && (id == root || rows[id].parent == Some(root))
  }

  function MarkPrevious(rows: map<UUID, Row>, root: UUID, out: Outcome): map<UUID, Row> {
    if out.Effective() then map id | id in rows :: if InFamily(rows, root, id) then rows[id].(current := false) else rows[id]
    else rows
  }

  function SetVersion(rows: map<UUID, Row>, id: UUID, root: UUID, version: nat, out: Outcome): map<UUID, Row> {
    if out.Effective() && id in rows
    then rows[id := rows[id].(parent := Some(root), version := version, current := true)]
    else rows
  }

  function VersionAfter(r: Rules, t: Tables, parentId: UUID, u: UploadInput, mark: Outcome, set': Outcome): (Tables, Reply) {
    if parentId !in t.rows then (t, NotFound)
    else
      var parent := t.rows[parentId];
      if parent.destroyed then (t, Invalid(Evidence))
      else
        var (uploaded, reply) := UploadAfter(r, t, u.(caseId := parent.caseId));
        if reply != Accepted then (uploaded, reply)
        else
          var root := Root(t.rows, parentId);
          var marked := MarkPrevious(uploaded.rows, root, mark);
          (uploaded.(rows := SetVersion(marked, u.rowId, root, parent.version + 1, set')), Accepted)
  }

  function DestroyProblem(r: Rules, t: Tables, row: Row, reason: string): Option<Reply> {
    if row.caseId !in t.cases then Some(CallFailed)
    else if t.cases[row.caseId].status == ARCHIVED then Some(Invalid(CaseId))
    else if t.cases[row.caseId].legalHold then Some(Invalid(LegalHold))
    else if r.trim(reason) == "" then Some(Invalid(Reason))
    else None
  }

  function DestroyAfter(r: Rules, t: Tables, id: UUID, reason: string, mark: Outcome, file: Outcome, thumb: Outcome)
    : (Tables, Reply)
  {
    if id !in t.rows then (t, NotFound)
    else
      var row := t.rows[id];
      var problem := DestroyProblem(r, t, row, reason);
      if row.destroyed then (t, Accepted)
      else if problem.Some? then (t, problem.value)
      else
        var marked := if mark.Effective() then t.(rows := t.rows[id := row.(destroyed := true)]) else t;
        if !mark.Done? then (marked, CallFailed)
        else
          var deleted := Without(marked.objects, row.key, file);
          (marked.(objects := if row.thumbnail.Some? then Without(deleted, row.thumbnail.value, thumb) else deleted), Accepted)
  }

  // ---------------------------------------------------------------- any call

  datatype Call =
    | CreateCase(id: UUID, input: CaseInput, out: Outcome)
    | UpdateCase(id: UUID, update: CaseUpdate, out: Outcome)
    | ArchiveCase(id: UUID, out: Outcome)
    | SetLegalHold(id: UUID, hold: bool, out: Outcome)
    | Upload(u: UploadInput)
    | UploadNewVersion(parentId: UUID, u: UploadInput, mark: Outcome, set': Outcome)
    | Destroy(id: UUID, reason: string, mark: Outcome, file: Outcome, thumb: Outcome)
    | UpdateMetadata(id: UUID, text: string, out: Outcome)
    | LinkThumbnail(id: UUID, image: Bytes, put: Outcome, link: Outcome)

  predicate ReferenceTaken(t: Tables, reference: string) {
    exists k :: k in t.cases && t.cases[k].reference == reference
  }

  function After(r: Rules, t: Tables, call: Call): (Tables, Reply) {
    match call
    case CreateCase(id, input, out) =>
      var problem := CreateProblem(r, input);
      if problem.Some? then (t, Invalid(problem.value))
      else if ReferenceTaken(t, r.trim(input.reference)) then (t, CallFailed)
      else (SetCase(t, id, NewCase(r, input), out), ReplyOf(out))
    case UpdateCase(id, u, out) =>
      if id !in t.cases then (t, NotFound)
      else if t.cases[id].status == ARCHIVED then (t, Invalid(Status))
      else
        var problem := UpdateProblem(r, t.cases[id], u);
        if problem.Some? then (t, Invalid(problem.value))
        else (SetCase(t, id, Updated(r, t.cases[id], u), out), ReplyOf(out))
    case ArchiveCase(id, out) =>
      if id !in t.cases then (t, NotFound)
      else if t.cases[id].legalHold then (t, Invalid(LegalHold))
      else if t.cases[id].status == ARCHIVED then (t, Accepted)
      else if !IsValidStatusTransition(t.cases[id].status, ARCHIVED) then (t, Invalid(Status))
      else (SetCase(t, id, t.cases[id].(status := ARCHIVED), out), ReplyOf(out))
    case SetLegalHold(id, hold, out) =>
      if id !in t.cases then (t, NotFound)
      else if t.cases[id].status == ARCHIVED then (t, Invalid(Status))
      else if t.cases[id].legalHold == hold then (t, Accepted)
      else (SetCase(t, id, t.cases[id].(legalHold := hold), out), ReplyOf(out))
    case Upload(u) => UploadAfter(r, t, u)
    case UploadNewVersion(p, u, mark, set') => VersionAfter(r, t, p, u, mark, set')
    case Destroy(id, reason, mark, file, thumb) => DestroyAfter(r, t, id, reason, mark, file, thumb)
    case UpdateMetadata(id, text, out) =>
      if r.size(text) > MAX_DESCRIPTION then (t, Invalid(Description))
      else if id !in t.rows || t.rows[id].destroyed then (t, NotFound)
      else if out.Effective() then
        (t.(rows := t.rows[id := t.rows[id].(description := r.escape(r.trim(text)))]), ReplyOf(out))
      else (t, CallFailed)
    case LinkThumbnail(id, image, put, link) =>
      if id !in t.rows then (t, NotFound)
      else
        var key := ThumbnailKey(t.rows[id].caseId, id);
        var stored := t.(objects := With(t.objects, key, image, put));
        if !put.Done? then (stored, CallFailed)
        else if link.Effective() then
          (stored.(rows := t.rows[id := t.rows[id].(thumbnail := Some(key))]), ReplyOf(link))
        else (stored, CallFailed)
  }

  // ---------------------------------------------------------------- table by table

  /** An accepted upload's way through its calls: counted, stored, created. */
  predicate Stores(r: Rules, t: Tables, u: UploadInput) { UploadProblem(r, t, u).None? && u.count.Done? }

  predicate Creates(r: Rules, t: Tables, u: UploadInput) { Stores(r, t, u) && u.put.Done? }

  /** What an upload leaves, table by table. */
  lemma UploadLeaves(r: Rules, t: Tables, u: UploadInput)
    ensures var t' := UploadAfter(r, t, u).0;
            && t'.cases == (if UploadProblem(r, t, u).Some? then t.cases else Counted(t, u.caseId, u.count).cases)
            && t'.rows == (if Creates(r, t, u) && u.create.Effective() then t.rows[u.rowId := UploadedRow(r, t, u)] else t.rows)
            && (forall k | k != FileKey(r, u) || !Stores(r, t, u) :: SameObject(t.objects, t'.objects, k))
  {
  }

  predicate SameObject(objects: map<ObjectKey, Bytes>, objects': map<ObjectKey, Bytes>, k: ObjectKey) {
    (k in objects <==> k in objects') && (k in objects && k in objects' ==> objects'[k] == objects[k])
  }

  /** The row an upload adds. */
  function UploadedRow(r: Rules, t: Tables, u: UploadInput): Row
    requires u.caseId in t.cases
  {
    FirstVersion(u.caseId, Counted(t, u.caseId, u.count).cases[u.caseId].counter, FileKey(r, u), r.sha(u.data),
                 r.escape(r.trim(u.description)))
  }

  /** The input of the upload within a new version. */
  function VersionInput(t: Tables, p: UUID, u: UploadInput): UploadInput
    requires p in t.rows
  {
    u.(caseId := t.rows[p].caseId)
  }

  /** Apart from rows a new version leaves what its upload leaves. */
  lemma VersionLeaves(r: Rules, t: Tables, p: UUID, u: UploadInput, mark: Outcome, set': Outcome)
    ensures var t' := VersionAfter(r, t, p, u, mark, set').0;
            if p !in t.rows || t.rows[p].destroyed then t' == t
            else
              var (uploaded, reply) := UploadAfter(r, t, VersionInput(t, p, u));
              && t'.cases == uploaded.cases && t'.objects == uploaded.objects
              && t'.rows == if reply == Accepted then
                              SetVersion(MarkPrevious(uploaded.rows, Root(t.rows, p), mark), u.rowId, Root(t.rows, p),
                                         t.rows[p].version + 1, set')
                            else uploaded.rows
  {
  }

  lemma AcceptedIffCreated(r: Rules, t: Tables, u: UploadInput)
    ensures UploadAfter(r, t, u).1 == Accepted <==> Creates(r, t, u) && u.create.Done?
  {
  }

  /** A call may write or delete an object under this key. */
  predicate Touches(r: Rules, t: Tables, call: Call, k: ObjectKey) {
    match call
    case Upload(u) => Stores(r, t, u) && k == FileKey(r, u)
    case UploadNewVersion(p, u, _, _) =>
      p in t.rows && !t.rows[p].destroyed && Stores(r, t, VersionInput(t, p, u)) && k == FileKey(r, VersionInput(t, p, u))
    case Destroy(id, reason, _, _, _) =>
      && id in t.rows && !t.rows[id].destroyed && DestroyProblem(r, t, t.rows[id], reason).None?
      && (k == t.rows[id].key || t.rows[id].thumbnail == Some(k))
    case LinkThumbnail(id, _, _, _) => id in t.rows && k == ThumbnailKey(t.rows[id].caseId, id)
    case _ => false
  }

  lemma DestroyObjects(r: Rules, t: Tables, call: Call, k: ObjectKey)
    requires call.Destroy? && !Touches(r, t, call, k)
    ensures SameObject(t.objects, After(r, t, call).0.objects, k)
  {
  }

  lemma OtherCallObjects(r: Rules, t: Tables, call: Call, k: ObjectKey)
    requires !call.Destroy? && !call.Upload? && !call.UploadNewVersion? && !Touches(r, t, call, k)
    ensures SameObject(t.objects, After(r, t, call).0.objects, k)
  {
  }

  /** And no other. */
  lemma ObjectsStay(r: Rules, t: Tables, call: Call, k: ObjectKey)
    requires !Touches(r, t, call, k)
    ensures SameObject(t.objects, After(r, t, call).0.objects, k)
  {
    match call
    case Upload(u) => UploadLeaves(r, t, u);
    case UploadNewVersion(p, u, mark, set') =>
      VersionLeaves(r, t, p, u, mark, set');
      if p in t.rows { UploadLeaves(r, t, VersionInput(t, p, u)); }
    case Destroy(_, _, _, _, _) => DestroyObjects(r, t, call, k);
    case _ => OtherCallObjects(r, t, call, k);
  }

  predicate OnCase(call: Call) { call.CreateCase? || call.UpdateCase? || call.ArchiveCase? || call.SetLegalHold? }

  /** The case an upload or new version draws a number from. */
  function CountedCase(r: Rules, t: Tables, call: Call): Option<UUID> {
    match call
    case Upload(u) => if UploadProblem(r, t, u).None? then Some(u.caseId) else None
    case UploadNewVersion(p, u, _, _) =>
      if p in t.rows && !t.rows[p].destroyed && UploadProblem(r, t, VersionInput(t, p, u)).None? then Some(t.rows[p].caseId) else None
    case _ => None
  }

  lemma OtherCallCases(r: Rules, t: Tables, call: Call)
    requires !OnCase(call) && !call.Upload? && !call.UploadNewVersion?
    ensures After(r, t, call).0.cases == t.cases
  {
  }

  /** Evidence calls do nothing to cases but draw a number from an active one. */
  lemma EvidenceCallCases(r: Rules, t: Tables, call: Call)
    requires !OnCase(call)
    ensures match CountedCase(r, t, call)
            case None => After(r, t, call).0.cases == t.cases
            case Some(c) =>
              && c in t.cases && t.cases[c].status == ACTIVE
              && (After(r, t, call).0.cases == t.cases
                  || After(r, t, call).0.cases == t.cases[c := t.cases[c].(counter := t.cases[c].counter + 1)])
  {
    match call
    case Upload(u) => UploadLeaves(r, t, u);
    case UploadNewVersion(p, u, mark, set') =>
      VersionLeaves(r, t, p, u, mark, set');
      if p in t.rows { UploadLeaves(r, t, VersionInput(t, p, u)); }
    case _ => OtherCallCases(r, t, call);
  }

  // ---------------------------------------------------------------- sequences of calls

  /** The ids a call draws are new. */
  predicate FreshIds(t: Tables, call: Call) {
    match call
    case CreateCase(id, _, _) => id !in t.cases
    case Upload(u) => u.rowId !in t.rows
    case UploadNewVersion(_, u, _, _) => u.rowId !in t.rows
    case _ => true
  }

  predicate CanRun(r: Rules, t: Tables, calls: seq<Call>)
    decreases |calls|
  {
    calls == [] || (FreshIds(t, calls[0]) && CanRun(r, After(r, t, calls[0]).0, calls[1..]))
  }

  function Run(r: Rules, t: Tables, calls: seq<Call>): Tables
    decreases |calls|
  {
    if calls == [] then t else Run(r, After(r, t, calls[0]).0, calls[1..])
  }

  const EMPTY := Tables(map[], map[], map[])
}
