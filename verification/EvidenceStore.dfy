/** The evidence rows and the object store under concurrent uploads, destructions and thumbnail jobs.
    Every repository and storage call is one step; any call may fail, may take effect although its
    caller sees an error, and any process may stop for ever at any point. */
module EvidenceStore {
  import opened Common
  import opened Texts
  import opened EvidenceNames
  import opened EvidenceTables

  /** An upload by the call it makes next. */
  datatype Upload =
    | Numbered(caseId: UUID, counter: nat, data: Bytes, filename: string, description: string)
    | Stored(caseId: UUID, counter: nat, data: Bytes, key: ObjectKey, description: string)
    | CleaningUp(key: ObjectKey)
    | UploadOver
  {
    predicate HoldsKey() { Stored? || CleaningUp? }
  }

  /** A destruction by the call it makes next, with what it read from the row. */
  datatype Destruction =
    | Found(id: UUID, key: ObjectKey, thumbnail: Option<ObjectKey>)
    | Marked(id: UUID, key: ObjectKey, thumbnail: Option<ObjectKey>)
    | FileDeleted(id: UUID, thumbnail: Option<ObjectKey>)
    | DestructionOver

  /** The background thumbnail job of a row by the call it makes next. */
  datatype Job =
    | Generating(caseId: UUID)
    | ThumbnailStored(key: ObjectKey)
    | JobOver

  /** `used` holds every UUID drawn so far; `stranded` the keys whose object a cleanup deleted although
      the row had been created. */
  datatype State = State(
    cases: map<UUID, Case>,
    rows: map<UUID, Row>,
    objects: map<ObjectKey, Bytes>,
    uploads: map<nat, Upload>,
    destructions: map<nat, Destruction>,
    jobs: map<UUID, Job>,
    used: set<UUID>,
    issued: seq<(UUID, nat)>,
    stranded: set<ObjectKey>)

  const START := State(map[], map[], map[], map[], map[], map[], {}, [], {})

  datatype Step =
    | NewCase(caseId: UUID, row: Case)
    | Issue(u: nat, caseId: UUID, data: Bytes, filename: string, description: string, out: Outcome)
    | PutFile(u: nat, objectId: UUID, out: Outcome)
    | CreateRow(u: nat, rowId: UUID, out: Outcome)
    | Cleanup(u: nat, out: Outcome)
    | Find(d: nat, id: UUID)
    | Mark(d: nat, out: Outcome)
    | DeleteFile(d: nat, out: Outcome)
    | DeleteThumbnail(d: nat, out: Outcome)
    | PutThumbnail(id: UUID, image: Bytes, out: Outcome)
    | LinkThumbnail(id: UUID, out: Outcome)

  ghost predicate Enabled(s: State, step: Step) {
    match step
    case NewCase(c, row) =>
      c !in s.cases && row.counter == 0 && forall k | k in s.cases :: s.cases[k].reference != row.reference
    case Issue(u, c, _, _, _, _) => u !in s.uploads && c in s.cases
    case PutFile(u, o, _) => u in s.uploads && s.uploads[u].Numbered? && o !in s.used
    case CreateRow(u, r, _) => u in s.uploads && s.uploads[u].Stored? && r !in s.used
    case Cleanup(u, _) => u in s.uploads && s.uploads[u].CleaningUp?
    case Find(d, id) => d !in s.destructions && id in s.rows && !s.rows[id].destroyed
    case Mark(d, _) => d in s.destructions && s.destructions[d].Found?
    case DeleteFile(d, _) => d in s.destructions && s.destructions[d].Marked?
    case DeleteThumbnail(d, _) => d in s.destructions && s.destructions[d].FileDeleted? && s.destructions[d].thumbnail.Some?
    case PutThumbnail(id, _, _) => id in s.jobs && s.jobs[id].Generating?
    case LinkThumbnail(id, _) => id in s.jobs && s.jobs[id].ThumbnailStored?
  }

  /** The new row of an upload. */
  function NewRow(sha: Bytes -> string, u: Upload): Row
    requires u.Stored?
  {
    FirstVersion(u.caseId, u.counter, u.key, sha(u.data), u.description)
  }

  /** The storage key of an upload's first version, under a freshly drawn object id. */
  function UploadKey(u: Upload, objectId: UUID): ObjectKey
    requires u.Numbered?
  {
    EvidenceKey(u.caseId, objectId, 1, u.filename)
  }

  predicate Live(s: State, id: UUID) { id in s.rows && !s.rows[id].destroyed }

  // The effect of a step, table by table.

  ghost function CasesAfter(s: State, step: Step): map<UUID, Case>
    requires Enabled(s, step)
  {
    match step
    case NewCase(c, row) => s.cases[c := row]
    case Issue(_, c, _, _, _, out) =>
      if out.Effective() then s.cases[c := s.cases[c].(counter := s.cases[c].counter + 1)] else s.cases
    case _ => s.cases
  }

  ghost function UploadsAfter(s: State, step: Step): map<nat, Upload>
    requires Enabled(s, step)
  {
    match step
    case Issue(u, c, data, name, desc, out) =>
      s.uploads[u := if out.Done? then Numbered(c, s.cases[c].counter + 1, data, name, desc) else UploadOver]
    case PutFile(u, o, out) =>
      var up := s.uploads[u];
      s.uploads[u := if out.Done? then Stored(up.caseId, up.counter, up.data, UploadKey(up, o), up.description) else UploadOver]
    case CreateRow(u, _, out) => s.uploads[u := if out.Done? then UploadOver else CleaningUp(s.uploads[u].key)]
    case Cleanup(u, _) => s.uploads[u := UploadOver]
    case _ => s.uploads
  }

  ghost function RowsAfter(sha: Bytes -> string, s: State, step: Step): map<UUID, Row>
    requires Enabled(s, step)
  {
    match step
    case CreateRow(u, r, out) => if out.Effective() then s.rows[r := NewRow(sha, s.uploads[u])] else s.rows
    case Mark(d, out) =>
      var id := s.destructions[d].id;
      if out.Effective() && Live(s, id) then s.rows[id := s.rows[id].(destroyed := true)] else s.rows
    case LinkThumbnail(id, out) =>
      if out.Effective() && id in s.rows then s.rows[id := s.rows[id].(thumbnail := Some(s.jobs[id].key))] else s.rows
    case _ => s.rows
  }

  ghost function ObjectsAfter(s: State, step: Step): map<ObjectKey, Bytes>
    requires Enabled(s, step)
  {
    match step
    case PutFile(u, o, out) => With(s.objects, UploadKey(s.uploads[u], o), s.uploads[u].data, out)
    case Cleanup(u, out) => Without(s.objects, s.uploads[u].key, out)
    case DeleteFile(d, out) => Without(s.objects, s.destructions[d].key, out)
    case DeleteThumbnail(d, out) => Without(s.objects, s.destructions[d].thumbnail.value, out)
    case PutThumbnail(id, image, out) => With(s.objects, ThumbnailKey(s.jobs[id].caseId, id), image, out)
    case _ => s.objects
  }

  ghost function DestructionsAfter(s: State, step: Step): map<nat, Destruction>
    requires Enabled(s, step)
  {
    match step
    case Find(d, id) => s.destructions[d := Found(id, s.rows[id].key, s.rows[id].thumbnail)]
    case Mark(d, out) =>
      var it := s.destructions[d];
      s.destructions[d := if out.Done? && Live(s, it.id) then Marked(it.id, it.key, it.thumbnail) else DestructionOver]
    case DeleteFile(d, _) => s.destructions[d := FileDeleted(s.destructions[d].id, s.destructions[d].thumbnail)]
    case DeleteThumbnail(d, _) => s.destructions[d := DestructionOver]
    case _ => s.destructions
  }

  ghost function JobsAfter(s: State, step: Step): map<UUID, Job>
    requires Enabled(s, step)
  {
    match step
    case CreateRow(u, r, out) => if out.Done? then s.jobs[r := Generating(s.uploads[u].caseId)] else s.jobs
    case PutThumbnail(id, _, out) =>
      s.jobs[id := if out.Done? then ThumbnailStored(ThumbnailKey(s.jobs[id].caseId, id)) else JobOver]
    case LinkThumbnail(id, _) => s.jobs[id := JobOver]
    case _ => s.jobs
  }

  ghost function UsedAfter(s: State, step: Step): set<UUID> {
    match step
    case PutFile(_, o, _) => s.used + {o}
    case CreateRow(_, r, _) => s.used + {r}
    case _ => s.used
  }

  ghost function IssuedAfter(s: State, step: Step): seq<(UUID, nat)>
    requires Enabled(s, step)
  {
    if step.Issue? && step.out.Effective() then s.issued + [(step.caseId, s.cases[step.caseId].counter + 1)] else s.issued
  }

  ghost function StrandedAfter(s: State, step: Step): set<ObjectKey>
    requires Enabled(s, step)
  {
    if step.Cleanup? && step.out.Effective() && (exists r :: r in s.rows && s.rows[r].key == s.uploads[step.u].key)
    then s.stranded + {s.uploads[step.u].key}
    else s.stranded
  }

  ghost function Apply(sha: Bytes -> string, s: State, step: Step): State
    requires Enabled(s, step)
  {
    State(CasesAfter(s, step), RowsAfter(sha, s, step), ObjectsAfter(s, step), UploadsAfter(s, step),
          DestructionsAfter(s, step), JobsAfter(s, step), UsedAfter(s, step), IssuedAfter(s, step), StrandedAfter(s, step))
  }

  ghost predicate CanRun(sha: Bytes -> string, s: State, steps: seq<Step>)
    decreases |steps|
  {
    steps == [] || (Enabled(s, steps[0]) && CanRun(sha, Apply(sha, s, steps[0]), steps[1..]))
  }

  ghost function Run(sha: Bytes -> string, s: State, steps: seq<Step>): State
    requires CanRun(sha, s, steps)
    decreases |steps|
  {
    if steps == [] then s else Run(sha, Apply(sha, s, steps[0]), steps[1..])
  }

  // ---------------------------------------------------------------- invariants

  /** Keys in use come from drawn UUIDs, and a key has one owner. */
  ghost predicate FileKey(s: State, k: ObjectKey) { k.EvidenceKey? && k.objectId in s.used }

  ghost predicate KeysDrawn(s: State) {
    && (forall r | r in s.rows :: r in s.used && FileKey(s, s.rows[r].key))
    && (forall u | u in s.uploads && s.uploads[u].HoldsKey() :: FileKey(s, s.uploads[u].key))
  }

  ghost predicate RowKeysDistinct(s: State) {
    && (forall q, r | q in s.rows && r in s.rows && q != r :: s.rows[q].key != s.rows[r].key)
    && (forall u, r | u in s.uploads && s.uploads[u].Stored? && r in s.rows :: s.rows[r].key != s.uploads[u].key)
  }

  ghost predicate PendingKeysDistinct(s: State) {
    forall u, v | u in s.uploads && v in s.uploads && u != v && s.uploads[u].HoldsKey() && s.uploads[v].HoldsKey() ::
      s.uploads[u].key != s.uploads[v].key
  }

  ghost predicate KeysOwned(s: State) {
    KeysDrawn(s) && RowKeysDistinct(s) && PendingKeysDistinct(s)
  }

  /** An upload that stored its file still finds it there. */
  ghost predicate UploadsStored(s: State) {
    forall u | u in s.uploads && s.uploads[u].Stored? ::
      s.uploads[u].key in s.objects && s.objects[s.uploads[u].key] == s.uploads[u].data
  }

  ghost predicate ThumbnailOf(s: State, id: UUID, k: ObjectKey) {
    id in s.rows && k == ThumbnailKey(s.rows[id].caseId, id)
  }

  /** A destruction works on a row and knows its file; */
  ghost predicate DestructionsKnown(s: State) {
    forall d :: DestructionKnown(s, d)
  }

  /** it deletes nothing before the row is marked; */
  ghost predicate DestructionsMarked(s: State) {
    forall d | d in s.destructions && (s.destructions[d].Marked? || s.destructions[d].FileDeleted?) &&
               s.destructions[d].id in s.rows ::
      s.rows[s.destructions[d].id].destroyed
  }

  /** and no thumbnail but that row's own. */
  ghost predicate DestroyedThumbnailsOwn(s: State) {
    forall d | d in s.destructions && !s.destructions[d].DestructionOver? && s.destructions[d].thumbnail.Some? ::
      ThumbnailOf(s, s.destructions[d].id, s.destructions[d].thumbnail.value)
  }

  ghost predicate RowThumbnailsOwn(s: State) {
    forall id | id in s.rows && s.rows[id].thumbnail.Some? :: ThumbnailOf(s, id, s.rows[id].thumbnail.value)
  }

  ghost predicate JobsOwn(s: State) {
    && (forall id | id in s.jobs && s.jobs[id].ThumbnailStored? :: ThumbnailOf(s, id, s.jobs[id].key))
    && (forall id | id in s.jobs && s.jobs[id].Generating? :: id in s.rows && s.rows[id].caseId == s.jobs[id].caseId)
  }

  /** The object of a row is present with the recorded hash. */
  ghost predicate Backed(sha: Bytes -> string, s: State, id: UUID)
    requires id in s.rows
  {
    s.rows[id].key in s.objects && sha(s.objects[s.rows[id].key]) == s.rows[id].hash
  }

  /** Live rows are backed, save exactly those whose file a cleanup took away. */
  ghost predicate LiveRowsBacked(sha: Bytes -> string, s: State) {
    forall id | id in s.rows && !s.rows[id].destroyed :: Backed(sha, s, id) <==> s.rows[id].key !in s.stranded
  }

  ghost predicate StrandedGone(s: State) {
    forall k | k in s.stranded :: k !in s.objects && FileKey(s, k)
  }

  /** The thumbnail a live row names is present, */
  ghost predicate ThumbnailsPresent(s: State) {
    forall id | id in s.rows && s.rows[id].thumbnail.Some? && !s.rows[id].destroyed ::
      s.rows[id].thumbnail.value in s.objects
  }

  /** and so is one about to be linked to a live row. */
  ghost predicate NewThumbnailsPresent(s: State) {
    forall id | id in s.jobs && s.jobs[id].ThumbnailStored? && id in s.rows && !s.rows[id].destroyed ::
      s.jobs[id].key in s.objects
  }

  ghost predicate OwnersInv(s: State) {
    && KeysOwned(s) && DestructionsKnown(s) && DestructionsMarked(s)
    && DestroyedThumbnailsOwn(s) && RowThumbnailsOwn(s) && JobsOwn(s)
  }

  ghost predicate StoreInv(sha: Bytes -> string, s: State) {
    && OwnersInv(s) && UploadsStored(s)
    && LiveRowsBacked(sha, s) && StrandedGone(s) && ThumbnailsPresent(s) && NewThumbnailsPresent(s)
  }

  lemma KeysDrawnKept(sha: Bytes -> string, s: State, step: Step, s': State)
    requires KeysDrawn(s) && Enabled(s, step)
    requires s'.rows == RowsAfter(sha, s, step) && s'.uploads == UploadsAfter(s, step) && s'.used == UsedAfter(s, step)
    ensures KeysDrawn(s')
  {
  }

  lemma RowKeysStayApart(sha: Bytes -> string, s: State, step: Step, s': State, q: UUID, r: UUID)
    requires KeysOwned(s) && Enabled(s, step) && s'.rows == RowsAfter(sha, s, step)
    requires q in s'.rows && r in s'.rows && q != r
    ensures s'.rows[q].key != s'.rows[r].key
  {
  }

  lemma RowAndUploadStayApart(sha: Bytes -> string, s: State, step: Step, s': State, u: nat, r: UUID)
    requires KeysOwned(s) && Enabled(s, step)
    requires s'.rows == RowsAfter(sha, s, step) && s'.uploads == UploadsAfter(s, step)
    requires u in s'.uploads && s'.uploads[u].Stored? && r in s'.rows
    ensures s'.rows[r].key != s'.uploads[u].key
  {
  }

  lemma RowKeysDistinctKept(sha: Bytes -> string, s: State, step: Step, s': State)
    requires KeysOwned(s) && Enabled(s, step)
    requires s'.rows == RowsAfter(sha, s, step) && s'.uploads == UploadsAfter(s, step)
    ensures RowKeysDistinct(s')
  {
    forall q, r | q in s'.rows && r in s'.rows && q != r ensures s'.rows[q].key != s'.rows[r].key {
      RowKeysStayApart(sha, s, step, s', q, r);
    }
    forall u, r | u in s'.uploads && s'.uploads[u].Stored? && r in s'.rows ensures s'.rows[r].key != s'.uploads[u].key {
      RowAndUploadStayApart(sha, s, step, s', u, r);
    }
  }

  lemma PendingKeysDistinctKept(sha: Bytes -> string, s: State, step: Step, s': State)
    requires KeysOwned(s) && Enabled(s, step)
    requires s'.uploads == UploadsAfter(s, step)
    ensures PendingKeysDistinct(s')
  {
  }

  predicate DestructionKnown(s: State, d: nat) {
    d in s.destructions && !s.destructions[d].DestructionOver? ==>
      && s.destructions[d].id in s.rows
      && (s.destructions[d].FileDeleted? || s.rows[s.destructions[d].id].key == s.destructions[d].key)
  }

  lemma DestructionStaysKnown(sha: Bytes -> string, s: State, step: Step, s': State, d: nat)
    requires KeysDrawn(s) && DestructionsKnown(s) && Enabled(s, step)
    requires s'.rows == RowsAfter(sha, s, step) && s'.destructions == DestructionsAfter(s, step)
    ensures DestructionKnown(s', d)
  {
    assert DestructionKnown(s, d);
  }

  lemma DestructionsKnownKept(sha: Bytes -> string, s: State, step: Step, s': State)
    requires KeysDrawn(s) && DestructionsKnown(s) && Enabled(s, step)
    requires s'.rows == RowsAfter(sha, s, step) && s'.destructions == DestructionsAfter(s, step)
    ensures DestructionsKnown(s')
  {
    forall d ensures DestructionKnown(s', d) { DestructionStaysKnown(sha, s, step, s', d); }
  }

  lemma DestructionStaysMarked(sha: Bytes -> string, s: State, step: Step, s': State, d: nat)
    requires KeysDrawn(s) && DestructionKnown(s, d) && DestructionsMarked(s) && Enabled(s, step)
    requires s'.rows == RowsAfter(sha, s, step) && s'.destructions == DestructionsAfter(s, step)
    requires d in s'.destructions && (s'.destructions[d].Marked? || s'.destructions[d].FileDeleted?) && s'.destructions[d].id in s'.rows
    ensures s'.rows[s'.destructions[d].id].destroyed
  {
  }

  lemma DestructionsMarkedKept(sha: Bytes -> string, s: State, step: Step, s': State)
    requires KeysDrawn(s) && DestructionsKnown(s) && DestructionsMarked(s) && Enabled(s, step)
    requires s'.rows == RowsAfter(sha, s, step) && s'.destructions == DestructionsAfter(s, step)
    ensures DestructionsMarked(s')
  {
    forall d | d in s'.destructions && (s'.destructions[d].Marked? || s'.destructions[d].FileDeleted?) &&
               s'.destructions[d].id in s'.rows
      ensures s'.rows[s'.destructions[d].id].destroyed
    {
      assert DestructionKnown(s, d);
      DestructionStaysMarked(sha, s, step, s', d);
    }
  }

  lemma ThumbnailStaysOwn(sha: Bytes -> string, s: State, step: Step, s': State, id: UUID, k: ObjectKey)
    requires Enabled(s, step) && KeysDrawn(s) && s'.rows == RowsAfter(sha, s, step)
    ensures ThumbnailOf(s, id, k) ==> ThumbnailOf(s', id, k)
  {
  }

  lemma DestroyedThumbnailsOwnKept(sha: Bytes -> string, s: State, step: Step, s': State)
    requires KeysDrawn(s) && DestroyedThumbnailsOwn(s) && RowThumbnailsOwn(s) && Enabled(s, step)
    requires s'.rows == RowsAfter(sha, s, step) && s'.destructions == DestructionsAfter(s, step)
    ensures DestroyedThumbnailsOwn(s')
  {
    forall d | d in s'.destructions && !s'.destructions[d].DestructionOver? && s'.destructions[d].thumbnail.Some?
      ensures ThumbnailOf(s', s'.destructions[d].id, s'.destructions[d].thumbnail.value)
    {
      ThumbnailStaysOwn(sha, s, step, s', s'.destructions[d].id, s'.destructions[d].thumbnail.value);
    }
  }

  lemma RowThumbnailsOwnKept(sha: Bytes -> string, s: State, step: Step, s': State)
    requires KeysDrawn(s) && RowThumbnailsOwn(s) && JobsOwn(s) && Enabled(s, step)
    requires s'.rows == RowsAfter(sha, s, step)
    ensures RowThumbnailsOwn(s')
  {
  }

  lemma JobsOwnKept(sha: Bytes -> string, s: State, step: Step, s': State)
    requires KeysDrawn(s) && JobsOwn(s) && Enabled(s, step)
    requires s'.rows == RowsAfter(sha, s, step) && s'.jobs == JobsAfter(s, step)
    ensures JobsOwn(s')
  {
    forall id | id in s'.jobs && s'.jobs[id].ThumbnailStored? ensures ThumbnailOf(s', id, s'.jobs[id].key) {
      ThumbnailStaysOwn(sha, s, step, s', id, s'.jobs[id].key);
    }
  }

  lemma UploadStaysStored(s: State, step: Step, s': State, u: nat)
    requires KeysOwned(s) && DestructionsKnown(s) && DestroyedThumbnailsOwn(s) && UploadsStored(s) && Enabled(s, step)
    requires s'.uploads == UploadsAfter(s, step) && s'.objects == ObjectsAfter(s, step)
    requires u in s'.uploads && s'.uploads[u].Stored?
    ensures s'.uploads[u].key in s'.objects && s'.objects[s'.uploads[u].key] == s'.uploads[u].data
  {
    assert step.DeleteFile? ==> DestructionKnown(s, step.d);
  }

  lemma UploadsStoredKept(sha: Bytes -> string, s: State, step: Step, s': State)
    requires OwnersInv(s) && UploadsStored(s) && Enabled(s, step)
    requires s'.uploads == UploadsAfter(s, step) && s'.objects == ObjectsAfter(s, step)
    ensures UploadsStored(s')
  {
    forall u | u in s'.uploads && s'.uploads[u].Stored?
      ensures s'.uploads[u].key in s'.objects && s'.objects[s'.uploads[u].key] == s'.uploads[u].data
    {
      UploadStaysStored(s, step, s', u);
    }
  }

  /** Only a cleanup touches the file of a live row, */
  lemma LiveFileUntouched(s: State, step: Step, id: UUID)
    requires KeysOwned(s) && DestructionsKnown(s) && DestructionsMarked(s) && DestroyedThumbnailsOwn(s) && Enabled(s, step) && Live(s, id) && !step.Cleanup?
    ensures var k, after := s.rows[id].key, ObjectsAfter(s, step);
            (k in after <==> k in s.objects) && (k in s.objects && k in after ==> after[k] == s.objects[k])
  {
    assert FileKey(s, s.rows[id].key);
    assert step.DeleteFile? ==> DestructionKnown(s, step.d);
  }

  /** and only a destruction of that row its thumbnail. */
  lemma LiveThumbnailUntouched(s: State, step: Step, id: UUID, k: ObjectKey)
    requires KeysDrawn(s) && DestructionsKnown(s) && DestructionsMarked(s) && DestroyedThumbnailsOwn(s) && Enabled(s, step) && Live(s, id) && ThumbnailOf(s, id, k) && k in s.objects
    ensures k in ObjectsAfter(s, step)
  {
    assert step.DeleteFile? || step.DeleteThumbnail? ==> DestructionKnown(s, step.d);
  }

  /** What a step leaves of a live row. */
  lemma LiveBefore(sha: Bytes -> string, s: State, step: Step, id: UUID)
    requires KeysDrawn(s) && Enabled(s, step)
    requires id in RowsAfter(sha, s, step) && !RowsAfter(sha, s, step)[id].destroyed
    ensures if id in s.rows then
              var row, row' := s.rows[id], RowsAfter(sha, s, step)[id];
              && !row.destroyed && row'.key == row.key && row'.hash == row.hash && row'.caseId == row.caseId
              && (row'.thumbnail == row.thumbnail || (step.LinkThumbnail? && step.id == id && row'.thumbnail == Some(s.jobs[id].key)))
            else step.CreateRow? && step.rowId == id && RowsAfter(sha, s, step)[id] == NewRow(sha, s.uploads[step.u])
  {
  }

  lemma CleanupBacks(sha: Bytes -> string, s: State, step: Step, s': State, id: UUID)
    requires KeysOwned(s) && StrandedGone(s) && LiveRowsBacked(sha, s) && Enabled(s, step) && step.Cleanup?
    requires s'.rows == s.rows && s'.objects == ObjectsAfter(s, step) && s'.stranded == StrandedAfter(s, step)
    requires Live(s', id)
    ensures Backed(sha, s', id) <==> s'.rows[id].key !in s'.stranded
  {
  }

  lemma CreationBacks(sha: Bytes -> string, s: State, step: Step, s': State, id: UUID)
    requires KeysOwned(s) && UploadsStored(s) && StrandedGone(s) && Enabled(s, step) && step.CreateRow? && id == step.rowId
    requires s'.objects == s.objects && s'.stranded == s.stranded && id in s'.rows && s'.rows[id] == NewRow(sha, s.uploads[step.u])
    ensures Backed(sha, s', id) && s'.rows[id].key !in s'.stranded
  {
  }

  lemma LiveRowStaysBacked(sha: Bytes -> string, s: State, step: Step, s': State, id: UUID)
    requires OwnersInv(s) && UploadsStored(s) && StrandedGone(s) && LiveRowsBacked(sha, s) && Enabled(s, step)
    requires s'.rows == RowsAfter(sha, s, step) && s'.objects == ObjectsAfter(s, step) && s'.stranded == StrandedAfter(s, step)
    requires Live(s', id)
    ensures Backed(sha, s', id) <==> s'.rows[id].key !in s'.stranded
  {
    LiveBefore(sha, s, step, id);
    if step.Cleanup? {
      CleanupBacks(sha, s, step, s', id);
    } else if id in s.rows {
      LiveFileUntouched(s, step, id);
      assert Backed(sha, s, id) <==> s.rows[id].key !in s.stranded;
    } else {
      CreationBacks(sha, s, step, s', id);
    }
  }

  lemma LiveRowsBackedKept(sha: Bytes -> string, s: State, step: Step, s': State)
    requires OwnersInv(s) && UploadsStored(s) && StrandedGone(s) && LiveRowsBacked(sha, s) && Enabled(s, step)
    requires s'.rows == RowsAfter(sha, s, step) && s'.objects == ObjectsAfter(s, step) && s'.stranded == StrandedAfter(s, step)
    ensures LiveRowsBacked(sha, s')
  {
    forall id | id in s'.rows && !s'.rows[id].destroyed ensures Backed(sha, s', id) <==> s'.rows[id].key !in s'.stranded {
      LiveRowStaysBacked(sha, s, step, s', id);
    }
  }

  lemma StrandedGoneKept(sha: Bytes -> string, s: State, step: Step, s': State)
    requires KeysDrawn(s) && StrandedGone(s) && Enabled(s, step)
    requires s'.objects == ObjectsAfter(s, step) && s'.stranded == StrandedAfter(s, step) && s'.used == UsedAfter(s, step)
    ensures StrandedGone(s')
  {
  }

  lemma ThumbnailStaysPresent(sha: Bytes -> string, s: State, step: Step, s': State, id: UUID)
    requires OwnersInv(s) && ThumbnailsPresent(s) && NewThumbnailsPresent(s) && Enabled(s, step)
    requires s'.rows == RowsAfter(sha, s, step) && s'.objects == ObjectsAfter(s, step)
    requires Live(s', id) && s'.rows[id].thumbnail.Some?
    ensures s'.rows[id].thumbnail.value in s'.objects
  {
    LiveBefore(sha, s, step, id);
    if id in s.rows {
      LiveThumbnailUntouched(s, step, id, s'.rows[id].thumbnail.value);
    }
  }

  lemma ThumbnailsPresentKept(sha: Bytes -> string, s: State, step: Step, s': State)
    requires OwnersInv(s) && ThumbnailsPresent(s) && NewThumbnailsPresent(s) && Enabled(s, step)
    requires s'.rows == RowsAfter(sha, s, step) && s'.objects == ObjectsAfter(s, step)
    ensures ThumbnailsPresent(s')
  {
    forall id | id in s'.rows && s'.rows[id].thumbnail.Some? && !s'.rows[id].destroyed
      ensures s'.rows[id].thumbnail.value in s'.objects
    {
      ThumbnailStaysPresent(sha, s, step, s', id);
    }
  }

  lemma NewThumbnailStaysPresent(sha: Bytes -> string, s: State, step: Step, s': State, id: UUID)
    requires OwnersInv(s) && NewThumbnailsPresent(s) && Enabled(s, step)
    requires s'.rows == RowsAfter(sha, s, step) && s'.jobs == JobsAfter(s, step) && s'.objects == ObjectsAfter(s, step)
    requires id in s'.jobs && s'.jobs[id].ThumbnailStored? && Live(s', id)
    ensures s'.jobs[id].key in s'.objects
  {
    LiveBefore(sha, s, step, id);
    if id in s.jobs && s.jobs[id].ThumbnailStored? {
      LiveThumbnailUntouched(s, step, id, s.jobs[id].key);
    }
  }

  lemma NewThumbnailsPresentKept(sha: Bytes -> string, s: State, step: Step, s': State)
    requires OwnersInv(s) && NewThumbnailsPresent(s) && Enabled(s, step)
    requires s'.rows == RowsAfter(sha, s, step) && s'.jobs == JobsAfter(s, step) && s'.objects == ObjectsAfter(s, step)
    ensures NewThumbnailsPresent(s')
  {
    forall id | id in s'.jobs && s'.jobs[id].ThumbnailStored? && id in s'.rows && !s'.rows[id].destroyed
      ensures s'.jobs[id].key in s'.objects
    {
      NewThumbnailStaysPresent(sha, s, step, s', id);
    }
  }

  lemma StepKeepsStoreInv(sha: Bytes -> string, s: State, step: Step)
    requires StoreInv(sha, s) && Enabled(s, step)
    ensures StoreInv(sha, Apply(sha, s, step))
  {
    var s' := Apply(sha, s, step);
    KeysDrawnKept(sha, s, step, s');
    RowKeysDistinctKept(sha, s, step, s');
    PendingKeysDistinctKept(sha, s, step, s');
    DestructionsKnownKept(sha, s, step, s');
    DestructionsMarkedKept(sha, s, step, s');
    DestroyedThumbnailsOwnKept(sha, s, step, s');
    RowThumbnailsOwnKept(sha, s, step, s');
    JobsOwnKept(sha, s, step, s');
    UploadsStoredKept(sha, s, step, s');
    LiveRowsBackedKept(sha, s, step, s');
    StrandedGoneKept(sha, s, step, s');
    ThumbnailsPresentKept(sha, s, step, s');
    NewThumbnailsPresentKept(sha, s, step, s');
  }

  lemma {:induction false} RunKeepsStoreInv(sha: Bytes -> string, s: State, steps: seq<Step>)
    requires StoreInv(sha, s) && CanRun(sha, s, steps)
    ensures StoreInv(sha, Run(sha, s, steps))
    decreases |steps|
  {
    if steps != [] {
      StepKeepsStoreInv(sha, s, steps[0]);
      RunKeepsStoreInv(sha, Apply(sha, s, steps[0]), steps[1..]);
    }
  }

  // ---------------------------------------------------------------- main results

  /** After any interleaving, with any calls failing and any processes stopped: a live row's object is
      present with the recorded hash, unless the row's own creation reported an error although it took
      effect and the upload's cleanup then deleted the file; and then it is gone. Whatever a live row
      names as its thumbnail is present. Everything else in the store can only be an orphan. */
  lemma StoreMatchesRows(sha: Bytes -> string, steps: seq<Step>)
    requires CanRun(sha, START, steps)
    ensures var s := Run(sha, START, steps);
            && (forall id | id in s.rows && !s.rows[id].destroyed ::
                 (Backed(sha, s, id) <==> s.rows[id].key !in s.stranded) &&
                 (s.rows[id].key in s.stranded ==> s.rows[id].key !in s.objects) &&
                 (s.rows[id].thumbnail.Some? ==> s.rows[id].thumbnail.value in s.objects))
            && (forall q, r | q in s.rows && r in s.rows && q != r :: s.rows[q].key != s.rows[r].key)
  {
    RunKeepsStoreInv(sha, START, steps);
  }

  /** No call of Create takes effect and still reports an error. */
  predicate HonestCreates(steps: seq<Step>) {
    forall i | 0 <= i < |steps| && steps[i].CreateRow? :: steps[i].out != ReplyLost
  }

  /** Nothing is stranded, and no cleanup is under way for a row that exists. */
  ghost predicate NothingStranded(s: State) {
    && s.stranded == {}
    && forall u, r | u in s.uploads && s.uploads[u].CleaningUp? && r in s.rows :: s.rows[r].key != s.uploads[u].key
  }

  lemma HonestStepStrandsNothing(sha: Bytes -> string, s: State, step: Step, s': State)
    requires KeysOwned(s) && NothingStranded(s) && Enabled(s, step) && HonestCreates([step])
    requires s'.rows == RowsAfter(sha, s, step) && s'.uploads == UploadsAfter(s, step) && s'.stranded == StrandedAfter(s, step)
    ensures NothingStranded(s')
  {
    assert step.CreateRow? ==> [step][0].out != ReplyLost;
  }

  lemma {:induction false} HonestRunStrandsNothing(sha: Bytes -> string, s: State, steps: seq<Step>)
    requires KeysOwned(s) && NothingStranded(s) && CanRun(sha, s, steps) && HonestCreates(steps)
    ensures NothingStranded(Run(sha, s, steps))
    decreases |steps|
  {
    if steps != [] {
      HonestStepStrandsNothing(sha, s, steps[0], Apply(sha, s, steps[0]));
      KeysDrawnKept(sha, s, steps[0], Apply(sha, s, steps[0]));
      RowKeysDistinctKept(sha, s, steps[0], Apply(sha, s, steps[0]));
      PendingKeysDistinctKept(sha, s, steps[0], Apply(sha, s, steps[0]));
      HonestRunStrandsNothing(sha, Apply(sha, s, steps[0]), steps[1..]);
    }
  }

  /** If no creation is reported failed after taking effect, every live row is always backed. */
  lemma HonestRunBacksEveryLiveRow(sha: Bytes -> string, steps: seq<Step>, id: UUID)
    requires CanRun(sha, START, steps) && HonestCreates(steps)
    requires id in Run(sha, START, steps).rows && !Run(sha, START, steps).rows[id].destroyed
    ensures Backed(sha, Run(sha, START, steps), id)
  {
    RunKeepsStoreInv(sha, START, steps);
    HonestRunStrandsNothing(sha, START, steps);
  }

  /** The five calls after which a live row has no file: the row is created, the reply is lost, and the
      upload cleans up after itself. */
  lemma LostReplyStrandsRow(sha: Bytes -> string, c: UUID, k: Case, o: UUID, r: UUID)
    requires o != r && k.counter == 0
    ensures var steps := [NewCase(c, k), Issue(0, c, [], "a", "", Done), PutFile(0, o, Done),
                          CreateRow(0, r, ReplyLost), Cleanup(0, Done)];
            && CanRun(sha, START, steps)
            && var s := Run(sha, START, steps); r in s.rows && !s.rows[r].destroyed && s.rows[r].key !in s.objects
  {
    var a, b, d, e, f := NewCase(c, k), Issue(0, c, [], "a", "", Done), PutFile(0, o, Done),
                         CreateRow(0, r, ReplyLost), Cleanup(0, Done);
    var s1 := Apply(sha, START, a);
    var s2 := Apply(sha, s1, b);
    var s3 := Apply(sha, s2, d);
    var s4 := Apply(sha, s3, e);
    var s5 := Apply(sha, s4, f);
    RunStep(sha, s4, f, []);
    RunStep(sha, s3, e, [f]);
    RunStep(sha, s2, d, [e, f]);
    RunStep(sha, s1, b, [d, e, f]);
    RunStep(sha, START, a, [b, d, e, f]);
    assert [a] + [b, d, e, f] == [a, b, d, e, f];
  }

  lemma RunStep(sha: Bytes -> string, s: State, step: Step, rest: seq<Step>)
    requires Enabled(s, step) && CanRun(sha, Apply(sha, s, step), rest)
    ensures CanRun(sha, s, [step] + rest) && Run(sha, s, [step] + rest) == Run(sha, Apply(sha, s, step), rest)
  {
    assert ([step] + rest)[1..] == rest;
  }
}
