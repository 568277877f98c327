/** What single calls promise their callers: what an accepted call has done, that a refused one has done
    nothing, and that no call reaches into another case. */
module CallEffects {
  import opened Common
  import opened Texts
  import opened EvidenceNames
  import opened EvidenceTables
  import opened VaultCalls
  import opened VersionFamilies
  import opened CaseLifecycle

  /** A call that is refused has changed nothing, wherever in its checks it was refused. */
  lemma RefusedChangesNothing(r: Rules, t: Tables, call: Call)
    requires After(r, t, call).1.NotFound? || After(r, t, call).1.Invalid?
    ensures After(r, t, call).0 == t
  {
    match call
    case CreateCase(_, _, _) =>
    case UpdateCase(_, _, _) =>
    case ArchiveCase(_, _) =>
    case SetLegalHold(_, _, _) =>
    case Upload(u) => RefusedUploadChangesNothing(r, t, u);
    case UploadNewVersion(p, u, _, _) =>
      if p in t.rows { RefusedUploadChangesNothing(r, t, u.(caseId := t.rows[p].caseId)); }
    case Destroy(_, _, _, _, _) =>
    case UpdateMetadata(_, _, _) =>
    case LinkThumbnail(_, _, _, _) =>
  }

  lemma RefusedUploadChangesNothing(r: Rules, t: Tables, u: UploadInput)
    ensures UploadAfter(r, t, u).1.NotFound? || UploadAfter(r, t, u).1.Invalid? ==> UploadAfter(r, t, u).0 == t
  {
  }

  /** An upload reported as failed adds a row exactly when creating the row took effect all the same. */
  lemma FailedUploadAddsRowIff(r: Rules, t: Tables, u: UploadInput)
    requires UploadAfter(r, t, u).1 == CallFailed && u.rowId !in t.rows
    ensures UploadAfter(r, t, u).0.rows != t.rows <==>
            UploadProblem(r, t, u).None? && u.count.Done? && u.put.Done? && u.create.ReplyLost?
  {
    assert u.rowId !in t.rows;
  }

  /** An accepted destruction of a live record marks it and no other; its file and its thumbnail are
      gone as far as their deletions took effect, and no other object. */
  lemma AcceptedDestroy(r: Rules, t: Tables, id: UUID, reason: string, mark: Outcome, file: Outcome, thumb: Outcome)
    requires id in t.rows && !t.rows[id].destroyed
    requires DestroyAfter(r, t, id, reason, mark, file, thumb).1 == Accepted
    ensures var t' := DestroyAfter(r, t, id, reason, mark, file, thumb).0; var row := t.rows[id];
            && t'.cases == t.cases && t'.rows == t.rows[id := row.(destroyed := true)]
            && (file.Effective() ==> row.key !in t'.objects)
            && (row.thumbnail.Some? && thumb.Effective() ==> row.thumbnail.value !in t'.objects)
            && t'.objects == t.objects - (if file.Effective() then {row.key} else {})
                             - (if row.thumbnail.Some? && thumb.Effective() then {row.thumbnail.value} else {})
  {
  }

  /** The case a call works on. */
  function CaseOf(t: Tables, call: Call): Option<UUID> {
    match call
    case CreateCase(id, _, _) => Some(id)
    case UpdateCase(id, _, _) => Some(id)
    case ArchiveCase(id, _) => Some(id)
    case SetLegalHold(id, _, _) => Some(id)
    case Upload(u) => Some(u.caseId)
    case UploadNewVersion(p, _, _, _) => if p in t.rows then Some(t.rows[p].caseId) else None
    case Destroy(id, _, _, _, _) => if id in t.rows then Some(t.rows[id].caseId) else None
    case UpdateMetadata(id, _, _) => if id in t.rows then Some(t.rows[id].caseId) else None
    case LinkThumbnail(id, _, _, _) => if id in t.rows then Some(t.rows[id].caseId) else None
  }

  /** The same case record, if any. */
  ghost predicate SameCase(cases: map<UUID, Case>, cases': map<UUID, Case>, c: UUID) {
    (c in cases <==> c in cases') && (c in cases && c in cases' ==> cases'[c] == cases[c])
  }

  lemma CaseCallOtherRecord(r: Rules, t: Tables, call: Call, c: UUID)
    requires OnCase(call) && call.id != c
    ensures SameCase(t.cases, After(r, t, call).0.cases, c)
  {
  }

  lemma OtherCaseRecord(r: Rules, t: Tables, call: Call, c: UUID)
    requires CaseOf(t, call) != Some(c)
    ensures SameCase(t.cases, After(r, t, call).0.cases, c)
  {
    if OnCase(call) {
      CaseCallOtherRecord(r, t, call, c);
    } else {
      EvidenceCallCases(r, t, call);
    }
  }

  lemma WrittenRowInCase(r: Rules, t: Tables, call: Call)
    requires ParentsAreRoots(t.rows) && FreshIds(t, call)
    ensures var change := ChangeOf(r, t, call); change.Same? || CaseOf(t, call) == Some(change.row.caseId)
  {
  }

  lemma OtherCaseFiles(r: Rules, t: Tables, call: Call, c: UUID)
    requires KeysInCase(t.rows) && CaseOf(t, call) != Some(c)
    ensures SameFiles(t.objects, After(r, t, call).0.objects, c)
  {
    forall k: ObjectKey | k.EvidenceKey? && k.caseId == c ensures SameObject(t.objects, After(r, t, call).0.objects, k) {
      assert call.Destroy? && call.id in t.rows ==> KeyInCase(t.rows[call.id]);
      assert !Touches(r, t, call, k);
      ObjectsStay(r, t, call, k);
    }
  }

  /** No call, however it fails, changes the record, the evidence or the stored files of another case. */
  lemma CasesAreIsolated(r: Rules, t: Tables, call: Call, c: UUID)
    requires ParentsAreRoots(t.rows) && KeysInCase(t.rows) && FreshIds(t, call) && CaseOf(t, call) != Some(c)
    ensures var t' := After(r, t, call).0;
            SameCase(t.cases, t'.cases, c) && SameEvidence(t.rows, t'.rows, c) && SameFiles(t.objects, t'.objects, c)
  {
    OtherCaseRecord(r, t, call, c);
    OtherCaseFiles(r, t, call, c);
    CallChangesRows(r, t, call);
    WrittenRowInCase(r, t, call);
    AppliedShows(t.rows, ChangeOf(r, t, call));
    ChangeElsewhere(t.rows, After(r, t, call).0.rows, ChangeOf(r, t, call), c);
  }
}
