/** The case and evidence services as they work: repository and storage calls made one after another on
    shared tables. Each method is proved to do exactly what its call does in VaultCalls. */
module EvidenceVault {
  import opened Common
  import opened Texts
  import opened EvidenceNames
  import opened EvidenceTables
  import opened VaultCalls

  class Vault {
    const rules: Rules
    var cases: map<UUID, Case>
    var rows: map<UUID, Row>
    var objects: map<ObjectKey, Bytes>

    ghost function Contents(): Tables
      reads this
    {
      Tables(cases, rows, objects)
    }

    constructor (rules: Rules)
      ensures this.rules == rules && Contents() == EMPTY
    {
      this.rules := rules;
      cases, rows, objects := map[], map[], map[];
    }

    // -------------------------------------------------------------- repository and storage calls

    method WriteCase(id: UUID, c: Case, out: Outcome) returns (ok: bool)
      modifies this`cases
      ensures cases == if out.Effective() then old(cases)[id := c] else old(cases)
      ensures ok == out.Done?
    {
      if out.Effective() {
        cases := cases[id := c];
      }
      ok := out.Done?;
    }

    method IncrementCounter(id: UUID, out: Outcome) returns (ok: bool, counter: nat)
      modifies this`cases
      ensures id !in old(cases) ==> !ok && cases == old(cases)
      ensures id in old(cases) ==>
                cases == Counted(old(Contents()), id, out).cases && ok == out.Done?
                && (ok ==> id in cases && counter == cases[id].counter)
    {
      if id !in cases {
        return false, 0;
      }
      if out.Effective() {
        cases := cases[id := cases[id].(counter := cases[id].counter + 1)];
      }
      return out.Done?, cases[id].counter;
    }

    method PutObject(key: ObjectKey, data: Bytes, out: Outcome) returns (ok: bool)
      modifies this`objects
      ensures objects == With(old(objects), key, data, out) && ok == out.Done?
    {
      if out.Effective() {
        objects := objects[key := data];
      }
      ok := out.Done?;
    }

    method DeleteObject(key: ObjectKey, out: Outcome)
      modifies this`objects
      ensures objects == Without(old(objects), key, out)
    {
      if out.Effective() {
        objects := objects - {key};
      }
    }

    method WriteRow(id: UUID, row: Row, out: Outcome) returns (ok: bool)
      modifies this`rows
      ensures rows == if out.Effective() then old(rows)[id := row] else old(rows)
      ensures ok == out.Done?
    {
      if out.Effective() {
        rows := rows[id := row];
      }
      ok := out.Done?;
    }

    /** Takes effect on live rows only, and reports failure when there was none. */
    method MarkDestroyed(id: UUID, out: Outcome) returns (ok: bool)
      modifies this`rows
      ensures var live := id in old(rows) && !old(rows)[id].destroyed;
              && rows == (if live && out.Effective() then old(rows)[id := old(rows)[id].(destroyed := true)] else old(rows))
              && ok == (live && out.Done?)
    {
      if id !in rows || rows[id].destroyed {
        return false;
      }
      if out.Effective() {
        rows := rows[id := rows[id].(destroyed := true)];
      }
      ok := out.Done?;
    }

    method MarkPreviousVersions(root: UUID, out: Outcome)
      modifies this`rows
      ensures rows == MarkPrevious(old(rows), root, out)
    {
      if out.Effective() {
        rows := map id | id in rows ::
          if id == root || rows[id].parent == Some(root) then rows[id].(current := false) else rows[id];
      }
    }

    method UpdateVersionFields(id: UUID, root: UUID, version: nat, out: Outcome)
      modifies this`rows
      ensures rows == SetVersion(old(rows), id, root, version, out)
    {
      if out.Effective() && id in rows {
        rows := rows[id := rows[id].(parent := Some(root), version := version, current := true)];
      }
    }

    // -------------------------------------------------------------- case service

    method CreateCase(id: UUID, input: CaseInput, out: Outcome) returns (reply: Reply)
      modifies this`cases
      ensures (Contents(), reply) == After(rules, old(Contents()), Call.CreateCase(id, input, out))
      ensures reply == Accepted <==>
              && rules.trim(input.title) != "" && rules.size(rules.trim(input.title)) <= 500
              && rules.size(rules.trim(input.description)) <= 10_000
              && rules.size(rules.trim(input.jurisdiction)) <= 200
              && rules.trim(input.reference) != "" && rules.referenceOk(rules.trim(input.reference))
              && (forall k | k in old(cases) :: old(cases)[k].reference != rules.trim(input.reference))
              && out.Done?
    {
      var problem := CreateProblem(rules, input);
      if problem.Some? {
        return Invalid(problem.value);
      }
      if ReferenceTaken(Tables(cases, rows, objects), rules.trim(input.reference)) {
        return CallFailed;
      }
      var ok := WriteCase(id, NewCase(rules, input), out);
      reply := if ok then Accepted else CallFailed;
    }

    method UpdateCase(id: UUID, u: CaseUpdate, out: Outcome) returns (reply: Reply)
      modifies this`cases
      ensures (Contents(), reply) == After(rules, old(Contents()), Call.UpdateCase(id, u, out))
    {
      if id !in cases {
        return NotFound;
      }
      if cases[id].status == ARCHIVED {
        return Invalid(Status);
      }
      var problem := UpdateProblem(rules, cases[id], u);
      if problem.Some? {
        return Invalid(problem.value);
      }
      var c := cases[id];
      if u.title.Some? {
        c := c.(title := rules.escape(rules.trim(u.title.value)));
      }
      if u.description.Some? {
        c := c.(description := rules.escape(rules.trim(u.description.value)));
      }
      if u.jurisdiction.Some? {
        c := c.(jurisdiction := rules.escape(rules.trim(u.jurisdiction.value)));
      }
      if u.status.Some? {
        c := c.(status := u.status.value);
      }
      var ok := WriteCase(id, c, out);
      reply := if ok then Accepted else CallFailed;
    }

    method ArchiveCase(id: UUID, out: Outcome) returns (reply: Reply)
      modifies this`cases
      ensures (Contents(), reply) == After(rules, old(Contents()), Call.ArchiveCase(id, out))
    {
      if id !in cases {
        return NotFound;
      }
      var c := cases[id];
      if c.legalHold {
        return Invalid(LegalHold);
      }
      if c.status == ARCHIVED {
        return Accepted;
      }
      if !IsValidStatusTransition(c.status, ARCHIVED) {
        return Invalid(Status);
      }
      var ok := WriteCase(id, c.(status := ARCHIVED), out);
      reply := if ok then Accepted else CallFailed;
    }

    method SetLegalHold(id: UUID, hold: bool, out: Outcome) returns (reply: Reply)
      modifies this`cases
      ensures (Contents(), reply) == After(rules, old(Contents()), Call.SetLegalHold(id, hold, out))
    {
      if id !in cases {
        return NotFound;
      }
      var c := cases[id];
      if c.status == ARCHIVED {
        return Invalid(Status);
      }
      if c.legalHold == hold {
        return Accepted;
      }
      var ok := WriteCase(id, c.(legalHold := hold), out);
      reply := if ok then Accepted else CallFailed;
    }

    // -------------------------------------------------------------- evidence service

    method Upload(u: UploadInput) returns (reply: Reply)
      modifies this
      ensures (Contents(), reply) == UploadAfter(rules, old(Contents()), u)
      ensures reply == Accepted <==>
              && u.caseId != NIL && rules.trim(u.filename) != "" && rules.size(u.description) <= 10_000
              && u.caseId in old(cases) && old(cases)[u.caseId].status == "active"
              && |u.data| <= rules.maxUpload
              && u.count.Done? && u.put.Done? && u.create.Done?
    {
      if u.caseId == NIL {
        return Invalid(CaseId);
      }
      if rules.trim(u.filename) == "" {
        return Invalid(Filename);
      }
      if rules.size(u.description) > MAX_DESCRIPTION {
        return Invalid(Description);
      }
      if u.caseId !in cases {
        return CallFailed;
      }
      if cases[u.caseId].status != ACTIVE {
        return Invalid(CaseId);
      }
      if |u.data| > rules.maxUpload {
        return Invalid(File);
      }
      var hash := rules.sha(u.data);
      var counted, counter := IncrementCounter(u.caseId, u.count);
      if !counted {
        return CallFailed;
      }
      var key := EvidenceKey(u.caseId, u.objectId, 1, rules.cleanFilename(u.filename));
      var stored := PutObject(key, u.data, u.put);
      if !stored {
        return CallFailed;
      }
      var row := FirstVersion(u.caseId, counter, key, hash, rules.escape(rules.trim(u.description)));
      var created := WriteRow(u.rowId, row, u.create);
      if !created {
        DeleteObject(key, u.cleanup);
        return CallFailed;
      }
      return Accepted;
    }

    method UploadNewVersion(parentId: UUID, u: UploadInput, mark: Outcome, set': Outcome) returns (reply: Reply)
      modifies this
      ensures (Contents(), reply) == VersionAfter(rules, old(Contents()), parentId, u, mark, set')
      ensures reply == Accepted <==>
              && parentId in old(rows) && !old(rows)[parentId].destroyed
              && (var c := old(rows)[parentId].caseId;
                  && c != NIL && rules.trim(u.filename) != "" && rules.size(u.description) <= 10_000
                  && c in old(cases) && old(cases)[c].status == "active"
                  && |u.data| <= rules.maxUpload
                  && u.count.Done? && u.put.Done? && u.create.Done?)
    {
      if parentId !in rows {
        return NotFound;
      }
      var parent := rows[parentId];
      if parent.destroyed {
        return Invalid(Evidence);
      }
      reply := Upload(u.(caseId := parent.caseId));
      if reply != Accepted {
        return reply;
      }
      var root := parentId;
      if parent.parent.Some? {
        root := parent.parent.value;
      }
      MarkPreviousVersions(root, mark);
      UpdateVersionFields(u.rowId, root, parent.version + 1, set');
    }

    method Destroy(id: UUID, reason: string, mark: Outcome, file: Outcome, thumb: Outcome) returns (reply: Reply)
      modifies this
      ensures (Contents(), reply) == DestroyAfter(rules, old(Contents()), id, reason, mark, file, thumb)
    {
      if id !in rows {
        return NotFound;
      }
      var row := rows[id];
      if row.destroyed {
        return Accepted;
      }
      if row.caseId !in cases {
        return CallFailed;
      }
      if cases[row.caseId].status == ARCHIVED {
        return Invalid(CaseId);
      }
      if cases[row.caseId].legalHold {
        return Invalid(LegalHold);
      }
      if rules.trim(reason) == "" {
        return Invalid(Reason);
      }
      var marked := MarkDestroyed(id, mark);
      if !marked {
        return CallFailed;
      }
      DeleteObject(row.key, file);
      if row.thumbnail.Some? {
        DeleteObject(row.thumbnail.value, thumb);
      }
      return Accepted;
    }

    method UpdateMetadata(id: UUID, text: string, out: Outcome) returns (reply: Reply)
      modifies this`rows
      ensures (Contents(), reply) == After(rules, old(Contents()), Call.UpdateMetadata(id, text, out))
    {
      if rules.size(text) > MAX_DESCRIPTION {
        return Invalid(Description);
      }
      if id !in rows || rows[id].destroyed {
        return NotFound;
      }
      var ok := WriteRow(id, rows[id].(description := rules.escape(rules.trim(text))), out);
      reply := if ok then Accepted else CallFailed;
    }

    /** The background job of an upload: stores the image, then names it in the row. */
    method GenerateThumbnail(id: UUID, image: Bytes, put: Outcome, link: Outcome) returns (reply: Reply)
      modifies this
      ensures (Contents(), reply) == After(rules, old(Contents()), LinkThumbnail(id, image, put, link))
    {
      if id !in rows {
        return NotFound;
      }
      var key := ThumbnailKey(rows[id].caseId, id);
      var stored := PutObject(key, image, put);
      if !stored {
        return CallFailed;
      }
      var linked := WriteRow(id, rows[id].(thumbnail := Some(key)), link);
      reply := if linked then Accepted else CallFailed;
    }
  }
}
