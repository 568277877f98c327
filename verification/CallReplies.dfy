/** What each service call answers and what it leaves, on its input and the tables alone: exactly when it is accepted,
    which answer the first failing check gets, and every column an accepted call writes. */
module CallReplies {
  import opened Common
  import opened Texts
  import opened EvidenceNames
  import opened EvidenceTables
  import opened VaultCalls
  import opened VersionFamilies

  // ---------------------------------------------------------------- creating a case

  /** A case is created exactly when its texts keep their limits, its reference code is well-formed and unused, and the
      write succeeds. */
  lemma CreateCaseAcceptedIff(r: Rules, t: Tables, id: UUID, input: CaseInput, out: Outcome)
    ensures After(r, t, Call.CreateCase(id, input, out)).1 == Accepted <==>
            && r.trim(input.title) != "" && r.size(r.trim(input.title)) <= 500
            && r.size(r.trim(input.description)) <= 10_000
            && r.size(r.trim(input.jurisdiction)) <= 200
            && r.trim(input.reference) != "" && r.referenceOk(r.trim(input.reference))
            && (forall k | k in t.cases :: t.cases[k].reference != r.trim(input.reference))
            && out.Done?
  {
  }

  /** The first text that fails its check, in this order, is named; a used reference code fails at the write. */
  lemma CreateCaseRefused(r: Rules, t: Tables, id: UUID, input: CaseInput, out: Outcome)
    ensures var reply := After(r, t, Call.CreateCase(id, input, out)).1;
            var title := r.trim(input.title) != "" && r.size(r.trim(input.title)) <= 500;
            var description := r.size(r.trim(input.description)) <= 10_000;
            var jurisdiction := r.size(r.trim(input.jurisdiction)) <= 200;
            var reference := r.trim(input.reference) != "" && r.referenceOk(r.trim(input.reference));
            && (reply == Invalid(Title) <==> !title)
            && (reply == Invalid(Description) <==> title && !description)
            && (reply == Invalid(Jurisdiction) <==> title && description && !jurisdiction)
            && (reply == Invalid(Reference) <==> title && description && jurisdiction && !reference)
            && (reply == CallFailed <==> title && description && jurisdiction && reference
                                         && (!out.Done? || exists k :: k in t.cases && t.cases[k].reference == r.trim(input.reference)))
  {
  }

  /** The new case has every text from its own input, is active, free and has no evidence yet; nothing else changes.
      A write that takes effect unnoticed leaves the same. */
  lemma CreatedCase(r: Rules, t: Tables, id: UUID, input: CaseInput, out: Outcome)
    ensures var (t', reply) := After(r, t, Call.CreateCase(id, input, out));
            var c := Case(
              reference := r.trim(input.reference),
              title := r.escape(r.trim(input.title)),
              description := r.escape(r.trim(input.description)),
              jurisdiction := r.escape(r.trim(input.jurisdiction)),
              status := "active", legalHold := false, counter := 0);
            && (reply == Accepted ==> t' == t.(cases := t.cases[id := c]))
            && (reply == CallFailed ==>
                  t' == if out.ReplyLost? && (forall k | k in t.cases :: t.cases[k].reference != c.reference)
                        then t.(cases := t.cases[id := c]) else t)
  {
  }

  // ---------------------------------------------------------------- changing a case

  /** An update is accepted exactly for a case that is not archived, with texts within their limits, one of the two
      status steps if any, and a write that succeeds. */
  lemma UpdateCaseAcceptedIff(r: Rules, t: Tables, id: UUID, u: CaseUpdate, out: Outcome)
    ensures After(r, t, Call.UpdateCase(id, u, out)).1 == Accepted <==>
            && id in t.cases && t.cases[id].status != "archived"
            && (u.title.Some? ==> r.trim(u.title.value) != "" && r.size(r.trim(u.title.value)) <= 500)
            && (u.description.Some? ==> r.size(r.trim(u.description.value)) <= 10_000)
            && (u.jurisdiction.Some? ==> r.size(r.trim(u.jurisdiction.value)) <= 200)
            && (u.status.Some? ==> (t.cases[id].status, u.status.value) in {("active", "closed"), ("closed", "archived")})
            && out.Done?
  {
  }

  /** A missing and an archived case are told first; then the first text that fails its check, and the status step last. */
  lemma UpdateCaseRefused(r: Rules, t: Tables, id: UUID, u: CaseUpdate, out: Outcome)
    ensures var reply := After(r, t, Call.UpdateCase(id, u, out)).1;
            var title := u.title.Some? ==> r.trim(u.title.value) != "" && r.size(r.trim(u.title.value)) <= 500;
            var description := u.description.Some? ==> r.size(r.trim(u.description.value)) <= 10_000;
            var jurisdiction := u.jurisdiction.Some? ==> r.size(r.trim(u.jurisdiction.value)) <= 200;
            if id !in t.cases then reply == NotFound
            else if t.cases[id].status == "archived" then reply == Invalid(Status)
            else
              var step := u.status.Some? ==> (t.cases[id].status, u.status.value) in {("active", "closed"), ("closed", "archived")};
              && (reply == Invalid(Title) <==> !title)
              && (reply == Invalid(Description) <==> title && !description)
              && (reply == Invalid(Jurisdiction) <==> title && description && !jurisdiction)
              && (reply == Invalid(Status) <==> title && description && jurisdiction && !step)
              && (reply == CallFailed <==> title && description && jurisdiction && step && !out.Done?)
  {
  }

  /** The columns the request names get its sanitized texts, all others stay. */
  lemma UpdatedCase(r: Rules, t: Tables, id: UUID, u: CaseUpdate, out: Outcome)
    requires After(r, t, Call.UpdateCase(id, u, out)).1 == Accepted
    ensures var t' := After(r, t, Call.UpdateCase(id, u, out)).0;
            && t' == t.(cases := t'.cases) && t'.cases.Keys == t.cases.Keys
            && (forall k | k in t.cases && k != id :: t'.cases[k] == t.cases[k])
            && var c, c' := t.cases[id], t'.cases[id];
               && c'.title == (if u.title.Some? then r.escape(r.trim(u.title.value)) else c.title)
               && c'.description == (if u.description.Some? then r.escape(r.trim(u.description.value)) else c.description)
               && c'.jurisdiction == (if u.jurisdiction.Some? then r.escape(r.trim(u.jurisdiction.value)) else c.jurisdiction)
               && c'.status == (if u.status.Some? then u.status.value else c.status)
               && c'.reference == c.reference && c'.legalHold == c.legalHold && c'.counter == c.counter
  {
  }

  /** Archiving a case: refused under legal hold and of an active case, nothing to do if archived. */
  lemma ArchiveCaseReplies(r: Rules, t: Tables, id: UUID, out: Outcome)
    ensures var (t', reply) := After(r, t, Call.ArchiveCase(id, out));
            if id !in t.cases then reply == NotFound
            else
              var c := t.cases[id];
              && (reply == Accepted <==> !c.legalHold && (c.status == "archived" || (c.status == "closed" && out.Done?)))
              && (reply == Invalid(LegalHold) <==> c.legalHold)
              && (reply == Invalid(Status) <==> !c.legalHold && c.status != "closed" && c.status != "archived")
              && (reply == Accepted ==> t' == t.(cases := t.cases[id := c.(status := "archived")]))
  {
    if id in t.cases {
      assert t.cases[id].status == "archived" ==> t.cases[id := t.cases[id].(status := "archived")] == t.cases;
    }
  }

  /** Setting or releasing a hold: refused of an archived case, nothing to do if it is so already. */
  lemma SetLegalHoldReplies(r: Rules, t: Tables, id: UUID, hold: bool, out: Outcome)
    ensures var (t', reply) := After(r, t, Call.SetLegalHold(id, hold, out));
            if id !in t.cases then reply == NotFound
            else
              var c := t.cases[id];
              && (reply == Accepted <==> c.status != "archived" && (c.legalHold == hold || out.Done?))
              && (reply == Invalid(Status) <==> c.status == "archived")
              && (reply == Accepted ==> t' == t.(cases := t.cases[id := c.(legalHold := hold)]))
  {
    if id in t.cases {
      assert t.cases[id].legalHold == hold ==> t.cases[id := t.cases[id].(legalHold := hold)] == t.cases;
    }
  }

  // ---------------------------------------------------------------- uploading

  /** An upload is accepted exactly when it names an active case and a file, description and data keep their limits,
      and number, object and row are written without an error. */
  lemma UploadAcceptedIff(r: Rules, t: Tables, u: UploadInput)
    ensures UploadAfter(r, t, u).1 == Accepted <==>
            && u.caseId != 0 && r.trim(u.filename) != "" && r.size(u.description) <= 10_000
            && u.caseId in t.cases && t.cases[u.caseId].status == "active"
            && |u.data| <= r.maxUpload
            && u.count.Done? && u.put.Done? && u.create.Done?
  {
  }

  /** Otherwise the first failing check, in this order, gives the answer. */
  lemma UploadRefused(r: Rules, t: Tables, u: UploadInput)
    ensures var reply := UploadAfter(r, t, u).1;
            var named, titled := u.caseId != 0, r.trim(u.filename) != "";
            var short, found := r.size(u.description) <= 10_000, u.caseId in t.cases;
            var open := found && t.cases[u.caseId].status == "active";
            && (reply == Invalid(CaseId) <==> !named || (titled && short && found && !open))
            && (reply == Invalid(Filename) <==> named && !titled)
            && (reply == Invalid(Description) <==> named && titled && !short)
            && (reply == Invalid(File) <==> named && titled && short && open && |u.data| > r.maxUpload)
            && (reply == CallFailed <==>
                  && named && titled && short
                  && (!found || (open && |u.data| <= r.maxUpload && !(u.count.Done? && u.put.Done? && u.create.Done?))))
  {
  }

  /** An accepted upload draws the next number of its case, stores the very bytes under a key of its own object id and
      cleaned name, and records their hash in a current first version; nothing else changes. */
  lemma AcceptedUpload(r: Rules, t: Tables, u: UploadInput)
    requires UploadAfter(r, t, u).1 == Accepted
    ensures u.caseId in t.cases
    ensures var c := t.cases[u.caseId];
            var key := EvidenceKey(caseId := u.caseId, objectId := u.objectId, version := 1, filename := r.cleanFilename(u.filename));
            var row := Row(
              caseId := u.caseId, counter := c.counter + 1, key := key, hash := r.sha(u.data),
              description := r.escape(r.trim(u.description)), thumbnail := None,
              current := true, version := 1, parent := None, destroyed := false);
            UploadAfter(r, t, u).0
            == Tables(t.cases[u.caseId := c.(counter := c.counter + 1)], t.rows[u.rowId := row], t.objects[key := u.data])
  {
  }

  /** What an upload that passed its checks leaves when one of its calls fails: the number is drawn and the object
      stored as far as their calls took effect, and after a failed creation the object is gone if the cleanup took
      effect, though the row may be there. */
  lemma FailedUpload(r: Rules, t: Tables, u: UploadInput)
    requires UploadAfter(r, t, u).1 == CallFailed && u.caseId in t.cases
    ensures var t' := UploadAfter(r, t, u).0; var c := t.cases[u.caseId];
            var key := EvidenceKey(caseId := u.caseId, objectId := u.objectId, version := 1, filename := r.cleanFilename(u.filename));
            && t'.cases == (if u.count.Failed? then t.cases else t.cases[u.caseId := c.(counter := c.counter + 1)])
            && (if u.count.Done? && u.put.Done? && u.create.ReplyLost? then t'.rows.Keys == t.rows.Keys + {u.rowId} else t'.rows == t.rows)
            && t'.objects == if !u.count.Done? || u.put.Failed? then t.objects
                             else if u.put.Done? && !u.cleanup.Failed? then t.objects - {key}
                             else t.objects[key := u.data]
  {
    var key := EvidenceKey(u.caseId, u.objectId, 1, r.cleanFilename(u.filename));
    assert t.objects[key := u.data] - {key} == t.objects - {key};
  }

  // ---------------------------------------------------------------- uploading a new version

  /** A new version is accepted exactly when its parent is a live record and the upload to the parent's case is
      accepted; whether its bookkeeping calls succeed does not matter. */
  lemma NewVersionAcceptedIff(r: Rules, t: Tables, p: UUID, u: UploadInput, mark: Outcome, set': Outcome)
    ensures VersionAfter(r, t, p, u, mark, set').1 == Accepted <==>
            && p in t.rows && !t.rows[p].destroyed
            && t.rows[p].caseId != 0 && r.trim(u.filename) != "" && r.size(u.description) <= 10_000
            && t.rows[p].caseId in t.cases && t.cases[t.rows[p].caseId].status == "active"
            && |u.data| <= r.maxUpload
            && u.count.Done? && u.put.Done? && u.create.Done?
  {
    if p in t.rows {
      UploadAcceptedIff(r, t, u.(caseId := t.rows[p].caseId));
    }
  }

  /** A missing and a destroyed parent are told apart; all else is answered as for an upload to its case. */
  lemma NewVersionRefused(r: Rules, t: Tables, p: UUID, u: UploadInput, mark: Outcome, set': Outcome)
    ensures var reply := VersionAfter(r, t, p, u, mark, set').1;
            && (reply == NotFound <==> p !in t.rows)
            && (reply == Invalid(Evidence) <==> p in t.rows && t.rows[p].destroyed)
            && (p in t.rows && !t.rows[p].destroyed ==> reply == UploadAfter(r, t, u.(caseId := t.rows[p].caseId)).1)
  {
  }

  /** The rows after an accepted new version: its own joins the parent's family as the version after the parent's, and
      the rest of the family is no longer current, each as far as that call took effect. */
  lemma AcceptedVersion(r: Rules, t: Tables, p: UUID, u: UploadInput, mark: Outcome, set': Outcome, id: UUID)
    requires VersionAfter(r, t, p, u, mark, set').1 == Accepted && ParentsAreRoots(t.rows) && u.rowId !in t.rows
    ensures p in t.rows
    ensures var rows' := VersionAfter(r, t, p, u, mark, set').0.rows;
            var root := if t.rows[p].parent.Some? then t.rows[p].parent.value else p;
            && rows'.Keys == t.rows.Keys + {u.rowId}
            && (id in t.rows ==>
                  rows'[id] == if mark.Effective() && (id == root || t.rows[id].parent == Some(root))
                               then t.rows[id].(current := false) else t.rows[id])
            && rows'[u.rowId].current && rows'[u.rowId].caseId == t.rows[p].caseId && rows'[u.rowId].hash == r.sha(u.data)
            && rows'[u.rowId].version == (if set'.Effective() then t.rows[p].version + 1 else 1)
            && rows'[u.rowId].parent == if set'.Effective() then Some(root) else None
  {
    var upload := u.(caseId := t.rows[p].caseId);
    AcceptedUpload(r, t, upload);
    VersionLeaves(r, t, p, u, mark, set');
    var root, uploaded := Root(t.rows, p), UploadAfter(r, t, upload).0.rows;
    assert root in t.rows && uploaded[u.rowId].parent.None? && uploaded.Keys == t.rows.Keys + {u.rowId};
    MarkedFamily(uploaded, root, mark, u.rowId);
    MarkedFamily(uploaded, root, mark, id);
  }

  /** Marking takes the current flag from the family, if it takes effect, and leaves all else. */
  lemma MarkedFamily(rows: map<UUID, Row>, root: UUID, mark: Outcome, id: UUID)
    ensures var rows' := MarkPrevious(rows, root, mark);
            && rows'.Keys == rows.Keys
            && (id in rows ==>
                  rows'[id] == if mark.Effective() && (id == root || rows[id].parent == Some(root))
                               then rows[id].(current := false) else rows[id])
  {
  }

  // ---------------------------------------------------------------- destroying and the rest

  /** A destruction is accepted exactly of a record that is destroyed already, or with a reason, in a case neither
      archived nor held, when marking it succeeds. */
  lemma DestroyAcceptedIff(r: Rules, t: Tables, id: UUID, reason: string, mark: Outcome, file: Outcome, thumb: Outcome)
    ensures DestroyAfter(r, t, id, reason, mark, file, thumb).1 == Accepted <==>
            id in t.rows
            && (t.rows[id].destroyed
                || (var c := t.rows[id].caseId;
                    && c in t.cases && t.cases[c].status != "archived" && !t.cases[c].legalHold
                    && r.trim(reason) != "" && mark.Done?))
  {
  }

  /** The status of its case is checked before the hold, and the reason last; a failed marking leaves the objects alone. */
  lemma DestroyRefused(r: Rules, t: Tables, id: UUID, reason: string, mark: Outcome, file: Outcome, thumb: Outcome)
    ensures var (t', reply) := DestroyAfter(r, t, id, reason, mark, file, thumb);
            && (reply == CallFailed ==>
                  t' == if id in t.rows && t.rows[id].caseId in t.cases && mark.ReplyLost?
                        then t.(rows := t.rows[id := t.rows[id].(destroyed := true)]) else t)
            && (reply == NotFound <==> id !in t.rows)
            && (id in t.rows && !t.rows[id].destroyed && t.rows[id].caseId in t.cases ==>
                  var c := t.cases[t.rows[id].caseId];
                  && (reply == Invalid(CaseId) <==> c.status == "archived")
                  && (reply == Invalid(LegalHold) <==> c.status != "archived" && c.legalHold)
                  && (reply == Invalid(Reason) <==> c.status != "archived" && !c.legalHold && r.trim(reason) == "")
                  && (reply == CallFailed <==> c.status != "archived" && !c.legalHold && r.trim(reason) != "" && !mark.Done?))
  {
  }

  /** A description update is accepted exactly of a live record with a description within its limit, when the write
      succeeds; it changes that description. */
  lemma UpdateMetadataReplies(r: Rules, t: Tables, id: UUID, text: string, out: Outcome)
    ensures var (t', reply) := After(r, t, UpdateMetadata(id, text, out));
            && (reply == Accepted <==> r.size(text) <= 10_000 && id in t.rows && !t.rows[id].destroyed && out.Done?)
            && (reply == Invalid(Description) <==> r.size(text) > 10_000)
            && (reply == NotFound <==> r.size(text) <= 10_000 && (id !in t.rows || t.rows[id].destroyed))
            && (reply == Accepted ==>
                  t' == t.(rows := t.rows[id := t.rows[id].(description := r.escape(r.trim(text)))]))
  {
  }

  /** A thumbnail job ends well exactly when image and link are written; then the row names the stored image, under a
      key of its own. */
  lemma ThumbnailReplies(r: Rules, t: Tables, id: UUID, image: Bytes, put: Outcome, link: Outcome)
    ensures var (t', reply) := After(r, t, LinkThumbnail(id, image, put, link));
            && (reply == Accepted <==> id in t.rows && put.Done? && link.Done?)
            && (reply == Accepted ==>
                  var key := ThumbnailKey(caseId := t.rows[id].caseId, evidenceId := id);
                  t' == Tables(t.cases, t.rows[id := t.rows[id].(thumbnail := Some(key))], t.objects[key := image]))
  {
  }
}
