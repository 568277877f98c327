/** A service call that runs undisturbed is one of the interleavings of EvidenceStore: the same calls, one
    step each, leave the same tables. So what holds of every interleaving holds of the services. */
module CallsAsSteps {
  import opened Common
  import opened Texts
  import opened EvidenceNames
  import opened EvidenceTables
  import Store = EvidenceStore
  import Calls = VaultCalls

  function TablesOf(s: Store.State): Calls.Tables {
    Calls.Tables(s.cases, s.rows, s.objects)
  }

  /** `steps` can run from `s` and leave it at `s'`. */
  ghost predicate Leads(sha: Bytes -> string, s: Store.State, steps: seq<Store.Step>, s': Store.State) {
    Store.CanRun(sha, s, steps) && Store.Run(sha, s, steps) == s'
  }

  lemma Then(sha: Bytes -> string, s: Store.State, step: Store.Step, rest: seq<Store.Step>, s': Store.State)
    requires Store.Enabled(s, step) && Leads(sha, Store.Apply(sha, s, step), rest, s')
    ensures Leads(sha, s, [step] + rest, s')
  {
    Store.RunStep(sha, s, step, rest);
  }

  // ---------------------------------------------------------------- new cases

  /** Creating a case, with an accepted input and a write that takes effect, is one step, and one that can be taken: the
      reference code is unused and the counter starts at 0. */
  lemma CreateCaseIsStep(r: Calls.Rules, s: Store.State, id: UUID, input: Calls.CaseInput, out: Outcome)
    requires id !in s.cases && out.Effective()
    requires !Calls.After(r, TablesOf(s), Calls.CreateCase(id, input, Done)).1.Invalid?
    requires forall k | k in s.cases :: s.cases[k].reference != r.trim(input.reference)
    ensures var row := Case(
              reference := r.trim(input.reference), title := r.escape(r.trim(input.title)),
              description := r.escape(r.trim(input.description)), jurisdiction := r.escape(r.trim(input.jurisdiction)),
              status := "active", legalHold := false, counter := 0);
            && Store.Enabled(s, Store.NewCase(id, row))
            && TablesOf(Store.Apply(r.sha, s, Store.NewCase(id, row)))
            == Calls.After(r, TablesOf(s), Calls.CreateCase(id, input, out)).0
  {
  }

  // ---------------------------------------------------------------- uploads

  function CleanupSteps(n: nat, u: Calls.UploadInput): seq<Store.Step> {
    if u.create.Done? then [] else [Store.Cleanup(n, u.cleanup)]
  }

  function CreateSteps(n: nat, u: Calls.UploadInput): seq<Store.Step> {
    if !u.put.Done? then [] else [Store.CreateRow(n, u.rowId, u.create)] + CleanupSteps(n, u)
  }

  function PutSteps(n: nat, u: Calls.UploadInput): seq<Store.Step> {
    if !u.count.Done? then [] else [Store.PutFile(n, u.objectId, u.put)] + CreateSteps(n, u)
  }

  function IssueStep(r: Calls.Rules, n: nat, u: Calls.UploadInput): Store.Step {
    Store.Issue(n, u.caseId, u.data, r.cleanFilename(u.filename), r.escape(r.trim(u.description)), u.count)
  }

  /** The calls an accepted upload makes as process `n`. */
  function UploadSteps(r: Calls.Rules, n: nat, u: Calls.UploadInput): seq<Store.Step> {
    [IssueStep(r, n, u)] + PutSteps(n, u)
  }

  lemma CleanupLeads(sha: Bytes -> string, s: Store.State, n: nat, u: Calls.UploadInput) returns (s': Store.State)
    requires !u.create.Done? ==> n in s.uploads && s.uploads[n].CleaningUp?
    ensures Leads(sha, s, CleanupSteps(n, u), s')
    ensures s'.cases == s.cases && s'.rows == s.rows
    ensures s'.objects == if u.create.Done? then s.objects else Without(s.objects, s.uploads[n].key, u.cleanup)
  {
    s' := s;
    if !u.create.Done? {
      s' := Store.Apply(sha, s, Store.Cleanup(n, u.cleanup));
      Then(sha, s, Store.Cleanup(n, u.cleanup), [], s');
    }
  }

  lemma CreateLeads(sha: Bytes -> string, s: Store.State, n: nat, u: Calls.UploadInput) returns (s': Store.State)
    requires u.put.Done? ==> n in s.uploads && s.uploads[n].Stored? && u.rowId !in s.used
    ensures Leads(sha, s, CreateSteps(n, u), s')
    ensures s'.cases == s.cases
    ensures s'.rows == if u.put.Done? && u.create.Effective() then s.rows[u.rowId := Store.NewRow(sha, s.uploads[n])] else s.rows
    ensures s'.objects == if u.put.Done? && !u.create.Done? then Without(s.objects, s.uploads[n].key, u.cleanup) else s.objects
  {
    s' := s;
    if u.put.Done? {
      var step := Store.CreateRow(n, u.rowId, u.create);
      s' := CleanupLeads(sha, Store.Apply(sha, s, step), n, u);
      Then(sha, s, step, CleanupSteps(n, u), s');
    }
  }

  lemma PutLeads(r: Calls.Rules, s: Store.State, n: nat, u: Calls.UploadInput) returns (s': Store.State)
    requires u.count.Done? ==> n in s.uploads && s.uploads[n].Numbered? && s.uploads[n].filename == r.cleanFilename(u.filename)
    requires u.count.Done? ==> s.uploads[n].data == u.data && s.uploads[n].caseId == u.caseId
    requires u.objectId !in s.used && u.rowId !in s.used && u.objectId != u.rowId
    ensures Leads(r.sha, s, PutSteps(n, u), s')
    ensures s'.cases == s.cases
    ensures var key := Calls.FileKey(r, u);
            && s'.rows == (if u.count.Done? && u.put.Done? && u.create.Effective()
                           then s.rows[u.rowId := FirstVersion(u.caseId, s.uploads[n].counter, key, r.sha(u.data), s.uploads[n].description)]
                           else s.rows)
            && s'.objects == (if !u.count.Done? then s.objects
                              else if u.put.Done? && !u.create.Done?
                              then Without(With(s.objects, key, u.data, u.put), key, u.cleanup)
                              else With(s.objects, key, u.data, u.put))
  {
    s' := s;
    if u.count.Done? {
      var step := Store.PutFile(n, u.objectId, u.put);
      s' := CreateLeads(r.sha, Store.Apply(r.sha, s, step), n, u);
      Then(r.sha, s, step, CreateSteps(n, u), s');
    }
  }

  /** An upload that passes its checks, call for call. */
  lemma UploadIsSteps(r: Calls.Rules, s: Store.State, n: nat, u: Calls.UploadInput)
    requires Calls.UploadProblem(r, TablesOf(s), u).None? && n !in s.uploads
    requires u.objectId !in s.used && u.rowId !in s.used && u.objectId != u.rowId
    ensures Store.CanRun(r.sha, s, UploadSteps(r, n, u))
    ensures TablesOf(Store.Run(r.sha, s, UploadSteps(r, n, u))) == Calls.UploadAfter(r, TablesOf(s), u).0
  {
    var step := IssueStep(r, n, u);
    var s' := PutLeads(r, Store.Apply(r.sha, s, step), n, u);
    Then(r.sha, s, step, PutSteps(n, u), s');
  }

  // ---------------------------------------------------------------- destructions

  function ThumbnailSteps(n: nat, row: Row, thumb: Outcome): seq<Store.Step> {
    if row.thumbnail.Some? then [Store.DeleteThumbnail(n, thumb)] else []
  }

  function DeleteSteps(n: nat, row: Row, mark: Outcome, file: Outcome, thumb: Outcome): seq<Store.Step> {
    if mark.Done? then [Store.DeleteFile(n, file)] + ThumbnailSteps(n, row, thumb) else []
  }

  /** The calls an accepted destruction makes as process `n`. */
  function DestroySteps(n: nat, id: UUID, row: Row, mark: Outcome, file: Outcome, thumb: Outcome): seq<Store.Step> {
    [Store.Find(n, id)] + ([Store.Mark(n, mark)] + DeleteSteps(n, row, mark, file, thumb))
  }

  lemma DeleteLeads(sha: Bytes -> string, s: Store.State, n: nat, row: Row, mark: Outcome, file: Outcome, thumb: Outcome)
    returns (s': Store.State)
    requires mark.Done? ==> n in s.destructions && s.destructions[n].Marked?
                            && s.destructions[n].key == row.key && s.destructions[n].thumbnail == row.thumbnail
    ensures Leads(sha, s, DeleteSteps(n, row, mark, file, thumb), s')
    ensures s'.cases == s.cases && s'.rows == s.rows
    ensures var deleted := Without(s.objects, row.key, file);
            s'.objects == if !mark.Done? then s.objects
                          else if row.thumbnail.Some? then Without(deleted, row.thumbnail.value, thumb)
                          else deleted
  {
    s' := s;
    if mark.Done? {
      var step := Store.DeleteFile(n, file);
      var s1 := Store.Apply(sha, s, step);
      s' := s1;
      if row.thumbnail.Some? {
        s' := Store.Apply(sha, s1, Store.DeleteThumbnail(n, thumb));
        Then(sha, s1, Store.DeleteThumbnail(n, thumb), [], s');
      }
      Then(sha, s, step, ThumbnailSteps(n, row, thumb), s');
    }
  }

  /** A destruction that passes its checks, call for call. */
  lemma DestroyIsSteps(r: Calls.Rules, s: Store.State, n: nat, id: UUID, reason: string,
                       mark: Outcome, file: Outcome, thumb: Outcome)
    requires n !in s.destructions && id in s.rows && !s.rows[id].destroyed
    requires Calls.DestroyProblem(r, TablesOf(s), s.rows[id], reason).None?
    ensures var steps := DestroySteps(n, id, s.rows[id], mark, file, thumb);
            && Store.CanRun(r.sha, s, steps)
            && TablesOf(Store.Run(r.sha, s, steps)) == Calls.DestroyAfter(r, TablesOf(s), id, reason, mark, file, thumb).0
  {
    var row := s.rows[id];
    var find, marking := Store.Find(n, id), Store.Mark(n, mark);
    var s1 := Store.Apply(r.sha, s, find);
    var s2 := Store.Apply(r.sha, s1, marking);
    var s' := DeleteLeads(r.sha, s2, n, row, mark, file, thumb);
    Then(r.sha, s1, marking, DeleteSteps(n, row, mark, file, thumb), s');
    Then(r.sha, s, find, [marking] + DeleteSteps(n, row, mark, file, thumb), s');
  }

  // ---------------------------------------------------------------- thumbnails

  function LinkSteps(id: UUID, put: Outcome, link: Outcome): seq<Store.Step> {
    if put.Done? then [Store.LinkThumbnail(id, link)] else []
  }

  /** The background job of a row, call for call. */
  lemma ThumbnailIsSteps(r: Calls.Rules, s: Store.State, id: UUID, image: Bytes, put: Outcome, link: Outcome)
    requires id in s.jobs && id in s.rows && s.jobs[id] == Store.Generating(s.rows[id].caseId)
    ensures var steps := [Store.PutThumbnail(id, image, put)] + LinkSteps(id, put, link);
            && Store.CanRun(r.sha, s, steps)
            && TablesOf(Store.Run(r.sha, s, steps)) == Calls.After(r, TablesOf(s), Calls.LinkThumbnail(id, image, put, link)).0
  {
    var step := Store.PutThumbnail(id, image, put);
    var s1 := Store.Apply(r.sha, s, step);
    var s' := s1;
    if put.Done? {
      s' := Store.Apply(r.sha, s1, Store.LinkThumbnail(id, link));
      Then(r.sha, s1, Store.LinkThumbnail(id, link), [], s');
    }
    Then(r.sha, s, step, LinkSteps(id, put, link), s');
  }
}
