/** Evidence numbers under concurrent and failing uploads. */
module EvidenceNumbering {
  import opened Common
  import opened Texts
  import opened EvidenceNames
  import opened EvidenceTables
  import opened EvidenceStore

  /** The counters issued for a case, in order. */
  function IssuedFor(issued: seq<(UUID, nat)>, c: UUID): seq<nat> {
    if issued == [] then [] else
      var last := issued[|issued| - 1];
      IssuedFor(issued[..|issued| - 1], c) + if last.0 == c then [last.1] else []
  }

  /** 1, 2, ..., n. */
  function FirstNumbers(n: nat): seq<nat> {
    if n == 0 then [] else FirstNumbers(n - 1) + [n]
  }

  /** The counter of a case, 0 before the case exists. */
  function CounterOf(s: State, c: UUID): nat { if c in s.cases then s.cases[c].counter else 0 }

  ghost predicate IssuedInOrder(s: State) {
    forall c: UUID :: IssuedFor(s.issued, c) == FirstNumbers(CounterOf(s, c))
  }

  ghost predicate ReferencesDistinct(s: State) {
    forall c, d | c in s.cases && d in s.cases && c != d :: s.cases[c].reference != s.cases[d].reference
  }

  predicate HasNumber(u: Upload) { u.Numbered? || u.Stored? }

  /** Numbers in use have been issued. */
  ghost predicate RowsIssued(s: State) {
    forall r | r in s.rows :: s.rows[r].caseId in s.cases && s.rows[r].counter <= CounterOf(s, s.rows[r].caseId)
  }

  ghost predicate PendingIssued(s: State) {
    forall u | u in s.uploads && HasNumber(s.uploads[u]) ::
      s.uploads[u].caseId in s.cases && s.uploads[u].counter <= CounterOf(s, s.uploads[u].caseId)
  }

  ghost predicate RowNumbersDistinct(s: State) {
    && (forall q, r | q in s.rows && r in s.rows && q != r ::
         s.rows[q].caseId != s.rows[r].caseId || s.rows[q].counter != s.rows[r].counter)
    && (forall u, r | u in s.uploads && HasNumber(s.uploads[u]) && r in s.rows ::
         s.uploads[u].caseId != s.rows[r].caseId || s.uploads[u].counter != s.rows[r].counter)
  }

  ghost predicate PendingNumbersDistinct(s: State) {
    forall u, v | u in s.uploads && v in s.uploads && u != v && HasNumber(s.uploads[u]) && HasNumber(s.uploads[v]) ::
      s.uploads[u].caseId != s.uploads[v].caseId || s.uploads[u].counter != s.uploads[v].counter
  }

  ghost predicate NumbersInv(s: State) {
    && IssuedInOrder(s) && ReferencesDistinct(s)
    && RowsIssued(s) && PendingIssued(s) && RowNumbersDistinct(s) && PendingNumbersDistinct(s)
  }

  lemma IssueExtends(issued: seq<(UUID, nat)>, c: UUID, n: nat)
    requires IssuedFor(issued, c) == FirstNumbers(n)
    ensures IssuedFor(issued + [(c, n + 1)], c) == FirstNumbers(n + 1)
    ensures forall d: UUID | d != c :: IssuedFor(issued + [(c, n + 1)], d) == IssuedFor(issued, d)
  {
    assert (issued + [(c, n + 1)])[..|issued|] == issued;
  }

  lemma IssuedInOrderKept(s: State, step: Step, s': State)
    requires IssuedInOrder(s) && Enabled(s, step)
    requires s'.cases == CasesAfter(s, step) && s'.issued == IssuedAfter(s, step)
    ensures IssuedInOrder(s')
  {
    if step.Issue? {
      IssueExtends(s.issued, step.caseId, CounterOf(s, step.caseId));
    }
  }

  lemma ReferencesDistinctKept(s: State, step: Step, s': State)
    requires ReferencesDistinct(s) && Enabled(s, step) && s'.cases == CasesAfter(s, step)
    ensures ReferencesDistinct(s')
  {
  }

  /** Numbers held by uploads are only passed on; */
  ghost predicate NoNewPending(s: State, s': State) {
    forall u | u in s'.uploads && HasNumber(s'.uploads[u]) ::
      && u in s.uploads && HasNumber(s.uploads[u])
      && s'.uploads[u].caseId == s.uploads[u].caseId && s'.uploads[u].counter == s.uploads[u].counter
  }

  /** numbers of rows stay; */
  ghost predicate NoNewRows(s: State, s': State) {
    forall r | r in s'.rows ::
      r in s.rows && s'.rows[r].caseId == s.rows[r].caseId && s'.rows[r].counter == s.rows[r].counter
  }

  /** and counters only grow. */
  ghost predicate CountersGrow(s: State, s': State) {
    && (forall c | c in s.cases :: c in s'.cases)
    && forall c :: CounterOf(s, c) <= CounterOf(s', c)
  }

  lemma OnlyIssueAddsPending(s: State, step: Step, s': State)
    requires Enabled(s, step) && s'.uploads == UploadsAfter(s, step) && !step.Issue?
    ensures NoNewPending(s, s')
  {
  }

  lemma OnlyCreateAddsRows(sha: Bytes -> string, s: State, step: Step, s': State)
    requires Enabled(s, step) && s'.rows == RowsAfter(sha, s, step) && !step.CreateRow?
    ensures NoNewRows(s, s')
  {
  }

  lemma EveryStepGrows(s: State, step: Step, s': State)
    requires Enabled(s, step) && s'.cases == CasesAfter(s, step)
    ensures CountersGrow(s, s')
  {
  }

  /** What an effective or failed Issue does to the numbers: its counter is above every number of its case. */
  ghost predicate Issues(s: State, s': State, v: nat, c: UUID) {
    && s'.rows == s.rows && c in s.cases && c in s'.cases && v in s'.uploads
    && (HasNumber(s'.uploads[v]) ==>
         s'.uploads[v].caseId == c && CounterOf(s, c) < s'.uploads[v].counter <= CounterOf(s', c))
    && (forall u | u in s'.uploads && u != v :: u in s.uploads && s'.uploads[u] == s.uploads[u])
  }

  /** What creating a row does to them: the row takes over the number its upload held. */
  ghost predicate Creates(s: State, s': State, v: nat, id: UUID) {
    && v in s.uploads && HasNumber(s.uploads[v]) && v in s'.uploads && !HasNumber(s'.uploads[v])
    && (forall r | r in s'.rows :: r in s.rows || r == id)
    && (forall r | r in s'.rows && r != id :: s'.rows[r] == s.rows[r])
    && (id in s'.rows ==> s'.rows[id].caseId == s.uploads[v].caseId && s'.rows[id].counter == s.uploads[v].counter)
    && (forall u | u in s'.uploads && u != v :: u in s.uploads && s'.uploads[u] == s.uploads[u])
  }

  lemma IssueIssues(sha: Bytes -> string, s: State, step: Step, s': State)
    requires Enabled(s, step) && step.Issue? && s' == Apply(sha, s, step)
    ensures Issues(s, s', step.u, step.caseId)
  {
  }

  lemma CreateCreates(sha: Bytes -> string, s: State, step: Step, s': State)
    requires KeysDrawn(s) && Enabled(s, step) && step.CreateRow? && s' == Apply(sha, s, step)
    ensures Creates(s, s', step.u, step.rowId) && step.rowId !in s.rows
  {
  }

  lemma RowsIssuedKept(s: State, s': State, v: nat, id: UUID, c: UUID)
    requires RowsIssued(s) && PendingIssued(s) && CountersGrow(s, s')
    requires NoNewRows(s, s') || Issues(s, s', v, c) || Creates(s, s', v, id)
    ensures RowsIssued(s')
  {
  }

  lemma PendingIssuedKept(s: State, s': State, v: nat, id: UUID, c: UUID)
    requires PendingIssued(s) && CountersGrow(s, s')
    requires NoNewPending(s, s') || Issues(s, s', v, c) || Creates(s, s', v, id)
    ensures PendingIssued(s')
  {
  }

  lemma RowNumbersKeptByIssue(s: State, s': State, v: nat, c: UUID)
    requires RowsIssued(s) && RowNumbersDistinct(s) && Issues(s, s', v, c)
    ensures RowNumbersDistinct(s')
  {
  }

  lemma RowNumbersKeptByCreate(s: State, s': State, v: nat, id: UUID)
    requires RowNumbersDistinct(s) && PendingNumbersDistinct(s) && Creates(s, s', v, id) && id !in s.rows
    ensures RowNumbersDistinct(s')
  {
  }

  lemma PendingNumbersDistinctKept(s: State, s': State, v: nat, id: UUID, c: UUID)
    requires PendingIssued(s) && PendingNumbersDistinct(s)
    requires NoNewPending(s, s') || Issues(s, s', v, c) || Creates(s, s', v, id)
    ensures PendingNumbersDistinct(s')
  {
  }

  lemma StepKeepsNumbersInv(sha: Bytes -> string, s: State, step: Step)
    requires KeysDrawn(s) && NumbersInv(s) && Enabled(s, step)
    ensures NumbersInv(Apply(sha, s, step))
  {
    var s' := Apply(sha, s, step);
    IssuedInOrderKept(s, step, s');
    ReferencesDistinctKept(s, step, s');
    EveryStepGrows(s, step, s');
    var u, id, c := 0, NIL, NIL;
    if step.Issue? {
      u, c := step.u, step.caseId;
      IssueIssues(sha, s, step, s');
      RowNumbersKeptByIssue(s, s', u, c);
    } else if step.CreateRow? {
      u, id := step.u, step.rowId;
      CreateCreates(sha, s, step, s');
      RowNumbersKeptByCreate(s, s', u, id);
    } else {
      OnlyIssueAddsPending(s, step, s');
      OnlyCreateAddsRows(sha, s, step, s');
    }
    RowsIssuedKept(s, s', u, id, c);
    PendingIssuedKept(s, s', u, id, c);
    PendingNumbersDistinctKept(s, s', u, id, c);
  }

  lemma {:induction false} RunKeepsNumbersInv(sha: Bytes -> string, s: State, steps: seq<Step>)
    requires KeysDrawn(s) && NumbersInv(s) && CanRun(sha, s, steps)
    ensures NumbersInv(Run(sha, s, steps))
    decreases |steps|
  {
    if steps != [] {
      KeysDrawnKept(sha, s, steps[0], Apply(sha, s, steps[0]));
      StepKeepsNumbersInv(sha, s, steps[0]);
      RunKeepsNumbersInv(sha, Apply(sha, s, steps[0]), steps[1..]);
    }
  }

  lemma NumbersDiffer(s: State, q: UUID, r: UUID)
    requires RowsIssued(s) && ReferencesDistinct(s) && RowNumbersDistinct(s)
    requires q in s.rows && r in s.rows && q != r
    ensures EvidenceNumber(s.cases[s.rows[q].caseId].reference, s.rows[q].counter)
         != EvidenceNumber(s.cases[s.rows[r].caseId].reference, s.rows[r].counter)
  {
    var a, b := s.rows[q], s.rows[r];
    var x, y := s.cases[a.caseId].reference, s.cases[b.caseId].reference;
    if EvidenceNumber(x, a.counter) == EvidenceNumber(y, b.counter) {
      EvidenceNumberInjective(x, a.counter, y, b.counter);
    }
  }

  /** After any interleaving of uploads, with any failures: the counters issued for each case are
      1, 2, 3, ... without repeats, and no two evidence rows of any cases share a number's text. */
  lemma EvidenceNumbersUnique(sha: Bytes -> string, steps: seq<Step>)
    requires CanRun(sha, START, steps)
    ensures var s := Run(sha, START, steps);
            && (forall c | c in s.cases :: IssuedFor(s.issued, c) == FirstNumbers(s.cases[c].counter))
            && (forall r | r in s.rows :: s.rows[r].caseId in s.cases)
            && (forall q, r | q in s.rows && r in s.rows && q != r ::
                 EvidenceNumber(s.cases[s.rows[q].caseId].reference, s.rows[q].counter)
                 != EvidenceNumber(s.cases[s.rows[r].caseId].reference, s.rows[r].counter))
  {
    var s := Run(sha, START, steps);
    assert NumbersInv(s) by {
      assert FirstNumbers(0) == [];
      RunKeepsNumbersInv(sha, START, steps);
    }
    forall q, r | q in s.rows && r in s.rows && q != r
      ensures EvidenceNumber(s.cases[s.rows[q].caseId].reference, s.rows[q].counter)
           != EvidenceNumber(s.cases[s.rows[r].caseId].reference, s.rows[r].counter)
    {
      NumbersDiffer(s, q, r);
    }
  }
}
