/** Recording custody events: the transaction each writer runs, every interleaving of such
    transactions, and what the verifier finds in the table they leave. */
module CustodyProtocol {
  import opened Common
  import opened Texts
  import opened CustodyChain
  import opened CustodyLog
  import opened ChainValidity

  // ---------------------------------------------------------------- one writer at a time

  /** Where a call to Insert fails; CommitReplyLost commits although the caller sees an error. */
  datatype Fault = NoFault | BeginFails | LockFails | ReadFails | WriteFails | CommitFails | CommitReplyLost

  /** The primary key: a row already has the id. */
  predicate IdTaken(rows: seq<Event>, id: UUID) { exists i :: 0 <= i < |rows| && rows[i].id == id }

  /** Recording one more entry under an unused id appends its sealed row. */
  lemma AppendedHistory(st: Store, history: seq<Event>, e: Event)
    requires DistinctIds(history) && !IdTaken(Replay(st, history), e.id)
    ensures DistinctIds(history + [e])
    ensures Replay(st, history + [e]) == Replay(st, history) + [Seal(st, Replay(st, history), e)]
  {
    forall i | 0 <= i < |history| ensures history[i].id != e.id {
      RowFacts(st, history, i);
      assert Replay(st, history)[i].id == history[i].id;
    }
    ReplayLast(st, history, e);
  }

  class CustodyTable {
    const store: Store
    var rows: seq<Event>
    ghost var history: seq<Event>

    ghost predicate Valid()
      reads this
    {
      rows == Replay(store, history) && DistinctIds(history)
    }

    constructor (st: Store)
      ensures Valid() && store == st && rows == [] && history == []
    {
      store, rows, history := st, [], [];
    }

    /** Records one event: read the last hash of the case, seal the event with it, append the row. */
    method Insert(event: Event, freshId: UUID, fault: Fault) returns (ok: bool)
      requires Valid()
      requires freshId != NIL && !IdTaken(rows, freshId)
      modifies this
      ensures Valid()
      ensures var e := if event.id == NIL then event.(id := freshId) else event;
              var duplicate := IdTaken(old(rows), e.id);
              && (ok <==> fault == NoFault && !duplicate && store.Accepts(e.actor))
              && (rows, history) ==
                 if !duplicate && store.Accepts(e.actor) && (fault == NoFault || fault == CommitReplyLost)
                 then (old(rows) + [Seal(store, old(rows), e)], old(history) + [e])
                 else (old(rows), old(history))
    {
      ok := false;
      if fault == BeginFails || fault == LockFails || fault == ReadFails {
        return;
      }
      var previousHash := LastHash(rows, event.caseId);
      var e := event;
      if e.id == NIL {
        e := e.(id := freshId);
      }
      var row := Stored(store, e).(prev := previousHash, hash := store.digest(previousHash, e));
      if fault == WriteFails || !store.Accepts(e.actor) || IdTaken(rows, e.id) {
        return;
      }
      if fault == CommitFails {
        return;
      }
      assert row == Seal(store, rows, e);
      AppendedHistory(store, history, e);
      rows := rows + [row];
      history := history + [e];
      ok := fault == NoFault;
    }

    /** Verifies a case against the table. */
    method VerifyCase(c: UUID) returns (result: Verification)
      requires Valid() && EntryDigest(store.digest) && Discerns(store, history)
      ensures result.valid <==> CommittedInOrder(history, c) && TimestampsKept(history, c) && ActorsKept(store, history, c)
      ensures var listed := SortedCase(rows, c);
              result.total == |listed| && result.breaks == BreaksIn(store.digest, listed, |listed|)
      ensures forall b :: b in result.breaks <==> TrueBreak(store.digest, SortedCase(rows, c), b)
    {
      result := VerifyCaseChain(store.digest, SortedCase(rows, c));
      ChainValidIff(store, history, c);
    }
  }

  // ---------------------------------------------------------------- interleaved writers

  /** A transaction by what it has done so far. */
  datatype Txn =
    | Begun(e: Event)
    | Locked(e: Event)
    | Chained(e: Event, previous: string)
    | Written(e: Event, row: Event)
    | Committed
    | RolledBack
  {
    predicate HoldsLock() { Locked? || Chained? || Written? }

    predicate Open() { Begun? || HoldsLock() }
  }

  /** The committed rows, the transactions, and the entries committed so far in commit order. */
  datatype State = State(rows: seq<Event>, txns: map<nat, Txn>, history: seq<Event>)

  const START := State([], map[], [])

  datatype Step =
    | Begin(t: nat, e: Event)
    | Lock(t: nat)
    | ReadLast(t: nat)
    | Write(t: nat)
    | Commit(t: nat)
    | Rollback(t: nat)

  /** The advisory lock of a case is its id's first eight bytes. */
  function LockId(c: UUID): nat { c / 0x1_0000_0000_0000_0000 }

  ghost predicate LockFree(s: State, id: nat) {
    forall t | t in s.txns && s.txns[t].HoldsLock() :: LockId(s.txns[t].e.caseId) != id
  }

  /** The primary key: no committed row and no other pending row has the id. */
  ghost predicate IdFree(s: State, id: UUID) {
    && (forall i | 0 <= i < |s.rows| :: s.rows[i].id != id)
    && (forall t | t in s.txns && s.txns[t].Written? :: s.txns[t].row.id != id)
  }

  ghost predicate Enabled(st: Store, s: State, step: Step) {
    match step
    case Begin(t, e) => t !in s.txns
    case Lock(t) => t in s.txns && s.txns[t].Begun? && LockFree(s, LockId(s.txns[t].e.caseId))
    case ReadLast(t) => t in s.txns && s.txns[t].Locked?
    case Write(t) => t in s.txns && s.txns[t].Chained? && IdFree(s, s.txns[t].e.id) && st.Accepts(s.txns[t].e.actor)
    case Commit(t) => t in s.txns && s.txns[t].Written?
    case Rollback(t) => t in s.txns && s.txns[t].Open()
  }

  ghost function Apply(st: Store, s: State, step: Step): State
    requires Enabled(st, s, step)
  {
    match step
    case Begin(t, e) => s.(txns := s.txns[t := Begun(e)])
    case Lock(t) => s.(txns := s.txns[t := Locked(s.txns[t].e)])
    case ReadLast(t) =>
      var e := s.txns[t].e;
      s.(txns := s.txns[t := Chained(e, LastHash(s.rows, e.caseId))])
    case Write(t) =>
      var e, p := s.txns[t].e, s.txns[t].previous;
      s.(txns := s.txns[t := Written(e, Stored(st, e).(prev := p, hash := st.digest(p, e)))])
    case Commit(t) =>
      State(s.rows + [s.txns[t].row], s.txns[t := Committed], s.history + [s.txns[t].e])
    case Rollback(t) => s.(txns := s.txns[t := RolledBack])
  }

  ghost predicate CanRun(st: Store, s: State, steps: seq<Step>)
    decreases |steps|
  {
    steps == [] || (Enabled(st, s, steps[0]) && CanRun(st, Apply(st, s, steps[0]), steps[1..]))
  }

  ghost function Run(st: Store, s: State, steps: seq<Step>): State
    requires CanRun(st, s, steps)
    decreases |steps|
  {
    if steps == [] then s else Run(st, Apply(st, s, steps[0]), steps[1..])
  }

  // ---------------------------------------------------------------- the invariant

  ghost predicate Exclusive(s: State) {
    forall t, u | t in s.txns && u in s.txns && t != u && s.txns[t].HoldsLock() && s.txns[u].HoldsLock() ::
      LockId(s.txns[t].e.caseId) != LockId(s.txns[u].e.caseId)
  }

  /** A last hash that was read stays the last hash, and a pending row is the one to append next. */
  ghost predicate Current(st: Store, s: State) {
    && (forall t | t in s.txns && s.txns[t].Chained? :: s.txns[t].previous == LastHash(s.rows, s.txns[t].e.caseId))
    && (forall t | t in s.txns && s.txns[t].Written? :: s.txns[t].row == Seal(st, s.rows, s.txns[t].e))
  }

  ghost predicate FreshPending(s: State) {
    && (forall t | t in s.txns && s.txns[t].Written? ::
         forall i | 0 <= i < |s.rows| :: s.rows[i].id != s.txns[t].row.id)
    && (forall t, u | t in s.txns && u in s.txns && t != u && s.txns[t].Written? && s.txns[u].Written? ::
         s.txns[t].row.id != s.txns[u].row.id)
  }

  /** The table is what recording the committed entries one after another gives. */
  ghost predicate Serial(st: Store, s: State) {
    s.rows == Replay(st, s.history) && DistinctIds(s.history)
  }

  ghost predicate Inv(st: Store, s: State) {
    Serial(st, s) && Exclusive(s) && Current(st, s) && FreshPending(s)
  }

  /** A row of another case moves neither the last hash of a case nor the row to append next. */
  lemma OtherCaseKeepsLast(st: Store, rows: seq<Event>, r: Event, e: Event)
    requires r.caseId != e.caseId
    ensures LastHash(rows + [r], e.caseId) == LastHash(rows, e.caseId)
    ensures Seal(st, rows + [r], e) == Seal(st, rows, e)
  {
    assert (rows + [r])[..|rows|] == rows;
  }

  lemma CommitKeepsSerial(st: Store, s: State, t: nat)
    requires Serial(st, s) && Current(st, s) && FreshPending(s) && Enabled(st, s, Commit(t))
    ensures Serial(st, Apply(st, s, Commit(t)))
  {
    AppendedHistory(st, s.history, s.txns[t].e);
  }

  lemma CommitKeepsCurrent(st: Store, s: State, t: nat)
    requires Exclusive(s) && Current(st, s) && Enabled(st, s, Commit(t))
    ensures Current(st, Apply(st, s, Commit(t)))
  {
    var r := s.txns[t].row;
    var s' := Apply(st, s, Commit(t));
    forall u | u in s'.txns && s'.txns[u].HoldsLock()
      ensures u != t && s'.txns[u] == s.txns[u]
      ensures LastHash(s'.rows, s.txns[u].e.caseId) == LastHash(s.rows, s.txns[u].e.caseId)
      ensures Seal(st, s'.rows, s.txns[u].e) == Seal(st, s.rows, s.txns[u].e)
    {
      OtherCaseKeepsLast(st, s.rows, r, s.txns[u].e);
    }
  }

  lemma CommitKeepsFresh(st: Store, s: State, t: nat)
    requires FreshPending(s) && Enabled(st, s, Commit(t))
    ensures FreshPending(Apply(st, s, Commit(t)))
  {
  }

  lemma StepKeepsExclusive(st: Store, s: State, step: Step)
    requires Exclusive(s) && Enabled(st, s, step)
    ensures Exclusive(Apply(st, s, step))
  {
  }

  lemma StepKeepsCurrent(st: Store, s: State, step: Step)
    requires Current(st, s) && Enabled(st, s, step) && !step.Commit?
    ensures Current(st, Apply(st, s, step))
  {
  }

  lemma StepKeepsFresh(st: Store, s: State, step: Step)
    requires FreshPending(s) && Enabled(st, s, step) && !step.Commit?
    ensures FreshPending(Apply(st, s, step))
  {
  }

  lemma StepKeepsInv(st: Store, s: State, step: Step)
    requires Inv(st, s) && Enabled(st, s, step)
    ensures Inv(st, Apply(st, s, step))
  {
    StepKeepsExclusive(st, s, step);
    if step.Commit? {
      CommitKeepsSerial(st, s, step.t);
      CommitKeepsCurrent(st, s, step.t);
      CommitKeepsFresh(st, s, step.t);
    } else {
      StepKeepsCurrent(st, s, step);
      StepKeepsFresh(st, s, step);
    }
  }

  lemma {:induction false} RunKeepsInv(st: Store, s: State, steps: seq<Step>)
    requires Inv(st, s) && CanRun(st, s, steps)
    ensures Inv(st, Run(st, s, steps))
    decreases |steps|
  {
    if steps != [] {
      StepKeepsInv(st, s, steps[0]);
      RunKeepsInv(st, Apply(st, s, steps[0]), steps[1..]);
    }
  }

  // ---------------------------------------------------------------- main results

  /** Serializability: after any interleaving, with any rollbacks, the table is the one that recording
      the committed entries alone, in commit order, would give. */
  lemma InterleavingIsSerial(st: Store, steps: seq<Step>)
    requires CanRun(st, START, steps)
    ensures var s := Run(st, START, steps);
            && s.rows == Replay(st, s.history)
            && DistinctIds(s.history)
            && forall t | t in s.txns && s.txns[t].Chained? ::
                 s.txns[t].previous == LastHash(s.rows, s.txns[t].e.caseId)
  {
    RunKeepsInv(st, START, steps);
  }

  /** After any interleaving the verifier accepts a case exactly when its entries were committed in
      time order with timestamps of whole microseconds and actors in canonical form. */
  lemma InterleavingVerifiesIff(st: Store, steps: seq<Step>, c: UUID)
    requires CanRun(st, START, steps)
    requires EntryDigest(st.digest) && Discerns(st, Run(st, START, steps).history)
    ensures var s := Run(st, START, steps); var listed := SortedCase(s.rows, c);
            BreaksIn(st.digest, listed, |listed|) == [] <==>
            CommittedInOrder(s.history, c) && TimestampsKept(s.history, c) && ActorsKept(st, s.history, c)
  {
    RunKeepsInv(st, START, steps);
    ChainValidIff(st, Run(st, START, steps).history, c);
  }
}
