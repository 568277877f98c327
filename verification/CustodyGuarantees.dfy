/** The custody log's promises for the hash the program really computes. */
module CustodyGuarantees {
  import opened Common
  import opened Texts
  import opened UuidColumn
  import opened CustodyChain
  import opened CustodyLog
  import opened ChainValidity
  import opened CustodyProtocol
  import opened TamperEvidence

  lemma LogHashIsEntryDigest(h: Hasher)
    requires HexDigests(h)
    ensures EntryDigest(LogHash(h)) && forall p, e :: Free(LogHash(h)(p, e), '|')
  {
    forall p, e: Event ensures LogHash(h)(p, e) != "" && Free(LogHash(h)(p, e), '|') {
      assert |h.sum(LogText(h, p, e))| == 64 && AllHex(h.sum(LogText(h, p, e)));
    }
    forall p, e: Event, f: Event | e == f.(hash := e.hash, prev := e.prev) ensures LogHash(h)(p, e) == LogHash(h)(p, f) {
      assert Fields(h, p, e) == Fields(h, p, f);
    }
  }

  /** The program's table: its entry hash, and any column that takes no bars. */
  function StoreOf(h: Hasher, column: string -> Option<string>): Store { Store(LogHash(h), column) }

  ghost predicate TakesNoBars(column: string -> Option<string>) {
    forall s :: column(s).Some? ==> Free(s, '|') && Free(column(s).value, '|')
  }

  /** The text hashed when entry k was recorded. */
  function WrittenText(h: Hasher, col: string -> Option<string>, history: seq<Event>, k: nat): string
    requires k < |history|
  {
    LogText(h, Replay(StoreOf(h, col), history)[k].prev, history[k])
  }

  /** The text hashed when the stored row k is verified against the same previous hash. */
  function ReadText(h: Hasher, col: string -> Option<string>, history: seq<Event>, k: nat): string
    requires k < |history|
  {
    LogText(h, Replay(StoreOf(h, col), history)[k].prev, Replay(StoreOf(h, col), history)[k])
  }

  /** No two of the texts hashed when the table was written or is verified collide. */
  ghost predicate TableHasNoCollision(h: Hasher, col: string -> Option<string>, history: seq<Event>) {
    && (forall j: nat, k: nat | j < |history| && k < |history| ::
         h.sum(WrittenText(h, col, history, j)) == h.sum(WrittenText(h, col, history, k)) ==>
         WrittenText(h, col, history, j) == WrittenText(h, col, history, k))
    && (forall k: nat | k < |history| ::
         h.sum(WrittenText(h, col, history, k)) == h.sum(ReadText(h, col, history, k)) ==>
         WrittenText(h, col, history, k) == ReadText(h, col, history, k))
  }

  /** Texts that differ at most in actor and timestamp differ there. */
  lemma TextShowsActorAndTime(h: Hasher, p: string, a: Event, b: Event)
    requires Faithful(h.text) && LogText(h, p, a) == LogText(h, p, b)
    requires a.id == b.id && a.action == b.action && (a.actor == b.actor || (Free(a.actor, '|') && Free(b.actor, '|')))
    ensures a.actor == b.actor && a.ts == b.ts
  {
    var f, g := Fields(h, p, a), Fields(h, p, b);
    JoinCancel(f, g, '|');
    JoinCancel(f[1..], g[1..], '|');
    assert f[1..][1..] == f[2..] && g[1..][1..] == g[2..];
    if a.actor == b.actor {
      JoinCancel(f[2..], g[2..], '|');
    } else {
      JoinHead(f[2..], g[2..], '|');
    }
    assert f[2..][1..] == f[3..] && g[2..][1..] == g[3..];
    JoinCancel(f[3..], g[3..], '|');
    assert f[3..][1..] == f[4..] && g[3..][1..] == g[4..];
    JoinHead(f[4..], g[4..], '|');
    assert f[4..][0] == h.text.time(a.ts) && g[4..][0] == h.text.time(b.ts);
  }

  lemma RowHash(h: Hasher, col: string -> Option<string>, history: seq<Event>, k: nat)
    requires k < |history|
    ensures Replay(StoreOf(h, col), history)[k].hash == h.sum(WrittenText(h, col, history, k))
  {
    RowFacts(StoreOf(h, col), history, k);
  }

  lemma WrittenTextNamesEntry(h: Hasher, col: string -> Option<string>, history: seq<Event>, j: nat, k: nat)
    requires Faithful(h.text) && HexDigests(h) && j < |history| && k < |history|
    requires WrittenText(h, col, history, j) == WrittenText(h, col, history, k)
    ensures history[j].id == history[k].id
  {
    var rows := Replay(StoreOf(h, col), history);
    LogHashIsEntryDigest(h);
    PreviousHashFree(StoreOf(h, col), history, j);
    PreviousHashFree(StoreOf(h, col), history, k);
    TextHead(h, rows[j].prev, history[j], rows[k].prev, history[k]);
  }

  lemma ReadTextShowsStored(h: Hasher, col: string -> Option<string>, history: seq<Event>, k: nat)
    requires Faithful(h.text) && TakesNoBars(col) && k < |history| && WrittenText(h, col, history, k) == ReadText(h, col, history, k)
    ensures Replay(StoreOf(h, col), history)[k].ts == history[k].ts && Replay(StoreOf(h, col), history)[k].actor == history[k].actor
  {
    var r := Replay(StoreOf(h, col), history)[k];
    RowFacts(StoreOf(h, col), history, k);
    ColumnTakesNoBars(h, col, history[k].actor);
    TextShowsActorAndTime(h, r.prev, history[k], r);
  }

  /** An actor is kept, or neither it nor what is kept of it holds a separator. */
  lemma ColumnTakesNoBars(h: Hasher, col: string -> Option<string>, actor: string)
    requires TakesNoBars(col)
    ensures var kept := StoreOf(h, col).Column(actor); kept == actor || (Free(actor, '|') && Free(kept, '|'))
  {
  }

  lemma NoCollisionDiscerns(h: Hasher, col: string -> Option<string>, history: seq<Event>)
    requires Faithful(h.text) && HexDigests(h) && TakesNoBars(col) && TableHasNoCollision(h, col, history)
    ensures Discerns(StoreOf(h, col), history)
  {
    var st := StoreOf(h, col);
    var rows := Replay(st, history);
    forall j, k | 0 <= j < |rows| && 0 <= k < |rows| && rows[j].hash == rows[k].hash ensures rows[j].id == rows[k].id {
      RowHash(h, col, history, j);
      RowHash(h, col, history, k);
      assert h.sum(WrittenText(h, col, history, j)) == h.sum(WrittenText(h, col, history, k));
      WrittenTextNamesEntry(h, col, history, j, k);
      RowFacts(st, history, j);
      RowFacts(st, history, k);
    }
    forall k | 0 <= k < |rows| && rows[k].hash == st.digest(rows[k].prev, rows[k])
      ensures rows[k].ts == history[k].ts && rows[k].actor == history[k].actor
    {
      RowHash(h, col, history, k);
      assert h.sum(WrittenText(h, col, history, k)) == h.sum(ReadText(h, col, history, k));
      ReadTextShowsStored(h, col, history, k);
    }
  }

  /** The verifier finds nothing wrong with a case. */
  ghost predicate Verifies(h: Hasher, rows: seq<Event>, c: UUID) {
    BreaksIn(LogHash(h), SortedCase(rows, c), |SortedCase(rows, c)|) == []
  }

  /** What a case must be for that. */
  ghost predicate Verifiable(st: Store, history: seq<Event>, c: UUID) {
    CommittedInOrder(history, c) && TimestampsKept(history, c) && ActorsKept(st, history, c)
  }

  /** The premises about hash, texts and actor column. */
  ghost predicate Sane(h: Hasher, col: string -> Option<string>) { Faithful(h.text) && HexDigests(h) && TakesNoBars(col) }

  /** The verifier's verdict on a table written one entry at a time, for the program's own entry hash. */
  lemma HistoryVerifiesIff(h: Hasher, col: string -> Option<string>, history: seq<Event>, c: UUID)
    requires Sane(h, col) && TableHasNoCollision(h, col, history) && DistinctIds(history)
    ensures Verifies(h, Replay(StoreOf(h, col), history), c) <==> Verifiable(StoreOf(h, col), history, c)
  {
    LogHashIsEntryDigest(h);
    NoCollisionDiscerns(h, col, history);
    ChainValidIff(StoreOf(h, col), history, c);
  }

  /** For the program's own entry hash: after any interleaving of recording transactions, the verifier
      accepts a case exactly when the case's entries were committed in time order, each timestamp was a
      whole number of microseconds and each actor was written as its column reads it back. */
  lemma RecordedChainVerifiesIff(h: Hasher, col: string -> Option<string>, steps: seq<Step>, c: UUID)
    requires Sane(h, col) && CanRun(StoreOf(h, col), START, steps)
    requires TableHasNoCollision(h, col, Run(StoreOf(h, col), START, steps).history)
    ensures var s := Run(StoreOf(h, col), START, steps); Verifies(h, s.rows, c) <==> Verifiable(StoreOf(h, col), s.history, c)
  {
    InterleavingIsSerial(StoreOf(h, col), steps);
    HistoryVerifiesIff(h, col, Run(StoreOf(h, col), START, steps).history, c);
  }

  /** An entry stamped off a whole microsecond breaks its case's chain for ever: the hash covers the
      nanoseconds, the stored row has lost them. */
  lemma NanosecondStampBreaksChain(h: Hasher, col: string -> Option<string>, history: seq<Event>, k: nat)
    requires Sane(h, col) && TableHasNoCollision(h, col, history) && DistinctIds(history)
    requires k < |history| && history[k].ts % 1_000 != 0
    ensures !Verifies(h, Replay(StoreOf(h, col), history), history[k].caseId)
  {
    HistoryVerifiesIff(h, col, history, history[k].caseId);
  }

  /** So does an entry committed after one of its case that its stamp does not exceed, as happens to an entry
      stamped before the lock but committed after a later-stamped one; */
  lemma LateCommitBreaksChain(h: Hasher, col: string -> Option<string>, history: seq<Event>, j: nat, k: nat)
    requires Sane(h, col) && TableHasNoCollision(h, col, history) && DistinctIds(history)
    requires j < k < |history| && history[j].caseId == history[k].caseId
    requires !Earlier(Micros(history[j]), Micros(history[k]))
    ensures !Verifies(h, Replay(StoreOf(h, col), history), history[k].caseId)
  {
    HistoryVerifiesIff(h, col, history, history[k].caseId);
  }

  /** and so does an entry whose actor reads back in another text, */
  lemma RewrittenActorBreaksChain(h: Hasher, col: string -> Option<string>, history: seq<Event>, k: nat)
    requires Sane(h, col) && TableHasNoCollision(h, col, history) && DistinctIds(history)
    requires k < |history| && col(history[k].actor).Some? && col(history[k].actor).value != history[k].actor
    ensures !Verifies(h, Replay(StoreOf(h, col), history), history[k].caseId)
  {
    HistoryVerifiesIff(h, col, history, history[k].caseId);
  }

  /** The column as the database reads UUIDs. */
  const ACTOR_COLUMN: string -> Option<string> := (s: string) => ReadBack(s)

  /** The program's texts and its actor column meet the premises. */
  lemma ProgramIsSane(h: Hasher)
    requires HexDigests(h) && h.text == STANDARD
    ensures Sane(h, ACTOR_COLUMN)
  {
    StandardIsFaithful();
    forall s ensures ACTOR_COLUMN(s).Some? ==> Free(s, '|') && Free(ACTOR_COLUMN(s).value, '|') {
      if ReadBack(s).Some? {
        AcceptedFree(s);
      }
    }
  }

  /** With the program's column that is any spelling but the canonical one, such as the braced form of a user's
      id: accepted, in order, on a whole microsecond, and broken. */
  lemma BracedActorBreaksChain(h: Hasher, e: Event, actor: string)
    requires Sane(h, ACTOR_COLUMN) && TableHasNoCollision(h, ACTOR_COLUMN, [e])
    requires IsCanonical(actor) && e.actor == "{" + actor + "}" && e.ts % 1_000 == 0
    ensures CommittedInOrder([e], e.caseId) && TimestampsKept([e], e.caseId) && ReadBack(e.actor) == Some(actor)
    ensures !Verifies(h, Replay(StoreOf(h, ACTOR_COLUMN), [e]), e.caseId)
  {
    BracesDropped(actor);
    RewrittenActorBreaksChain(h, ACTOR_COLUMN, [e], 0);
  }
}
