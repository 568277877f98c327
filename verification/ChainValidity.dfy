/** When the verifier accepts a case's chain: exactly when the entries were committed in time order
    and their timestamps and actors survived storage as they were hashed. */
module ChainValidity {
  import opened Common
  import opened Texts
  import opened CustodyChain
  import opened CustodyLog

  /** Digests are never empty and do not depend on an entry's own chain fields. */
  ghost predicate EntryDigest(d: Digest) {
    && (forall p, e :: d(p, e) != "")
    && (forall p, e: Event, f: Event | e == f.(hash := e.hash, prev := e.prev) :: d(p, e) == d(p, f))
  }

  /** What a row of the table is, in terms of the entry recorded. */
  lemma RowFacts(st: Store, history: seq<Event>, k: nat)
    requires k < |history|
    ensures var r := Replay(st, history)[k];
            && r.id == history[k].id && r.caseId == history[k].caseId && r.action == history[k].action
            && r.ts == WholeMicros(history[k].ts) && r.actor == st.Column(history[k].actor)
            && r.prev == LastHash(Replay(st, history)[..k], r.caseId)
            && r.hash == st.digest(r.prev, history[k])
  {
    ReplayAt(st, history, k);
    ReplayPrefix(st, history, k);
  }

  lemma RowIdsDistinct(st: Store, history: seq<Event>)
    requires DistinctIds(history)
    ensures DistinctIds(Replay(st, history))
  {
    var rows := Replay(st, history);
    forall i, j | 0 <= i < j < |rows| ensures rows[i].id != rows[j].id {
      RowFacts(st, history, i);
      RowFacts(st, history, j);
    }
  }

  // ---------------------------------------------------------------- unconditional shape

  /** Whatever the timestamps, the rows of a case form a tree rooted at its first committed row:
      each row is hashed over its parent's hash, and only the first has no parent. */
  lemma CommittedRowsFormATree(st: Store, history: seq<Event>, k: nat)
    requires EntryDigest(st.digest) && k < |history|
    ensures var rows := Replay(st, history); var r := rows[k];
            && r.hash == st.digest(r.prev, history[k])
            && (r.prev == "" <==> forall j | 0 <= j < k :: rows[j].caseId != r.caseId)
            && (r.prev != "" ==> exists j :: 0 <= j < k && rows[j].caseId == r.caseId && rows[j].hash == r.prev)
  {
    var rows := Replay(st, history);
    RowFacts(st, history, k);
    LatestIsMaximum(rows[..k], rows[k].caseId);
    forall j | 0 <= j < k ensures rows[j].hash != "" && rows[..k][j] == rows[j] {
      RowFacts(st, history, j);
    }
  }

  /** When no digest contains the field separator, no stored previous hash does. */
  lemma PreviousHashFree(st: Store, history: seq<Event>, k: nat)
    requires EntryDigest(st.digest) && k < |history|
    requires forall p, e :: Free(st.digest(p, e), '|')
    ensures Free(Replay(st, history)[k].prev, '|')
  {
    CommittedRowsFormATree(st, history, k);
    var rows := Replay(st, history);
    if rows[k].prev != "" {
      var j :| 0 <= j < k && rows[j].hash == rows[k].prev;
      RowFacts(st, history, j);
    }
  }

  // ---------------------------------------------------------------- the exact condition

  /** Every entry of the case exceeds, by (timestamp, id) as stored, all entries committed before it. */
  ghost predicate CommittedInOrder(history: seq<Event>, c: UUID) {
    forall j, k | 0 <= j < k < |history| && history[j].caseId == c && history[k].caseId == c ::
      Earlier(Micros(history[j]), Micros(history[k]))
  }

  /** Every timestamp of the case is a whole number of microseconds. */
  ghost predicate TimestampsKept(history: seq<Event>, c: UUID) {
    forall k | 0 <= k < |history| && history[k].caseId == c :: history[k].ts % 1_000 == 0
  }

  /** Every actor of the case is written in the text its column reads back. */
  ghost predicate ActorsKept(st: Store, history: seq<Event>, c: UUID) {
    forall k | 0 <= k < |history| && history[k].caseId == c :: st.Column(history[k].actor) == history[k].actor
  }

  lemma LatestIsLastListed(rows: seq<Event>, c: UUID)
    requires DistinctIds(rows)
    ensures var s := SortedCase(rows, c);
            LatestOf(rows, c) == if s == [] then None else Some(s[|s| - 1])
  {
    var s := SortedCase(rows, c);
    SortedByTime(rows, c);
    LatestIsMaximum(rows, c);
    forall x ensures x in s <==> x in rows && x.caseId == c {
      SortedMembers(rows, c, x);
    }
    assert s != [] ==> s[0] in s && s[|s| - 1] in s;
    assert forall i | 0 <= i < |s| - 1 :: Earlier(s[i], s[|s| - 1]);
    if LatestOf(rows, c).Some? {
      var m := LatestOf(rows, c).value;
      assert m in s;
      var i :| 0 <= i < |s| && s[i] == m;
    }
  }

  /** Appending the next row of the case at the end keeps the listing intact. */
  lemma IntactExtends(st: Store, s: seq<Event>, r: Event)
    requires Intact(st.digest, s) && r.prev == PrevHash(s, |s|) && r.hash == st.digest(r.prev, r)
    ensures Intact(st.digest, s + [r])
  {
    var t := s + [r];
    forall i: nat | i < |t| ensures !HashFails(st.digest, t, i) && !LinkFails(t, i) {
      if i < |s| {
        assert !HashFails(st.digest, s, i) && !LinkFails(s, i);
        assert t[i] == s[i] && PrevHash(t, i) == PrevHash(s, i);
      } else {
        assert PrevHash(t, i) == PrevHash(s, |s|);
      }
    }
  }

  lemma {:induction false} IntactIfInOrder(st: Store, history: seq<Event>, c: UUID)
    requires EntryDigest(st.digest) && DistinctIds(history)
    requires CommittedInOrder(history, c) && TimestampsKept(history, c) && ActorsKept(st, history, c)
    ensures Intact(st.digest, SortedCase(Replay(st, history), c))
  {
    if history != [] {
      var n := |history| - 1;
      var before, e := history[..n], history[n];
      IntactIfInOrder(st, before, c);
      SortedExtends(st, history, c);
      if e.caseId == c {
        NextInOrder(st, history, c);
        var rows := Replay(st, before);
        KeptRowRehashes(st, rows, e);
        IntactExtends(st, SortedCase(rows, c), Seal(st, rows, e));
      }
    }
  }

  /** A row that storage did not change re-hashes to its stored hash. */
  lemma KeptRowRehashes(st: Store, rows: seq<Event>, e: Event)
    requires EntryDigest(st.digest) && WholeMicros(e.ts) == e.ts && st.Column(e.actor) == e.actor
    ensures var r := Seal(st, rows, e); r.hash == st.digest(r.prev, r)
  {
    var r := Seal(st, rows, e);
    assert r == e.(hash := r.hash, prev := r.prev);
    assert st.digest(r.prev, r) == st.digest(r.prev, e);
  }

  /** A row committed in order exceeds everything listed before it. */
  lemma LastListedIsEarlier(st: Store, history: seq<Event>, c: UUID, last: Event)
    requires history != [] && history[|history| - 1].caseId == c && CommittedInOrder(history, c)
    requires last in SortedCase(Replay(st, history[..|history| - 1]), c)
    ensures Earlier(last, Seal(st, Replay(st, history[..|history| - 1]), history[|history| - 1]))
  {
    var n := |history| - 1;
    var before, e := history[..n], history[n];
    var rows := Replay(st, before);
    SortedMembers(rows, c, last);
    var j :| 0 <= j < |rows| && rows[j] == last;
    RowFacts(st, before, j);
    assert Earlier(Micros(history[j]), Micros(e));
  }

  lemma InsertAtEnd(s: seq<Event>, r: Event)
    requires s != [] ==> Earlier(s[|s| - 1], r)
    ensures InsertByTime(s, r) == s + [r]
  {
    assert s[..|s|] + [r] + s[|s|..] == s + [r];
  }

  /** It goes to the end of the listing and is chained to the row before it. */
  lemma NextInOrder(st: Store, history: seq<Event>, c: UUID)
    requires DistinctIds(history) && history != [] && history[|history| - 1].caseId == c
    requires CommittedInOrder(history, c)
    ensures var rows := Replay(st, history[..|history| - 1]);
            var s := SortedCase(rows, c);
            var r := Seal(st, rows, history[|history| - 1]);
            InsertByTime(s, r) == s + [r] && r.prev == PrevHash(s, |s|)
  {
    var n := |history| - 1;
    var rows := Replay(st, history[..n]);
    var s, r := SortedCase(rows, c), Seal(st, rows, history[n]);
    RowIdsDistinct(st, history[..n]);
    LatestIsLastListed(rows, c);
    if s != [] {
      LastListedIsEarlier(st, history, c, s[|s| - 1]);
    }
    InsertAtEnd(s, r);
  }

  lemma SortedExtends(st: Store, history: seq<Event>, c: UUID)
    requires history != []
    ensures var n := |history| - 1; var rows := Replay(st, history[..n]); var r := Seal(st, rows, history[n]);
            SortedCase(Replay(st, history), c) ==
              if r.caseId == c then InsertByTime(SortedCase(rows, c), r) else SortedCase(rows, c)
  {
    var n := |history| - 1;
    var rows := Replay(st, history[..n]);
    assert (rows + [Seal(st, rows, history[n])])[..n] == rows;
  }

  /** No collision among the digests of the log: equal row hashes come from one entry, and a row that
      re-hashes to its stored hash kept its timestamp and its actor. */
  ghost predicate Discerns(st: Store, history: seq<Event>) {
    var rows := Replay(st, history);
    && (forall j, k | 0 <= j < |rows| && 0 <= k < |rows| :: rows[j].hash == rows[k].hash ==> rows[j].id == rows[k].id)
    && (forall k | 0 <= k < |rows| && rows[k].hash == st.digest(rows[k].prev, rows[k]) ::
         rows[k].ts == history[k].ts && rows[k].actor == history[k].actor)
  }

  /** The checks at the listed position of a committed row. */
  lemma ListedAt(st: Store, history: seq<Event>, c: UUID, k: nat) returns (i: nat)
    requires DistinctIds(history) && k < |history| && history[k].caseId == c
    requires Intact(st.digest, SortedCase(Replay(st, history), c))
    ensures var rows := Replay(st, history); var s := SortedCase(rows, c);
            && i < |s| && s[i] == rows[k] && rows[k].prev == PrevHash(s, i)
            && rows[k].hash == st.digest(rows[k].prev, rows[k])
  {
    var rows := Replay(st, history);
    RowFacts(st, history, k);
    SortedMembers(rows, c, rows[k]);
    var s := SortedCase(rows, c);
    i :| 0 <= i < |s| && s[i] == rows[k];
    assert !HashFails(st.digest, s, i) && !LinkFails(s, i);
  }

  /** The row that row k was chained to when it was committed: the greatest of its case so far. */
  lemma CommittedParent(st: Store, history: seq<Event>, c: UUID, j: nat, k: nat) returns (l: nat)
    requires EntryDigest(st.digest) && j < k < |history| && history[j].caseId == c && history[k].caseId == c
    ensures var rows := Replay(st, history);
            && l < k && rows[l].caseId == c && rows[k].prev == rows[l].hash && rows[k].prev != ""
            && !Earlier(rows[l], rows[j])
  {
    var rows := Replay(st, history);
    RowFacts(st, history, j);
    RowFacts(st, history, k);
    LatestIsMaximum(rows[..k], c);
    assert rows[..k][j] == rows[j];
    var m := LatestOf(rows[..k], c).value;
    l :| 0 <= l < k && rows[..k][l] == m;
    RowFacts(st, history, l);
  }

  /** In an intact listing a row comes right behind the row it was chained to. */
  lemma ListedBehindParent(st: Store, history: seq<Event>, c: UUID, l: nat, k: nat)
    requires EntryDigest(st.digest) && DistinctIds(history) && Discerns(st, history)
    requires Intact(st.digest, SortedCase(Replay(st, history), c)) && l < |history| && k < |history| && history[k].caseId == c
    requires Replay(st, history)[k].prev == Replay(st, history)[l].hash && Replay(st, history)[k].prev != ""
    ensures Earlier(Replay(st, history)[l], Replay(st, history)[k])
  {
    var rows := Replay(st, history);
    var s := SortedCase(rows, c);
    RowIdsDistinct(st, history);
    SortedByTime(rows, c);
    var i := ListedAt(st, history, c, k);
    SortedMembers(rows, c, s[i - 1]);
    var p :| 0 <= p < |rows| && rows[p] == s[i - 1];
    assert rows[p].hash == rows[l].hash;
    assert p == l;
  }

  lemma InOrderIfIntact(st: Store, history: seq<Event>, c: UUID, j: nat, k: nat)
    requires EntryDigest(st.digest) && DistinctIds(history) && Discerns(st, history)
    requires Intact(st.digest, SortedCase(Replay(st, history), c))
    requires j < k < |history| && history[j].caseId == c && history[k].caseId == c
    ensures Earlier(Micros(history[j]), Micros(history[k]))
  {
    RowFacts(st, history, j);
    RowFacts(st, history, k);
    var l := CommittedParent(st, history, c, j, k);
    ListedBehindParent(st, history, c, l, k);
  }

  /** The verifier accepts a case exactly when its entries were committed in stored time order, every
      timestamp was a whole number of microseconds and every actor was written in canonical form. */
  lemma ChainValidIff(st: Store, history: seq<Event>, c: UUID)
    requires EntryDigest(st.digest) && DistinctIds(history) && Discerns(st, history)
    ensures var s := SortedCase(Replay(st, history), c);
            BreaksIn(st.digest, s, |s|) == [] <==>
            CommittedInOrder(history, c) && TimestampsKept(history, c) && ActorsKept(st, history, c)
  {
    var s := SortedCase(Replay(st, history), c);
    NoBreaksIffIntact(st.digest, s, |s|);
    if CommittedInOrder(history, c) && TimestampsKept(history, c) && ActorsKept(st, history, c) {
      IntactIfInOrder(st, history, c);
    }
    if Intact(st.digest, s) {
      forall j, k | 0 <= j < k < |history| && history[j].caseId == c && history[k].caseId == c
        ensures Earlier(Micros(history[j]), Micros(history[k]))
      {
        InOrderIfIntact(st, history, c, j, k);
      }
      forall k | 0 <= k < |history| && history[k].caseId == c
        ensures WholeMicros(history[k].ts) == history[k].ts && st.Column(history[k].actor) == history[k].actor
      {
        var i := ListedAt(st, history, c, k);
        RowFacts(st, history, k);
      }
    }
  }
}
