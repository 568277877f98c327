/** The custody log table. Appending one entry reads the last hash of its case and seals the entry
    with it; many transactions do so at once under a per-case lock. */
module CustodyLog {
  import opened Common
  import opened Texts
  import opened CustodyChain

  /** How entries are hashed, and what the actor column makes of a text: what it reads back as, or None if the
      column refuses it. */
  datatype Store = Store(digest: Digest, column: string -> Option<string>)
  {
    predicate Accepts(actor: string) { column(actor).Some? }

    function Column(actor: string): string {
      match column(actor)
      case None => actor
      case Some(t) => t
    }
  }

  /** The timestamp column has microsecond resolution. */
  function Micros(e: Event): Event { e.(ts := WholeMicros(e.ts)) }

  /** A row as the table keeps it. */
  function Stored(st: Store, e: Event): Event { Micros(e).(actor := st.Column(e.actor)) }

  /** Row order by (timestamp, id). */
  predicate Earlier(a: Event, b: Event) {
    a.ts < b.ts || (a.ts == b.ts && a.id < b.id)
  }

  /** The row of a case with the greatest (timestamp, id). */
  function LatestOf(rows: seq<Event>, c: UUID): Option<Event> {
    if rows == [] then None else
      var best := LatestOf(rows[..|rows| - 1], c);
      var last := rows[|rows| - 1];
      if last.caseId != c then best
      else if best.None? || Earlier(best.value, last) then Some(last)
      else best
  }

  lemma {:induction false} LatestIsMaximum(rows: seq<Event>, c: UUID)
    ensures var r := LatestOf(rows, c);
            && (r.Some? ==> r.value.caseId == c && exists i :: 0 <= i < |rows| && rows[i] == r.value)
            && (r.Some? ==> forall i | 0 <= i < |rows| && rows[i].caseId == c :: !Earlier(r.value, rows[i]))
            && (r.None? ==> forall i | 0 <= i < |rows| :: rows[i].caseId != c)
  {
    if rows != [] {
      LatestIsMaximum(rows[..|rows| - 1], c);
    }
  }

  function LastHash(rows: seq<Event>, c: UUID): string {
    match LatestOf(rows, c)
    case None => ""
    case Some(r) => r.hash
  }

  /** The row that recording e adds to the given committed rows. */
  function Seal(st: Store, rows: seq<Event>, e: Event): Event {
    var prev := LastHash(rows, e.caseId);
    Stored(st, e).(prev := prev, hash := st.digest(prev, e))
  }

  /** The table after recording a history of entries one at a time. */
  function Replay(st: Store, history: seq<Event>): (rows: seq<Event>)
    ensures |rows| == |history|
  {
    if history == [] then [] else
      var before := Replay(st, history[..|history| - 1]);
      before + [Seal(st, before, history[|history| - 1])]
  }

  lemma {:induction false} ReplayPrefix(st: Store, history: seq<Event>, k: nat)
    requires k <= |history|
    ensures Replay(st, history)[..k] == Replay(st, history[..k])
  {
    var n := |history| - 1;
    if k <= n {
      ReplayPrefix(st, history[..n], k);
      assert history[..n][..k] == history[..k];
      assert Replay(st, history)[..n] == Replay(st, history[..n]);
    } else {
      assert history[..k] == history;
    }
  }

  lemma ReplayLast(st: Store, before: seq<Event>, e: Event)
    ensures Replay(st, before + [e]) == Replay(st, before) + [Seal(st, Replay(st, before), e)]
  {
    assert (before + [e])[..|before|] == before;
  }

  lemma ReplayAtLast(st: Store, before: seq<Event>, e: Event, history: seq<Event>)
    requires history == before + [e]
    ensures Replay(st, history)[|before|] == Seal(st, Replay(st, before), e)
  {
    ReplayLast(st, before, e);
  }

  lemma PrefixAt(rows: seq<Event>, prefix: seq<Event>, k: nat)
    requires k < |rows| && rows[..k + 1] == prefix
    ensures k < |prefix| && rows[k] == prefix[k]
  {
  }

  lemma ReplayAt(st: Store, history: seq<Event>, k: nat)
    requires k < |history|
    ensures Replay(st, history)[k] == Seal(st, Replay(st, history[..k]), history[k])
  {
    var long := history[..k + 1];
    assert long == history[..k] + [history[k]];
    ReplayAtLast(st, history[..k], history[k], long);
    ReplayPrefix(st, history, k + 1);
    PrefixAt(Replay(st, history), Replay(st, long), k);
  }

  ghost predicate DistinctIds(events: seq<Event>) {
    forall i, j | 0 <= i < j < |events| :: events[i].id != events[j].id
  }

  // ---------------------------------------------------------------- listing a case in time order

  function CaseRows(rows: seq<Event>, c: UUID): seq<Event> {
    if rows == [] then [] else
      CaseRows(rows[..|rows| - 1], c) + if rows[|rows| - 1].caseId == c then [rows[|rows| - 1]] else []
  }

  ghost predicate ByTime(s: seq<Event>) {
    forall i, j | 0 <= i < j < |s| :: Earlier(s[i], s[j])
  }

  /** Where r belongs in time order, looking from the newest row back. */
  function Rank(s: seq<Event>, r: Event): (p: nat)
    ensures p <= |s|
    ensures p > 0 ==> Earlier(s[p - 1], r)
    ensures forall i | p <= i < |s| :: !Earlier(s[i], r)
  {
    if s == [] then 0
    else if Earlier(s[|s| - 1], r) then |s|
    else Rank(s[..|s| - 1], r)
  }

  function InsertByTime(s: seq<Event>, r: Event): seq<Event> {
    var p := Rank(s, r);
    s[..p] + [r] + s[p..]
  }

  /** The rows of a case, oldest first. */
  function SortedCase(rows: seq<Event>, c: UUID): seq<Event> {
    if rows == [] then [] else
      var s := SortedCase(rows[..|rows| - 1], c);
      var r := rows[|rows| - 1];
      if r.caseId == c then InsertByTime(s, r) else s
  }

  lemma InsertAdds(s: seq<Event>, r: Event)
    ensures multiset(InsertByTime(s, r)) == multiset(s + [r])
  {
    var p := Rank(s, r);
    assert s == s[..p] + s[p..];
  }

  lemma SameWithOneMore(s: seq<Event>, t: seq<Event>, r: Event)
    requires multiset(s) == multiset(t)
    ensures multiset(s + [r]) == multiset(t + [r])
  {
  }

  /** The listing holds each row of the case once. */
  lemma {:induction false} SortedIsPermutation(rows: seq<Event>, c: UUID)
    ensures multiset(SortedCase(rows, c)) == multiset(CaseRows(rows, c))
  {
    if rows != [] {
      var before, r := rows[..|rows| - 1], rows[|rows| - 1];
      SortedIsPermutation(before, c);
      if r.caseId == c {
        InsertAdds(SortedCase(before, c), r);
        SameWithOneMore(SortedCase(before, c), CaseRows(before, c), r);
      }
    }
  }

  lemma InsertMembers(s: seq<Event>, r: Event, x: Event)
    ensures x in InsertByTime(s, r) <==> x in s || x == r
  {
    var p := Rank(s, r);
    assert s == s[..p] + s[p..];
  }

  lemma {:induction false} SortedMembers(rows: seq<Event>, c: UUID, x: Event)
    ensures x in SortedCase(rows, c) <==> x in rows && x.caseId == c
  {
    if rows != [] {
      var before, r := rows[..|rows| - 1], rows[|rows| - 1];
      SortedMembers(before, c, x);
      assert rows == before + [r];
      InsertMembers(SortedCase(before, c), r, x);
    }
  }

  lemma InsertKeepsOrder(s: seq<Event>, r: Event)
    requires ByTime(s) && forall i | 0 <= i < |s| :: s[i].id != r.id
    ensures ByTime(InsertByTime(s, r))
  {
    var p, t := Rank(s, r), InsertByTime(s, r);
    forall i, j | 0 <= i < j < |t| ensures Earlier(t[i], t[j]) {
      var x := if i < p then t[i] else if i == p then r else s[i - 1];
      var y := if j < p then t[j] else if j == p then r else s[j - 1];
      if 0 < p {
        assert i < p - 1 ==> Earlier(s[i], s[p - 1]);
      }
      assert t[i] == x && t[j] == y;
    }
  }

  /** The listing is in strict time order. */
  lemma {:induction false} SortedByTime(rows: seq<Event>, c: UUID)
    requires DistinctIds(rows)
    ensures ByTime(SortedCase(rows, c))
  {
    if rows != [] {
      var before, r := rows[..|rows| - 1], rows[|rows| - 1];
      SortedByTime(before, c);
      var s := SortedCase(before, c);
      forall i | 0 <= i < |s| ensures s[i].id != r.id {
        SortedMembers(before, c, s[i]);
      }
      InsertKeepsOrder(s, r);
    }
  }
}
