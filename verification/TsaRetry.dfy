/** Retrying trusted timestamps: passes of the background job, of any number of instances, interleaved with
    uploads and destructions. A pass works only while it holds one advisory lock. */
module TsaRetry {
  import opened Common
  import opened HexCodec

  type Id = nat
  type Time = int

  /** 24 hours in nanoseconds, and how many items one pass takes. */
  const DAY := 86_400_000_000_000
  const BATCH := 50

  datatype Status = Pending | Stamped | Disabled | Failed

  datatype Row = Row(hash: Bytes, status: Status, retries: nat, token: Option<Bytes>, created: Time, destroyed: bool)

  /** What the authority answers. */
  datatype Answer = Refused | Issued(token: Option<Bytes>)

  /** The row an upload writes for a file with this digest. */
  function UploadedRow(digest: Bytes, answer: Answer, now: Time): Row {
    match answer
    case Refused => Row(HexEncode(digest), Pending, 0, None, now, false)
    case Issued(None) => Row(HexEncode(digest), Disabled, 0, None, now, false)
    case Issued(Some(token)) => Row(HexEncode(digest), Stamped, 0, Some(token), now, false)
  }

  // ---------------------------------------------------------------- one pass

  /** What a pass read of an item. */
  datatype Item = Item(id: Id, hash: Bytes, created: Time)

  predicate Eligible(rows: map<Id, Row>, id: Id, now: Time) {
    id in rows && rows[id].status == Pending && !rows[id].destroyed && now - rows[id].created < DAY
  }

  predicate Listed(items: seq<Item>, id: Id) { exists i :: 0 <= i < |items| && items[i].id == id }

  /** A result of the query for pending items: eligible rows, oldest first, no more than a batch, and none
      left out that is older than one taken. */
  ghost predicate PendingList(rows: map<Id, Row>, now: Time, items: seq<Item>) {
    && |items| <= BATCH
    && (forall i | 0 <= i < |items| ::
         Eligible(rows, items[i].id, now) && items[i].hash == rows[items[i].id].hash && items[i].created == rows[items[i].id].created)
    && (forall i, j | 0 <= i < j < |items| :: items[i].id != items[j].id && items[i].created <= items[j].created)
    && (forall id | Eligible(rows, id, now) && !Listed(items, id) ::
         |items| == BATCH && forall i | 0 <= i < |items| :: items[i].created <= rows[id].created)
  }

  function Ids(items: seq<Item>): set<Id> { set i | 0 <= i < |items| :: items[i].id }

  lemma {:induction false} IdsCounted(items: seq<Item>)
    requires forall i, j | 0 <= i < j < |items| :: items[i].id != items[j].id
    ensures |Ids(items)| == |items|
  {
    if items != [] {
      var n := |items| - 1;
      IdsCounted(items[..n]);
      assert Ids(items) == Ids(items[..n]) + {items[n].id};
    }
  }

  lemma SubsetCounted(a: set<Id>, b: set<Id>)
    requires a <= b
    ensures |a| <= |b|
  {
    assert b == a + (b - a);
  }

  /** So a pass takes the oldest fifty of the pending rows that are neither destroyed nor a day old, or all of them if
      there are fewer. */
  lemma PassTakesOldest(rows: map<Id, Row>, now: Time, items: seq<Item>)
    requires PendingList(rows, now, items)
    ensures var due := set id | id in rows && rows[id].status == Pending && !rows[id].destroyed
                                && now - rows[id].created < 86_400_000_000_000;
            && |items| == Min(50, |due|) && Ids(items) <= due
            && forall x, y | x in Ids(items) && y in due - Ids(items) :: rows[x].created <= rows[y].created
  {
    var due := set id | id in rows && rows[id].status == Pending && !rows[id].destroyed
                        && now - rows[id].created < 86_400_000_000_000;
    assert forall id :: id in due <==> Eligible(rows, id, now);
    IdsCounted(items);
    assert Ids(items) <= due;
    SubsetCounted(Ids(items), due);
    assert forall id | id in due - Ids(items) :: !Listed(items, id);
    if |items| < 50 {
      assert due == Ids(items);
    }
  }

  /** How one item is dealt with: the clock, the authority's answer and whether the row update succeeds. */
  datatype Luck = Luck(now: Time, answer: Answer, write: bool)

  /** What may still be taken to the authority: a row created no more than 24 hours ago with a hash of hex digits, an even
      number of them. */
  predicate Requestable(hash: Bytes, created: Time, now: Time) {
    now - created <= 86_400_000_000_000 && |hash| % 2 == 0 && forall i | 0 <= i < |hash| :: HexVal(hash[i]).Some?
  }

  /** Reaches the authority unless it is too old or its hash is no hex text. */
  predicate Attempts(item: Item, l: Luck) {
    l.now - item.created <= DAY && Decoded(item.hash).Some?
  }

  /** The row after its item has been dealt with. */
  function Handled(row: Row, item: Item, l: Luck): Row {
    if !l.write then row
    else if !Attempts(item, l) then row.(status := Failed)
    else if l.answer.Refused? then row.(retries := row.retries + 1)
    else row.(status := Stamped, token := l.answer.token)
  }

  /** One request to the authority, its answer, and whether what followed from it was written. */
  datatype Attempt = Attempt(id: Id, digest: Bytes, answer: Answer, written: bool)

  function AttemptOf(item: Item, l: Luck): seq<Attempt> {
    if Attempts(item, l) then [Attempt(item.id, Decoded(item.hash).value, l.answer, l.write)] else []
  }

  function HandleOne(rows: map<Id, Row>, item: Item, l: Luck): map<Id, Row> {
    if item.id in rows then rows[item.id := Handled(rows[item.id], item, l)] else rows
  }

  /** The rows and the requests after the first k items. */
  function HandleFirst(rows: map<Id, Row>, items: seq<Item>, luck: seq<Luck>, k: nat): map<Id, Row>
    requires k <= |items| == |luck|
  {
    if k == 0 then rows else HandleOne(HandleFirst(rows, items, luck, k - 1), items[k - 1], luck[k - 1])
  }

  function AttemptsFirst(items: seq<Item>, luck: seq<Luck>, k: nat): seq<Attempt>
    requires k <= |items| == |luck|
  {
    if k == 0 then [] else AttemptsFirst(items, luck, k - 1) + AttemptOf(items[k - 1], luck[k - 1])
  }

  class RetryJob {
    var rows: map<Id, Row>
    var locked: bool
    ghost var requests: seq<Attempt>

    constructor (rows: map<Id, Row>)
      ensures this.rows == rows && !locked && requests == []
    {
      this.rows, locked := rows, false;
      requests := [];
    }

    method MarkFailed(id: Id, write: bool)
      modifies this`rows
      ensures rows == if id in old(rows) && write then old(rows)[id := old(rows)[id].(status := Failed)] else old(rows)
    {
      if id in rows && write {
        rows := rows[id := rows[id].(status := Failed)];
      }
    }

    method IncrementRetry(id: Id, write: bool)
      modifies this`rows
      ensures rows == if id in old(rows) && write
                      then old(rows)[id := old(rows)[id].(retries := old(rows)[id].retries + 1)] else old(rows)
    {
      if id in rows && write {
        rows := rows[id := rows[id].(retries := rows[id].retries + 1)];
      }
    }

    method UpdateResult(id: Id, token: Option<Bytes>, write: bool)
      modifies this`rows
      ensures rows == if id in old(rows) && write
                      then old(rows)[id := old(rows)[id].(status := Stamped, token := token)] else old(rows)
    {
      if id in rows && write {
        rows := rows[id := rows[id].(status := Stamped, token := token)];
      }
    }

    method Issue(id: Id, digest: Bytes, l: Luck) returns (answer: Answer)
      modifies this`requests
      ensures requests == old(requests) + [Attempt(id, digest, l.answer, l.write)] && answer == l.answer
    {
      requests := requests + [Attempt(id, digest, l.answer, l.write)];
      answer := l.answer;
    }

    method ProcessItem(item: Item, l: Luck)
      modifies this`rows, this`requests
      ensures rows == HandleOne(old(rows), item, l)
      ensures requests == old(requests) + AttemptOf(item, l)
      ensures rows == if item.id !in old(rows) || !l.write then old(rows) else
                        var row := old(rows)[item.id];
                        if !Requestable(item.hash, item.created, l.now) then old(rows)[item.id := row.(status := Failed)]
                        else if l.answer.Refused? then old(rows)[item.id := row.(retries := row.retries + 1)]
                        else old(rows)[item.id := row.(status := Stamped, token := l.answer.token)]
    {
      if l.now - item.created > DAY {
        MarkFailed(item.id, l.write);
        return;
      }
      var digest := HexToBytes(item.hash);
      if digest.None? {
        MarkFailed(item.id, l.write);
        return;
      }
      var answer := Issue(item.id, digest.value, l);
      if answer.Refused? {
        IncrementRetry(item.id, l.write);
        return;
      }
      UpdateResult(item.id, answer.token, l.write);
    }

    /** One pass: nothing happens unless the lock is free; then the listed items are dealt with in order,
        up to a cancellation after `stop` of them, and the lock is released if that call succeeds. */
    method RunOnce(listing: Option<seq<Item>>, luck: seq<Luck>, stop: nat, released: bool)
      requires listing.Some? ==> |luck| == |listing.value|
      modifies this
      ensures locked <==> old(locked) || !released
      ensures old(locked) || listing.None? ==> rows == old(rows) && requests == old(requests)
      ensures !old(locked) && listing.Some? ==>
                var n := Min(stop, |luck|);
                && rows == HandleFirst(old(rows), listing.value, luck, n)
                && requests == old(requests) + AttemptsFirst(listing.value, luck, n)
    {
      if locked {
        return;
      }
      locked := true;
      if listing.Some? {
        var items, i := listing.value, 0;
        while i < |items|
          invariant 0 <= i <= Min(stop, |luck|)
          invariant locked && rows == HandleFirst(old(rows), items, luck, i)
          invariant requests == old(requests) + AttemptsFirst(items, luck, i)
        {
          if i == stop {
            break;
          }
          ProcessItem(items[i], luck[i]);
          i := i + 1;
        }
      }
      if released {
        locked := false;
      }
    }
  }

  // ---------------------------------------------------------------- any number of instances

  /** A pass: started, holding the lock; with its remaining items; over. */
  datatype Pass = Started | Working(items: seq<Item>) | PassOver

  datatype State = State(rows: map<Id, Row>, lock: Option<nat>, passes: map<nat, Pass>, requests: seq<Attempt>)

  const START := State(map[], None, map[], [])

  datatype Step =
    | AddRow(id: Id, row: Row)
    | DestroyRow(id: Id)
    | TryLock(p: nat)
    | Find(p: nat, now: Time, items: seq<Item>, ok: bool)
    | Process(p: nat, l: Luck)
    /** A pass ends, was cancelled or died; its lock may even fail to be released. */
    | End(p: nat, released: bool)

  ghost predicate Enabled(s: State, step: Step) {
    match step
    case AddRow(id, row) => id !in s.rows && row.retries == 0
    case DestroyRow(id) => id in s.rows
    case TryLock(p) => p !in s.passes
    case Find(p, now, items, ok) => p in s.passes && s.passes[p].Started? && (ok ==> PendingList(s.rows, now, items))
    case Process(p, _) => p in s.passes && s.passes[p].Working? && s.passes[p].items != []
    case End(p, _) => p in s.passes && !s.passes[p].PassOver?
  }

  function Apply(s: State, step: Step): State
    requires Enabled(s, step)
  {
    match step
    case AddRow(id, row) => s.(rows := s.rows[id := row])
    case DestroyRow(id) => s.(rows := s.rows[id := s.rows[id].(destroyed := true)])
    case TryLock(p) =>
      if s.lock.None? then s.(lock := Some(p), passes := s.passes[p := Started]) else s.(passes := s.passes[p := PassOver])
    case Find(p, _, items, ok) =>
      if ok then s.(passes := s.passes[p := Working(items)]) else s
    case Process(p, l) =>
      var items := s.passes[p].items;
      s.(rows := HandleOne(s.rows, items[0], l), passes := s.passes[p := Working(items[1..])],
         requests := s.requests + AttemptOf(items[0], l))
    case End(p, released) =>
      s.(lock := if released then None else s.lock, passes := s.passes[p := PassOver])
  }

  ghost predicate CanRun(s: State, steps: seq<Step>)
    decreases |steps|
  {
    steps == [] || (Enabled(s, steps[0]) && CanRun(Apply(s, steps[0]), steps[1..]))
  }

  ghost function Run(s: State, steps: seq<Step>): State
    requires CanRun(s, steps)
    decreases |steps|
  {
    if steps == [] then s else Run(Apply(s, steps[0]), steps[1..])
  }

  lemma {:induction false} RunThen(s: State, steps: seq<Step>, step: Step)
    requires CanRun(s, steps) && Enabled(Run(s, steps), step)
    ensures CanRun(s, steps + [step]) && Run(s, steps + [step]) == Apply(Run(s, steps), step)
    decreases |steps|
  {
    if steps == [] {
      assert [step][1..] == [];
    } else {
      RunThen(Apply(s, steps[0]), steps[1..], step);
      assert (steps + [step])[1..] == steps[1..] + [step];
    }
  }

  /** The steps of a pass up to its k-th item. */
  function PassSteps(p: nat, now: Time, items: seq<Item>, luck: seq<Luck>, k: nat): seq<Step>
    requires k <= |items| == |luck|
  {
    if k == 0 then [TryLock(p), Find(p, now, items, true)]
    else PassSteps(p, now, items, luck, k - 1) + [Process(p, luck[k - 1])]
  }

  /** A pass that has dealt with the first k items. */
  function Within(s: State, p: nat, items: seq<Item>, luck: seq<Luck>, k: nat): State
    requires k <= |items| == |luck|
  {
    State(HandleFirst(s.rows, items, luck, k), Some(p), s.passes[p := Working(items[k..])],
          s.requests + AttemptsFirst(items, luck, k))
  }

  lemma ProcessNext(s: State, p: nat, items: seq<Item>, luck: seq<Luck>, k: nat)
    requires 0 < k <= |items| == |luck|
    ensures Enabled(Within(s, p, items, luck, k - 1), Process(p, luck[k - 1]))
    ensures Apply(Within(s, p, items, luck, k - 1), Process(p, luck[k - 1])) == Within(s, p, items, luck, k)
  {
    assert items[k - 1..][1..] == items[k..];
    assert s.passes[p := Working(items[k - 1..])][p := Working(items[k..])] == s.passes[p := Working(items[k..])];
  }

  /** A pass of RetryJob is a run of such steps: same rows and same requests, with the lock still held before
      its End. */
  lemma {:induction false} PassIsRun(s: State, p: nat, now: Time, items: seq<Item>, luck: seq<Luck>, k: nat)
    requires k <= |items| == |luck|
    requires s.lock.None? && p !in s.passes && PendingList(s.rows, now, items)
    ensures CanRun(s, PassSteps(p, now, items, luck, k))
    ensures Run(s, PassSteps(p, now, items, luck, k))
         == State(HandleFirst(s.rows, items, luck, k), Some(p), s.passes[p := Working(items[k..])],
                  s.requests + AttemptsFirst(items, luck, k))
  {
    if k == 0 {
      RunThen(s, [], TryLock(p));
      RunThen(s, [TryLock(p)], Find(p, now, items, true));
      assert [TryLock(p)] + [Find(p, now, items, true)] == PassSteps(p, now, items, luck, 0);
      assert [] + [TryLock(p)] == [TryLock(p)];
      assert s.passes[p := Started][p := Working(items)] == s.passes[p := Working(items)];
    } else {
      PassIsRun(s, p, now, items, luck, k - 1);
      ProcessNext(s, p, items, luck, k);
      RunThen(s, PassSteps(p, now, items, luck, k - 1), Process(p, luck[k - 1]));
    }
  }

  /** With its End, whether after the last item or a cancellation, the lock is free again unless releasing it
      fails. */
  lemma PassEnds(s: State, p: nat, now: Time, items: seq<Item>, luck: seq<Luck>, k: nat, released: bool)
    requires k <= |items| == |luck|
    requires s.lock.None? && p !in s.passes && PendingList(s.rows, now, items)
    ensures var steps := PassSteps(p, now, items, luck, k) + [End(p, released)];
            && CanRun(s, steps) && Run(s, steps).rows == HandleFirst(s.rows, items, luck, k)
            && Run(s, steps).requests == s.requests + AttemptsFirst(items, luck, k)
            && Run(s, steps).lock == if released then None else Some(p)
  {
    PassIsRun(s, p, now, items, luck, k);
    RunThen(s, PassSteps(p, now, items, luck, k), End(p, released));
  }

  // ---------------------------------------------------------------- invariants

  /** Whoever is at work holds the lock. */
  ghost predicate LockHeld(s: State) {
    forall p | p in s.passes && !s.passes[p].PassOver? :: s.lock == Some(p)
  }

  /** The remaining items of a pass are different rows, still pending, as they were read. */
  ghost predicate RemainingPending(s: State) {
    forall p | p in s.passes && s.passes[p].Working? :: ItemsPending(s.rows, s.passes[p].items)
  }

  ghost predicate ItemsPending(rows: map<Id, Row>, items: seq<Item>) {
    && (forall i | 0 <= i < |items| ::
         && items[i].id in rows && rows[items[i].id].status == Pending
         && rows[items[i].id].hash == items[i].hash && rows[items[i].id].created == items[i].created)
    && (forall i, j | 0 <= i < j < |items| :: items[i].id != items[j].id)
  }

  /** Failed requests for an item whose count was written. */
  function Failures(requests: seq<Attempt>, id: Id): nat {
    if requests == [] then 0 else
      var last := requests[|requests| - 1];
      Failures(requests[..|requests| - 1], id) + if last.id == id && last.answer.Refused? && last.written then 1 else 0
  }

  ghost predicate RetriesCounted(s: State) {
    && (forall id | id in s.rows :: s.rows[id].retries == Failures(s.requests, id))
    && (forall i | 0 <= i < |s.requests| :: s.requests[i].id in s.rows)
  }

  /** Every request was for the bytes its row's hash stands for. */
  ghost predicate RequestsTrue(s: State) {
    forall i | 0 <= i < |s.requests| ::
      s.requests[i].id in s.rows && Decoded(s.rows[s.requests[i].id].hash) == Some(s.requests[i].digest)
  }

  ghost predicate Inv(s: State) {
    LockHeld(s) && RemainingPending(s) && RetriesCounted(s) && RequestsTrue(s)
  }

  lemma LockHeldKept(s: State, step: Step)
    requires LockHeld(s) && Enabled(s, step)
    ensures LockHeld(Apply(s, step))
  {
  }

  lemma ItemsStayPending(rows: map<Id, Row>, rows': map<Id, Row>, items: seq<Item>)
    requires ItemsPending(rows, items)
    requires forall id | id in rows && Listed(items, id) ::
               && id in rows' && rows'[id].status == rows[id].status
               && rows'[id].hash == rows[id].hash && rows'[id].created == rows[id].created
    ensures ItemsPending(rows', items)
  {
    forall i | 0 <= i < |items| ensures items[i].id in rows' && rows'[items[i].id].status == Pending {
      assert Listed(items, items[i].id);
    }
  }

  lemma RemainingPendingKept(s: State, step: Step)
    requires LockHeld(s) && RemainingPending(s) && Enabled(s, step)
    ensures RemainingPending(Apply(s, step))
  {
    var s' := Apply(s, step);
    forall p | p in s'.passes && s'.passes[p].Working? ensures ItemsPending(s'.rows, s'.passes[p].items) {
      if step.Process? {
        assert p == step.p;
        var items := s.passes[p].items;
        assert ItemsPending(s.rows, items);
        assert forall i | 0 <= i < |items[1..]| :: items[1..][i].id != items[0].id;
        ItemsStayPending(s.rows, s'.rows, items[1..]);
      } else if step.Find? && step.p == p {
      } else {
        ItemsStayPending(s.rows, s'.rows, s.passes[p].items);
      }
    }
  }

  lemma OneMoreRequest(requests: seq<Attempt>, a: Attempt, id: Id)
    ensures Failures(requests + [a], id) == Failures(requests, id) + if a.id == id && a.answer.Refused? && a.written then 1 else 0
  {
    assert (requests + [a])[..|requests|] == requests;
  }

  lemma {:induction false} NoFailures(requests: seq<Attempt>, id: Id)
    requires forall i | 0 <= i < |requests| :: requests[i].id != id
    ensures Failures(requests, id) == 0
  {
    if requests != [] {
      NoFailures(requests[..|requests| - 1], id);
    }
  }

  /** Dealing with an item keeps the counts. */
  lemma HandledCounted(row: Row, requests: seq<Attempt>, item: Item, l: Luck, id: Id)
    requires row.retries == Failures(requests, id)
    ensures (if id == item.id then Handled(row, item, l) else row).retries == Failures(requests + AttemptOf(item, l), id)
  {
    if Attempts(item, l) {
      OneMoreRequest(requests, AttemptOf(item, l)[0], id);
    } else {
      assert requests + AttemptOf(item, l) == requests;
    }
  }

  lemma RetriesCountedKept(s: State, step: Step)
    requires RemainingPending(s) && RetriesCounted(s) && Enabled(s, step)
    ensures RetriesCounted(Apply(s, step))
  {
    if step.AddRow? {
      NoFailures(s.requests, step.id);
    } else if step.Process? {
      var item := s.passes[step.p].items[0];
      assert ItemsPending(s.rows, s.passes[step.p].items);
      forall id | id in s.rows ensures Apply(s, step).rows[id].retries == Failures(Apply(s, step).requests, id) {
        HandledCounted(s.rows[id], s.requests, item, step.l, id);
      }
    }
  }

  lemma RequestsTrueKept(s: State, step: Step)
    requires RemainingPending(s) && RequestsTrue(s) && Enabled(s, step)
    ensures RequestsTrue(Apply(s, step))
  {
    if step.Process? {
      assert ItemsPending(s.rows, s.passes[step.p].items);
    }
  }

  lemma StepKeepsInv(s: State, step: Step)
    requires Inv(s) && Enabled(s, step)
    ensures Inv(Apply(s, step))
  {
    LockHeldKept(s, step);
    RemainingPendingKept(s, step);
    RetriesCountedKept(s, step);
    RequestsTrueKept(s, step);
  }

  lemma {:induction false} RunKeepsInv(s: State, steps: seq<Step>)
    requires Inv(s) && CanRun(s, steps)
    ensures Inv(Run(s, steps))
    decreases |steps|
  {
    if steps != [] {
      StepKeepsInv(s, steps[0]);
      RunKeepsInv(Apply(s, steps[0]), steps[1..]);
    }
  }

  // ---------------------------------------------------------------- main results

  /** A step changes a status only from pending, and then to stamped or failed; hash and age never change. */
  lemma StatusLeavesPendingOnce(s: State, step: Step, id: Id)
    requires Inv(s) && Enabled(s, step) && id in s.rows
    ensures id in Apply(s, step).rows
    ensures var row, row' := s.rows[id], Apply(s, step).rows[id];
            && row'.hash == row.hash && row'.created == row.created
            && (row'.status == row.status || (row.status == Pending && (row'.status == Stamped || row'.status == Failed)))
            && (row.status != Pending ==> row'.token == row.token && row'.retries == row.retries)
  {
    if step.Process? {
      assert ItemsPending(s.rows, s.passes[step.p].items);
    }
  }

  /** Whatever the passes, uploads and destructions do, a row that is not pending keeps its status, token
      and retry count for ever. */
  lemma {:induction false} DecidedForEver(s: State, steps: seq<Step>, id: Id)
    requires Inv(s) && CanRun(s, steps) && id in s.rows
    ensures id in Run(s, steps).rows && Run(s, steps).rows[id].hash == s.rows[id].hash
    ensures var row, row' := s.rows[id], Run(s, steps).rows[id];
            row.status != Pending ==> row'.status == row.status && row'.token == row.token && row'.retries == row.retries
    decreases |steps|
  {
    if steps != [] {
      StepKeepsInv(s, steps[0]);
      StatusLeavesPendingOnce(s, steps[0], id);
      DecidedForEver(Apply(s, steps[0]), steps[1..], id);
    }
  }

  /** After any run from the start: a row's retry count is the number of its failed requests whose count was
      written, and every request carried the bytes its hash text encodes. */
  lemma RetriesAndDigests(steps: seq<Step>)
    requires CanRun(START, steps)
    ensures var s := Run(START, steps);
            && (forall id | id in s.rows :: s.rows[id].retries == Failures(s.requests, id))
            && (forall i | 0 <= i < |s.requests| :: s.requests[i].id in s.rows)
            && (forall i, digest | 0 <= i < |s.requests| && s.rows[s.requests[i].id].hash == HexEncode(digest) ::
                 s.requests[i].digest == digest)
  {
    RunKeepsInv(START, steps);
    var s := Run(START, steps);
    forall i, digest | 0 <= i < |s.requests| && s.rows[s.requests[i].id].hash == HexEncode(digest)
      ensures s.requests[i].digest == digest
    {
      DecodeEncode(digest);
    }
  }

  lemma StepRequestsOther(s: State, step: Step, id: Id)
    requires Inv(s) && Enabled(s, step) && id in s.rows && s.rows[id].status != Pending
    ensures s.requests <= Apply(s, step).requests
    ensures forall i | |s.requests| <= i < |Apply(s, step).requests| :: Apply(s, step).requests[i].id != id
  {
    if step.Process? {
      assert ItemsPending(s.rows, s.passes[step.p].items);
    }
  }

  /** A row that is not pending is never taken to the authority again. */
  lemma {:induction false} DecidedNeverRequested(s: State, steps: seq<Step>, id: Id)
    requires Inv(s) && CanRun(s, steps) && id in s.rows && s.rows[id].status != Pending
    ensures |s.requests| <= |Run(s, steps).requests|
    ensures forall i | |s.requests| <= i < |Run(s, steps).requests| :: Run(s, steps).requests[i].id != id
    decreases |steps|
  {
    if steps != [] {
      var s1 := Apply(s, steps[0]);
      StepKeepsInv(s, steps[0]);
      StatusLeavesPendingOnce(s, steps[0], id);
      StepRequestsOther(s, steps[0], id);
      EarlierRequestsStay(s1, steps[1..]);
      DecidedNeverRequested(s1, steps[1..], id);
    }
  }

  lemma {:induction false} EarlierRequestsStay(s: State, steps: seq<Step>)
    requires CanRun(s, steps)
    ensures s.requests <= Run(s, steps).requests
    decreases |steps|
  {
    if steps != [] {
      EarlierRequestsStay(Apply(s, steps[0]), steps[1..]);
    }
  }

  /** What becomes of an upload: it is retried only if the authority refused it at first, and every later
      request for it is for the digest that was uploaded. */
  lemma UploadIsRetriedTruly(s: State, id: Id, digest: Bytes, answer: Answer, now: Time, steps: seq<Step>)
    requires Inv(s) && id !in s.rows
    requires CanRun(Apply(s, AddRow(id, UploadedRow(digest, answer, now))), steps)
    ensures var s' := Run(Apply(s, AddRow(id, UploadedRow(digest, answer, now))), steps);
            forall i | 0 <= i < |s'.requests| && s'.requests[i].id == id ::
              answer.Refused? && s'.requests[i].digest == digest
  {
    var add := AddRow(id, UploadedRow(digest, answer, now));
    var s1 := Apply(s, add);
    StepKeepsInv(s, add);
    RunKeepsInv(s1, steps);
    DecidedForEver(s1, steps, id);
    EarlierRequestsStay(s1, steps);
    DecodeEncode(digest);
    if !answer.Refused? {
      DecidedNeverRequested(s1, steps, id);
    }
  }

  // ---------------------------------------------------------------- what becomes of an item

  /** How an item ends: marked failed, or stamped with what the authority issued. */
  datatype Fate = Fails | Stamps(token: Option<Bytes>)

  predicate Met(row: Row, fate: Fate) {
    match fate
    case Fails => row.status == Failed
    case Stamps(token) => row.status == Stamped && row.token == token
  }

  /** The step is the one that deals with this row. */
  predicate DealsWith(s: State, step: Step, id: Id) {
    step.Process? && step.p in s.passes && s.passes[step.p].Working? && s.passes[step.p].items != []
    && s.passes[step.p].items[0].id == id
  }

  /** The step brings the fate about: failure of a row that is no longer requestable, of the others a stamp that is the
      authority's answer. */
  predicate EndsBy(s: State, step: Step, id: Id, fate: Fate)
    requires id in s.rows
  {
    DealsWith(s, step, id) && step.l.write &&
    match fate
    case Fails => !Requestable(s.rows[id].hash, s.rows[id].created, step.l.now)
    case Stamps(token) => Requestable(s.rows[id].hash, s.rows[id].created, step.l.now) && step.l.answer == Issued(token)
  }

  ghost predicate NotTaken(s: State, id: Id) {
    forall p | p in s.passes && s.passes[p].Working? :: !Listed(s.passes[p].items, id)
  }

  /** The step lists the row for a pass, which it does only within a day. */
  ghost predicate TakesBy(s: State, step: Step, id: Id)
    requires id in s.rows
  {
    step.Find? && step.ok && Listed(step.items, id) && step.now - s.rows[id].created < 86_400_000_000_000
  }

  lemma HeadIsRow(s: State, step: Step, id: Id)
    requires Inv(s) && Enabled(s, step) && DealsWith(s, step, id)
    ensures var item := s.passes[step.p].items[0];
            id in s.rows && s.rows[id].status == Pending && item.hash == s.rows[id].hash && item.created == s.rows[id].created
    ensures var item := s.passes[step.p].items[0]; Requestable(s.rows[id].hash, s.rows[id].created, step.l.now) <==> Attempts(item, step.l)
  {
    assert ItemsPending(s.rows, s.passes[step.p].items);
  }

  /** Each fate of a pending row is brought about by exactly such a step. */
  lemma EndedByIff(s: State, step: Step, id: Id, fate: Fate)
    requires Inv(s) && Enabled(s, step) && id in s.rows && s.rows[id].status == Pending
    ensures id in Apply(s, step).rows && (Met(Apply(s, step).rows[id], fate) <==> EndsBy(s, step, id, fate))
  {
    if DealsWith(s, step, id) {
      HeadIsRow(s, step, id);
    }
  }

  /** A pending row becomes failed by exactly a step that deals with it too late, or undecodable, and is written. */
  lemma FailedByIff(s: State, step: Step, id: Id)
    requires Inv(s) && Enabled(s, step) && id in s.rows && s.rows[id].status == Pending
    ensures id in Apply(s, step).rows
    ensures Apply(s, step).rows[id].status == Failed <==>
            DealsWith(s, step, id) && step.l.write && !Requestable(s.rows[id].hash, s.rows[id].created, step.l.now)
  {
    EndedByIff(s, step, id, Fails);
  }

  /** It becomes stamped by exactly a step that deals with it while requestable, is answered, and is written; then it
      holds the token of that answer, which was given to a request for the bytes its hash stands for. */
  lemma StampedByIff(s: State, step: Step, id: Id)
    requires Inv(s) && Enabled(s, step) && id in s.rows && s.rows[id].status == Pending
    ensures id in Apply(s, step).rows
    ensures Apply(s, step).rows[id].status == Stamped <==>
            DealsWith(s, step, id) && step.l.write && Requestable(s.rows[id].hash, s.rows[id].created, step.l.now) && step.l.answer.Issued?
    ensures Apply(s, step).rows[id].status == Stamped ==>
              && Apply(s, step).rows[id] == s.rows[id].(status := Stamped, token := step.l.answer.token)
              && Decodable(s.rows[id].hash)
              && Apply(s, step).requests == s.requests + [Attempt(id, Decoded(s.rows[id].hash).value, step.l.answer, true)]
  {
    if DealsWith(s, step, id) {
      HeadIsRow(s, step, id);
    }
  }

  /** It stays pending and gets one more retry by exactly a step that deals with it while requestable, is refused, and
      is written. */
  lemma RetriedByIff(s: State, step: Step, id: Id)
    requires Inv(s) && Enabled(s, step) && id in s.rows && s.rows[id].status == Pending
    ensures id in Apply(s, step).rows
    ensures Apply(s, step).rows[id].retries ==
            s.rows[id].retries
            + if DealsWith(s, step, id) && Requestable(s.rows[id].hash, s.rows[id].created, step.l.now)
                 && step.l.answer.Refused? && step.l.write then 1 else 0
  {
    if DealsWith(s, step, id) {
      HeadIsRow(s, step, id);
    }
  }

  /** The authority is asked by exactly a step that deals with a requestable row, and for the bytes its hash stands
      for. */
  lemma RequestedByIff(s: State, step: Step, id: Id)
    requires Inv(s) && Enabled(s, step) && id in s.rows && DealsWith(s, step, id)
    ensures Apply(s, step).requests ==
            if Requestable(s.rows[id].hash, s.rows[id].created, step.l.now)
            then s.requests + [Attempt(id, Decoded(s.rows[id].hash).value, step.l.answer, step.l.write)] else s.requests
  {
    HeadIsRow(s, step, id);
  }

  lemma {:induction false} HandledOthers(rows: map<Id, Row>, items: seq<Item>, luck: seq<Luck>, n: nat, id: Id)
    requires n <= |items| == |luck| && forall i | 0 <= i < n :: items[i].id != id
    ensures (id in rows <==> id in HandleFirst(rows, items, luck, n))
    ensures id in rows ==> HandleFirst(rows, items, luck, n)[id] == rows[id]
  {
    if n > 0 {
      HandledOthers(rows, items, luck, n - 1, id);
    }
  }

  /** A pass that gets through n items: of the listed rows exactly those among them that are requestable, answered and
      written hold the token of their own answer, and exactly those no longer requestable and written are failed. */
  lemma {:induction false} PassOutcome(rows: map<Id, Row>, items: seq<Item>, luck: seq<Luck>, n: nat, k: nat)
    requires n <= |items| == |luck| && k < |items| && ItemsPending(rows, items)
    ensures var id := items[k].id; var rows' := HandleFirst(rows, items, luck, n);
            && id in rows'
            && (rows'[id].status == Stamped <==>
                  && k < n && luck[k].write && Requestable(rows[id].hash, rows[id].created, luck[k].now)
                  && luck[k].answer.Issued?)
            && (rows'[id].status == Stamped ==> rows'[id].token == luck[k].answer.token)
            && (rows'[id].status == Failed <==>
                  k < n && luck[k].write && !Requestable(rows[id].hash, rows[id].created, luck[k].now))
  {
    var id := items[k].id;
    if n <= k {
      HandledOthers(rows, items, luck, n, id);
    } else if k < n - 1 {
      assert items[k].id != items[n - 1].id;
      PassOutcome(rows, items, luck, n - 1, k);
    } else {
      HandledOthers(rows, items, luck, k, id);
      assert HandleFirst(rows, items, luck, n)[id] == Handled(rows[id], items[k], luck[k]);
      assert Attempts(items[k], luck[k]) <==> Requestable(rows[id].hash, rows[id].created, luck[k].now);
    }
  }

  /** A row no pass has taken is untouched and stays untaken, unless the step takes it. */
  lemma UntakenStays(s: State, step: Step, id: Id)
    requires Inv(s) && Enabled(s, step) && id in s.rows && NotTaken(s, id) && !TakesBy(s, step, id)
    ensures NotTaken(Apply(s, step), id) && id in Apply(s, step).rows
    ensures Apply(s, step).rows[id].status == s.rows[id].status && Apply(s, step).rows[id].created == s.rows[id].created
  {
    if step.Process? {
      var items := s.passes[step.p].items;
      assert items[0].id != id by { assert items[0].id == id ==> Listed(items, id); }
      assert forall i | 0 <= i < |items[1..]| :: items[1..][i] == items[i + 1];
      assert !Listed(items[1..], id);
    }
  }

  /** Some step of the run brings the fate about. */
  ghost predicate EndsIn(s: State, steps: seq<Step>, id: Id, fate: Fate)
    requires CanRun(s, steps)
    decreases |steps|
  {
    && steps != [] && id in s.rows
    && (EndsBy(s, steps[0], id, fate) || EndsIn(Apply(s, steps[0]), steps[1..], id, fate))
  }

  /** A pass lists the row within a day of its creation, and after that a step brings the fate about. */
  ghost predicate TakenThenEnds(s: State, steps: seq<Step>, id: Id, fate: Fate)
    requires CanRun(s, steps)
    decreases |steps|
  {
    && steps != [] && id in s.rows
    && ((TakesBy(s, steps[0], id) && EndsIn(Apply(s, steps[0]), steps[1..], id, fate))
        || TakenThenEnds(Apply(s, steps[0]), steps[1..], id, fate))
  }

  lemma {:induction false} EndedIffEndsIn(s: State, steps: seq<Step>, id: Id, fate: Fate)
    requires Inv(s) && CanRun(s, steps) && id in s.rows && s.rows[id].status == Pending
    ensures id in Run(s, steps).rows && (Met(Run(s, steps).rows[id], fate) <==> EndsIn(s, steps, id, fate))
    decreases |steps|
  {
    if steps != [] {
      var s1 := Apply(s, steps[0]);
      StepKeepsInv(s, steps[0]);
      EndedByIff(s, steps[0], id, fate);
      if s1.rows[id].status == Pending {
        EndedIffEndsIn(s1, steps[1..], id, fate);
      } else {
        DecidedForEver(s1, steps[1..], id);
        NoEndOnceDecided(s1, steps[1..], id, fate);
      }
    }
  }

  lemma {:induction false} NoEndOnceDecided(s: State, steps: seq<Step>, id: Id, fate: Fate)
    requires Inv(s) && CanRun(s, steps) && id in s.rows && s.rows[id].status != Pending
    ensures !EndsIn(s, steps, id, fate)
    decreases |steps|
  {
    if steps != [] {
      StepKeepsInv(s, steps[0]);
      StatusLeavesPendingOnce(s, steps[0], id);
      if DealsWith(s, steps[0], id) {
        HeadIsRow(s, steps[0], id);
      }
      NoEndOnceDecided(Apply(s, steps[0]), steps[1..], id, fate);
    }
  }

  lemma {:induction false} EndsOnlyIfTaken(s: State, steps: seq<Step>, id: Id, fate: Fate)
    requires Inv(s) && CanRun(s, steps) && id in s.rows && NotTaken(s, id)
    ensures EndsIn(s, steps, id, fate) <==> TakenThenEnds(s, steps, id, fate)
    decreases |steps|
  {
    if steps != [] {
      var s1 := Apply(s, steps[0]);
      StepKeepsInv(s, steps[0]);
      StatusLeavesPendingOnce(s, steps[0], id);
      assert !DealsWith(s, steps[0], id) by {
        assert DealsWith(s, steps[0], id) ==> Listed(s.passes[steps[0].p].items, id);
      }
      if TakesBy(s, steps[0], id) {
        TakenImpliesEnds(s1, steps[1..], id, fate);
      } else {
        UntakenStays(s, steps[0], id);
        EndsOnlyIfTaken(s1, steps[1..], id, fate);
      }
    }
  }

  lemma {:induction false} TakenImpliesEnds(s: State, steps: seq<Step>, id: Id, fate: Fate)
    requires CanRun(s, steps)
    ensures TakenThenEnds(s, steps, id, fate) ==> EndsIn(s, steps, id, fate)
    decreases |steps|
  {
    if steps != [] {
      TakenImpliesEnds(Apply(s, steps[0]), steps[1..], id, fate);
    }
  }

  /** Exactly when a pending row that no pass has taken yet is marked failed, over any run: a pass lists it
      within a day of its creation, and afterwards deals with it when it is more than a day old, or when its
      hash is no hex text. */
  lemma FailedIff(s: State, steps: seq<Step>, id: Id)
    requires Inv(s) && CanRun(s, steps) && id in s.rows && s.rows[id].status == Pending && NotTaken(s, id)
    ensures id in Run(s, steps).rows
    ensures Run(s, steps).rows[id].status == Failed <==> TakenThenEnds(s, steps, id, Fails)
  {
    EndedIffEndsIn(s, steps, id, Fails);
    EndsOnlyIfTaken(s, steps, id, Fails);
  }

  /** And exactly when it is stamped with a token: a pass lists it within a day, and afterwards deals with it while
      requestable and is answered with that token. */
  lemma StampedIff(s: State, steps: seq<Step>, id: Id, token: Option<Bytes>)
    requires Inv(s) && CanRun(s, steps) && id in s.rows && s.rows[id].status == Pending && NotTaken(s, id)
    ensures id in Run(s, steps).rows
    ensures Run(s, steps).rows[id].status == Stamped && Run(s, steps).rows[id].token == token
       <==> TakenThenEnds(s, steps, id, Stamps(token))
  {
    EndedIffEndsIn(s, steps, id, Stamps(token));
    EndsOnlyIfTaken(s, steps, id, Stamps(token));
  }

  /** The token of a row stamped by a retry is what the authority answered to a request for the row's own bytes. */
  lemma {:induction false} StampIsAnAnswer(s: State, steps: seq<Step>, id: Id)
    requires Inv(s) && CanRun(s, steps) && id in s.rows && s.rows[id].status == Pending
    ensures id in Run(s, steps).rows && Run(s, steps).rows[id].hash == s.rows[id].hash
    ensures Run(s, steps).rows[id].status == Stamped ==>
              && Decodable(s.rows[id].hash)
              && Attempt(id, Decoded(s.rows[id].hash).value, Issued(Run(s, steps).rows[id].token), true) in Run(s, steps).requests
    decreases |steps|
  {
    if steps != [] {
      var s1 := Apply(s, steps[0]);
      StepKeepsInv(s, steps[0]);
      StatusLeavesPendingOnce(s, steps[0], id);
      if s1.rows[id].status == Pending {
        StampIsAnAnswer(s1, steps[1..], id);
      } else {
        DecidedForEver(s1, steps[1..], id);
        StampedByIff(s, steps[0], id);
        EarlierRequestsStay(s1, steps[1..]);
      }
    }
  }

  /** What an upload's stamp is in the end: the one issued at once, none if stamping is disabled, or else what the
      authority answered to a later request for the uploaded digest. */
  lemma UploadIsStampedTruly(s: State, id: Id, digest: Bytes, answer: Answer, now: Time, steps: seq<Step>)
    requires Inv(s) && id !in s.rows
    requires CanRun(Apply(s, AddRow(id, UploadedRow(digest, answer, now))), steps)
    ensures var s' := Run(Apply(s, AddRow(id, UploadedRow(digest, answer, now))), steps);
            id in s'.rows &&
            match answer
            case Issued(Some(token)) => s'.rows[id].status == Stamped && s'.rows[id].token == Some(token)
            case Issued(None) => s'.rows[id].status == Disabled && s'.rows[id].token == None
            case Refused => s'.rows[id].status == Stamped ==> Attempt(id, digest, Issued(s'.rows[id].token), true) in s'.requests
  {
    var add := AddRow(id, UploadedRow(digest, answer, now));
    var s1 := Apply(s, add);
    StepKeepsInv(s, add);
    DecidedForEver(s1, steps, id);
    if answer.Refused? {
      DecodeEncode(digest);
      StampIsAnAnswer(s1, steps, id);
    }
  }

  /** Every query for pending items in the sequence is made a day or more after `created`. */
  predicate OnlyLateQueries(steps: seq<Step>, created: Time) {
    forall i | 0 <= i < |steps| && steps[i].Find? :: steps[i].now - created >= 86_400_000_000_000
  }

  /** So one that no pass took within a day is never marked failed, however often passes run: it stays
      pending for ever. */
  lemma {:induction false} MissedRowStaysPending(s: State, steps: seq<Step>, id: Id)
    requires Inv(s) && CanRun(s, steps) && id in s.rows && s.rows[id].status == Pending && NotTaken(s, id)
    requires OnlyLateQueries(steps, s.rows[id].created)
    ensures id in Run(s, steps).rows && Run(s, steps).rows[id].status == Pending
    decreases |steps|
  {
    if steps != [] {
      StepKeepsInv(s, steps[0]);
      assert steps[0].Find? ==> steps[0].now - s.rows[id].created >= DAY;
      UntakenStays(s, steps[0], id);
      assert OnlyLateQueries(steps[1..], s.rows[id].created);
      MissedRowStaysPending(Apply(s, steps[0]), steps[1..], id);
    }
  }

  lemma RunStep(s: State, step: Step, rest: seq<Step>)
    requires Enabled(s, step) && CanRun(Apply(s, step), rest)
    ensures CanRun(s, [step] + rest) && Run(s, [step] + rest) == Run(Apply(s, step), rest)
  {
    assert ([step] + rest)[1..] == rest;
  }

  /** For instance: uploaded and refused at time 0, first looked for a day later by a pass that runs to its
      end. The row has expired and is still pending. */
  lemma ExpiredButPending(digest: Bytes)
    ensures var steps := [AddRow(0, UploadedRow(digest, Refused, 0)), TryLock(0), Find(0, DAY, [], true), End(0, true)];
            && CanRun(START, steps)
            && var s := Run(START, steps); 0 in s.rows && s.rows[0].status == Pending && s.lock.None?
  {
    var add, lock, find, end := AddRow(0, UploadedRow(digest, Refused, 0)), TryLock(0), Find(0, DAY, [], true), End(0, true);
    var s1 := Apply(START, add);
    var s2 := Apply(s1, lock);
    assert PendingList(s2.rows, DAY, []);
    var s3 := Apply(s2, find);
    var s4 := Apply(s3, end);
    RunStep(s3, end, []);
    RunStep(s2, find, [end]);
    RunStep(s1, lock, [find, end]);
    RunStep(START, add, [lock, find, end]);
    assert [add] + [lock, find, end] == [add, lock, find, end];
  }
}
