/** The hash chain of a case's custody log: the verifier that replays a log and the shorter check
    the PDF report prints. Both only use the entry hash as a function of the previous hash and the
    entry; its text is the subject of module TamperEvidence. */
module CustodyChain {
  import opened Common
  import opened Texts

  datatype Event = Event(
    id: UUID,
    caseId: UUID,
    evidenceId: UUID,
    action: string,
    actor: string,
    detail: string,
    hash: string,
    prev: string,
    ts: Timestamp)

  /** The hash of an entry, given the hash it is chained to. */
  type Digest = (string, Event) -> string

  // ---------------------------------------------------------------- replaying a log

  datatype Break = Break(entry: UUID, position: nat, expected: string, actual: string, ts: Timestamp)

  datatype Verification = Verification(valid: bool, total: nat, breaks: seq<Break>)

  /** The hash an entry at position i should be chained to. */
  function PrevHash(events: seq<Event>, i: nat): string
    requires i <= |events|
  {
    if i == 0 then "" else events[i - 1].hash
  }

  predicate HashFails(d: Digest, events: seq<Event>, i: nat)
    requires i < |events|
  {
    events[i].hash != d(PrevHash(events, i), events[i])
  }

  predicate LinkFails(events: seq<Event>, i: nat)
    requires i < |events|
  {
    events[i].prev != PrevHash(events, i)
  }

  /** Every hash check and every link check passes. */
  ghost predicate Intact(d: Digest, events: seq<Event>) {
    forall i: nat | i < |events| :: !HashFails(d, events, i) && !LinkFails(events, i)
  }

  function HashBreak(d: Digest, events: seq<Event>, i: nat): Break
    requires i < |events|
  {
    Break(events[i].id, i, d(PrevHash(events, i), events[i]), events[i].hash, events[i].ts)
  }

  function LinkBreak(events: seq<Event>, i: nat): Break
    requires i < |events|
  {
    Break(events[i].id, i, PrevHash(events, i), events[i].prev, events[i].ts)
  }

  function BreaksAt(d: Digest, events: seq<Event>, i: nat): seq<Break>
    requires i < |events|
  {
    (if HashFails(d, events, i) then [HashBreak(d, events, i)] else []) +
    (if LinkFails(events, i) then [LinkBreak(events, i)] else [])
  }

  /** The breaks found among the first n entries. */
  function BreaksIn(d: Digest, events: seq<Event>, n: nat): seq<Break>
    requires n <= |events|
  {
    if n == 0 then [] else BreaksIn(d, events, n - 1) + BreaksAt(d, events, n - 1)
  }

  function HashFailures(d: Digest, events: seq<Event>, lo: nat, n: nat): nat
    requires n <= |events|
  {
    if n <= lo then 0 else HashFailures(d, events, lo, n - 1) + if HashFails(d, events, n - 1) then 1 else 0
  }

  function LinkFailures(events: seq<Event>, n: nat): nat
    requires n <= |events|
  {
    if n == 0 then 0 else LinkFailures(events, n - 1) + if LinkFails(events, n - 1) then 1 else 0
  }

  /** Replays a log as the verifier does, carrying the previous stored hash. */
  method VerifyCaseChain(d: Digest, events: seq<Event>) returns (result: Verification)
    ensures result.total == |events|
    ensures result.breaks == BreaksIn(d, events, |events|)
    ensures result.valid <==> result.breaks == []
    ensures forall b :: b in result.breaks <==> TrueBreak(d, events, b)
  {
    var valid, breaks := true, [];
    var previousHash := "";
    for i := 0 to |events|
      invariant previousHash == PrevHash(events, i)
      invariant breaks == BreaksIn(d, events, i)
      invariant valid <==> breaks == []
    {
      var e := events[i];
      var expected := d(previousHash, e);
      if e.hash != expected {
        valid := false;
        breaks := breaks + [Break(e.id, i, expected, e.hash, e.ts)];
      }
      if e.prev != previousHash {
        valid := false;
        breaks := breaks + [Break(e.id, i, previousHash, e.prev, e.ts)];
      }
      previousHash := e.hash;
    }
    forall b ensures b in breaks <==> TrueBreak(d, events, b) {
      BreaksExact(d, events, b);
    }
    return Verification(valid, |events|, breaks);
  }

  /** The verifier's verdict is that every check passes. */
  lemma {:induction false} NoBreaksIffIntact(d: Digest, events: seq<Event>, n: nat)
    requires n <= |events|
    ensures BreaksIn(d, events, n) == [] <==> forall i: nat | i < n :: !HashFails(d, events, i) && !LinkFails(events, i)
  {
    if n > 0 {
      NoBreaksIffIntact(d, events, n - 1);
    }
  }

  /** What a report of a log has to say: where an entry's hash is not the one computed from the entry before it and
      itself, the computed hash was expected and the stored one found; where an entry does not continue that hash,
      the hash was expected and what the entry names was found. */
  ghost predicate TrueBreak(d: Digest, events: seq<Event>, b: Break) {
    b.position < |events| &&
    var e := events[b.position];
    var previous := if b.position == 0 then "" else events[b.position - 1].hash;
    && b.entry == e.id && b.ts == e.ts
    && ((e.hash != d(previous, e) && b.expected == d(previous, e) && b.actual == e.hash)
        || (e.prev != previous && b.expected == previous && b.actual == e.prev))
  }

  /** Every failed check is reported, with what was expected and what was found. */
  lemma {:induction false} BreaksComplete(d: Digest, events: seq<Event>, n: nat, i: nat)
    requires i < n <= |events|
    ensures var e, previous := events[i], if i == 0 then "" else events[i - 1].hash;
            && (e.hash != d(previous, e) ==>
                  Break(entry := e.id, position := i, expected := d(previous, e), actual := e.hash, ts := e.ts) in BreaksIn(d, events, n))
            && (e.prev != previous ==>
                  Break(entry := e.id, position := i, expected := previous, actual := e.prev, ts := e.ts) in BreaksIn(d, events, n))
  {
    if i < n - 1 {
      BreaksComplete(d, events, n - 1, i);
    } else {
      var bs := BreaksAt(d, events, i);
      assert LinkFails(events, i) ==> bs[|bs| - 1] == LinkBreak(events, i);
      assert HashFails(d, events, i) ==> bs[0] == HashBreak(d, events, i);
    }
  }

  /** Every reported break is a failed check at its position. */
  lemma {:induction false} BreaksSound(d: Digest, events: seq<Event>, n: nat, b: Break)
    requires n <= |events| && b in BreaksIn(d, events, n)
    ensures b.position < n && TrueBreak(d, events, b)
  {
    if b in BreaksIn(d, events, n - 1) {
      BreaksSound(d, events, n - 1, b);
    }
  }

  /** So the breaks reported of a log are exactly the true ones. */
  lemma BreaksExact(d: Digest, events: seq<Event>, b: Break)
    ensures b in BreaksIn(d, events, |events|) <==> TrueBreak(d, events, b)
  {
    if b in BreaksIn(d, events, |events|) {
      BreaksSound(d, events, |events|, b);
    }
    if TrueBreak(d, events, b) {
      BreaksComplete(d, events, |events|, b.position);
    }
  }

  ghost predicate InPositionOrder(bs: seq<Break>) {
    forall j, k | 0 <= j < k < |bs| :: bs[j].position <= bs[k].position
  }

  /** Breaks come in position order. */
  lemma {:induction false} BreaksOrdered(d: Digest, events: seq<Event>, n: nat)
    requires n <= |events|
    ensures InPositionOrder(BreaksIn(d, events, n))
  {
    if n > 0 {
      BreaksOrdered(d, events, n - 1);
      var old', new' := BreaksIn(d, events, n - 1), BreaksAt(d, events, n - 1);
      forall j | 0 <= j < |old'| ensures old'[j].position < n - 1 {
        BreaksSound(d, events, n - 1, old'[j]);
      }
      assert forall j | 0 <= j < |new'| :: new'[j].position == n - 1;
      assert InPositionOrder(old' + new');
    }
  }

  /** One break for each failed check. */
  lemma {:induction false} BreaksCounted(d: Digest, events: seq<Event>, n: nat)
    requires n <= |events|
    ensures |BreaksIn(d, events, n)| == HashFailures(d, events, 0, n) + LinkFailures(events, n)
  {
    if n > 0 {
      BreaksCounted(d, events, n - 1);
    }
  }

  // ---------------------------------------------------------------- the PDF report's check

  /** The report compares hashes from the second entry on and looks at no link. */
  method WriteHashChainStatus(d: Digest, events: seq<Event>) returns (verified: bool, breakCount: nat)
    ensures breakCount == HashFailures(d, events, 1, |events|)
    ensures verified <==> breakCount == 0
  {
    verified, breakCount := true, 0;
    var i := 1;
    while i < |events|
      invariant 1 <= i && (i <= |events| || i == 1)
      invariant breakCount == HashFailures(d, events, 1, Min(i, |events|))
      invariant verified <==> breakCount == 0
    {
      var expected := d(events[i - 1].hash, events[i]);
      if expected != events[i].hash {
        verified := false;
        breakCount := breakCount + 1;
      }
      i := i + 1;
    }
  }

  /** How the two checks relate: the verifier passes exactly when the report does, the first entry's
      hash is right and every link holds; the report counts the verifier's later hash failures. */
  lemma {:induction false} ReportAgreement(d: Digest, events: seq<Event>, n: nat)
    requires n <= |events|
    ensures HashFailures(d, events, 0, n)
         == HashFailures(d, events, 1, n) + if n > 0 && HashFails(d, events, 0) then 1 else 0
    ensures BreaksIn(d, events, n) == [] <==>
            && HashFailures(d, events, 1, n) == 0
            && (n > 0 ==> !HashFails(d, events, 0))
            && LinkFailures(events, n) == 0
  {
    if n > 0 {
      ReportAgreement(d, events, n - 1);
    }
  }

  /** A one-entry log with a wrong hash: the report prints VERIFIED, the verifier reports a break. */
  lemma ReportMissesFirstEntry(d: Digest, e: Event)
    requires e.hash != d("", e)
    ensures HashFailures(d, [e], 1, 1) == 0 && BreaksIn(d, [e], 1) != []
  {
    assert HashFails(d, [e], 0);
    assert BreaksAt(d, [e], 0) != [];
  }
}
