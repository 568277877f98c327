/** The text an entry hash is taken over, and what a verified chain of such hashes proves. */
module TamperEvidence {
  import opened Common
  import opened Texts
  import opened UuidColumn
  import opened CustodyChain

  /** SHA-256 to hex text and the JSON canonicaliser, both only assumed to be functions, with the
      texts used for ids and instants. */
  datatype Hasher = Hasher(sum: string -> string, canonical: string -> string, text: Rendering)

  /** What hex-encoded SHA-256 output looks like. */
  ghost predicate HexDigests(h: Hasher) {
    forall x :: |h.sum(x)| == 64 && AllHex(h.sum(x))
  }

  /** The eight fields of an entry in hashing order. */
  function Fields(h: Hasher, prev: string, e: Event): seq<string> {
    [prev, h.text.id(e.id), e.actor, e.action, h.text.time(e.ts), h.text.id(e.evidenceId), h.text.id(e.caseId),
     h.canonical(e.detail)]
  }

  function LogText(h: Hasher, prev: string, e: Event): string {
    Join(Fields(h, prev, e), '|')
  }

  /** The text spelled out. */
  lemma LogTextLayout(h: Hasher, prev: string, e: Event)
    ensures LogText(h, prev, e) ==
            prev + "|" + (h.text.id(e.id) + "|" + (e.actor + "|" + (e.action + "|" + (h.text.time(e.ts) + "|"
            + (h.text.id(e.evidenceId) + "|" + (h.text.id(e.caseId) + "|" + h.canonical(e.detail)))))))
  {
    var f := Fields(h, prev, e);
    forall i: nat | i < 8 { JoinFrom(f, '|', i); }
    assert f[0..] == f && "|" == ['|'];
  }

  function ComputeLogHash(h: Hasher, prev: string, e: Event): string {
    h.sum(LogText(h, prev, e))
  }

  /** ComputeLogHash as the digest of a chain. */
  function LogHash(h: Hasher): Digest {
    (prev: string, e: Event) => ComputeLogHash(h, prev, e)
  }

  /** Neither free-text field in front of the timestamp contains the separator. */
  predicate Plain(e: Event) { Free(e.actor, '|') && Free(e.action, '|') }

  /** Agreement on everything the chain is meant to protect. */
  predicate SameEntry(h: Hasher, a: Event, b: Event) {
    && a.id == b.id && a.actor == b.actor && a.action == b.action && a.ts == b.ts
    && a.evidenceId == b.evidenceId && a.caseId == b.caseId
    && h.canonical(a.detail) == h.canonical(b.detail)
  }

  /** The text that entry i of a log is checked against. */
  function TextAt(h: Hasher, events: seq<Event>, i: nat): string
    requires i < |events|
  {
    LogText(h, PrevHash(events, i), events[i])
  }

  /** No text of one log collides with a text of the other under the hash. */
  ghost predicate NoCollision(h: Hasher, a: seq<Event>, b: seq<Event>) {
    forall i: nat, j: nat | i < |a| && j < |b| ::
      h.sum(TextAt(h, a, i)) == h.sum(TextAt(h, b, j)) ==> TextAt(h, a, i) == TextAt(h, b, j)
  }

  /** Actor and action hold as many separators in one entry as in the other. */
  predicate SameBars(a: Event, b: Event) {
    Occurrences(a.actor, '|') == Occurrences(b.actor, '|') && Occurrences(a.action, '|') == Occurrences(b.action, '|')
  }

  lemma TextHead(h: Hasher, p: string, a: Event, q: string, b: Event)
    requires Faithful(h.text) && LogText(h, p, a) == LogText(h, q, b) && Free(p, '|') && Free(q, '|')
    ensures p == q && a.id == b.id
    ensures Join(Fields(h, p, a)[2..], '|') == Join(Fields(h, q, b)[2..], '|')
  {
    var f, g := Fields(h, p, a), Fields(h, q, b);
    JoinHead(f, g, '|');
    JoinHead(f[1..], g[1..], '|');
    assert f[1..][0] == h.text.id(a.id) && g[1..][0] == h.text.id(b.id);
    assert f[1..][1..] == f[2..] && g[1..][1..] == g[2..];
  }

  lemma TextTail(h: Hasher, p: string, a: Event, b: Event)
    requires Faithful(h.text) && SameBars(a, b)
    requires Join(Fields(h, p, a)[2..], '|') == Join(Fields(h, p, b)[2..], '|')
    ensures a.actor == b.actor && a.action == b.action
    ensures Join(Fields(h, p, a)[4..], '|') == Join(Fields(h, p, b)[4..], '|')
  {
    var f, g := Fields(h, p, a), Fields(h, p, b);
    JoinCounted(f[2..], g[2..], '|');
    assert f[2..][1..] == f[3..] && g[2..][1..] == g[3..];
    JoinCounted(f[3..], g[3..], '|');
    assert f[3..][1..] == f[4..] && g[3..][1..] == g[4..];
  }

  lemma TextEnd(h: Hasher, p: string, a: Event, b: Event)
    requires Faithful(h.text) && Join(Fields(h, p, a)[4..], '|') == Join(Fields(h, p, b)[4..], '|')
    ensures a.ts == b.ts && a.evidenceId == b.evidenceId && a.caseId == b.caseId
    ensures h.canonical(a.detail) == h.canonical(b.detail)
  {
    var f, g := Fields(h, p, a)[4..], Fields(h, p, b)[4..];
    JoinInjective(f, g, '|');
    assert f[0] == g[0] && f[1] == g[1] && f[2] == g[2] && f[3] == g[3];
  }

  /** What equal texts say: they continue the same hash with the same id, and their entries agree exactly when
      actor and action hold equally many separators. */
  lemma TextsAgreeIff(h: Hasher, p: string, a: Event, q: string, b: Event)
    requires Faithful(h.text) && LogText(h, p, a) == LogText(h, q, b) && Free(p, '|') && Free(q, '|')
    ensures p == q && a.id == b.id
    ensures SameEntry(h, a, b) <==> SameBars(a, b)
  {
    TextHead(h, p, a, q, b);
    if SameBars(a, b) {
      TextTail(h, p, a, b);
      TextEnd(h, p, a, b);
    }
  }

  /** Unique parsing of the joined text when neither holds any. */
  lemma TextInjective(h: Hasher, p: string, a: Event, q: string, b: Event)
    requires Faithful(h.text) && LogText(h, p, a) == LogText(h, q, b)
    requires Free(p, '|') && Free(q, '|') && Plain(a) && Plain(b)
    ensures p == q && SameEntry(h, a, b)
  {
    PlainHasNoBars(a);
    PlainHasNoBars(b);
    TextsAgreeIff(h, p, a, q, b);
  }

  /** In an intact log every stored hash is a digest, so hashes carry no separator. */
  lemma PrevHashFree(h: Hasher, events: seq<Event>, i: nat)
    requires HexDigests(h) && Intact(LogHash(h), events) && i <= |events|
    ensures Free(PrevHash(events, i), '|')
    ensures PrevHash(events, i) == "" <==> i == 0
  {
    if i > 0 {
      assert !HashFails(LogHash(h), events, i - 1);
      var t := LogText(h, PrevHash(events, i - 1), events[i - 1]);
      assert |h.sum(t)| == 64 && AllHex(h.sum(t));
    }
  }

  lemma EntriesMatch(h: Hasher, a: seq<Event>, b: seq<Event>, i: nat, j: nat)
    requires Faithful(h.text) && HexDigests(h) && Intact(LogHash(h), a) && Intact(LogHash(h), b)
    requires NoCollision(h, a, b) && i < |a| && j < |b| && a[i].hash == b[j].hash
    ensures PrevHash(a, i) == PrevHash(b, j) && a[i].id == b[j].id
    ensures SameEntry(h, a[i], b[j]) <==> SameBars(a[i], b[j])
  {
    assert !HashFails(LogHash(h), a, i) && !HashFails(LogHash(h), b, j);
    assert TextAt(h, a, i) == TextAt(h, b, j);
    PrevHashFree(h, a, i);
    PrevHashFree(h, b, j);
    TextsAgreeIff(h, PrevHash(a, i), a[i], PrevHash(b, j), b[j]);
  }

  lemma {:induction false} SameHistory(h: Hasher, a: seq<Event>, b: seq<Event>, m: nat, n: nat)
    requires Faithful(h.text) && HexDigests(h) && Intact(LogHash(h), a) && Intact(LogHash(h), b)
    requires NoCollision(h, a, b)
    requires m <= |a| && n <= |b| && PrevHash(a, m) == PrevHash(b, n)
    ensures m == n
    ensures forall i | 0 <= i < m :: a[i].id == b[i].id && (SameEntry(h, a[i], b[i]) <==> SameBars(a[i], b[i]))
    decreases m
  {
    PrevHashFree(h, a, m);
    PrevHashFree(h, b, n);
    if m > 0 {
      EntriesMatch(h, a, b, m - 1, n - 1);
      SameHistory(h, a, b, m - 1, n - 1);
    }
  }

  /** Two intact logs that end in the same hash have the same length and the same ids in the same order, and
      agree on an entry exactly when its actor and action hold equally many separators in both. */
  lemma TamperEvidentIff(h: Hasher, a: seq<Event>, b: seq<Event>)
    requires Faithful(h.text) && HexDigests(h) && Intact(LogHash(h), a) && Intact(LogHash(h), b)
    requires PrevHash(a, |a|) == PrevHash(b, |b|) && NoCollision(h, a, b)
    ensures |a| == |b|
    ensures forall i | 0 <= i < |a| :: a[i].id == b[i].id && (SameEntry(h, a[i], b[i]) <==> SameBars(a[i], b[i]))
  {
    SameHistory(h, a, b, |a|, |b|);
  }

  /** So without separators in actor and action nothing can be altered, inserted or removed without changing
      the last hash. */
  lemma TamperEvident(h: Hasher, a: seq<Event>, b: seq<Event>)
    requires Faithful(h.text) && HexDigests(h) && Intact(LogHash(h), a) && Intact(LogHash(h), b)
    requires PrevHash(a, |a|) == PrevHash(b, |b|) && NoCollision(h, a, b)
    requires forall i | 0 <= i < |a| :: Plain(a[i])
    requires forall i | 0 <= i < |b| :: Plain(b[i])
    ensures |a| == |b|
    ensures forall i | 0 <= i < |a| :: SameEntry(h, a[i], b[i])
  {
    TamperEvidentIff(h, a, b);
    forall i | 0 <= i < |a| ensures SameBars(a[i], b[i]) {
      PlainHasNoBars(a[i]);
      PlainHasNoBars(b[i]);
    }
  }

  lemma PlainHasNoBars(e: Event)
    requires Plain(e)
    ensures Occurrences(e.actor, '|') == 0 && Occurrences(e.action, '|') == 0
  {
    FreeIffNone(e.actor, '|');
    FreeIffNone(e.action, '|');
  }

  /** A stored actor is a UUID's text, so of stored rows only the action matters. */
  lemma StoredRowIsPlain(e: Event)
    requires IsCanonical(e.actor)
    ensures Plain(e) <==> Free(e.action, '|')
  {
    CanonicalFree(e.actor);
  }

  lemma JoinTwo(fs: seq<string>)
    requires |fs| > 1
    ensures Join(fs, '|') == fs[0] + "|" + Join(fs[1..], '|')
  {
  }

  /** The rest of an entry's text from its action on. */
  function FromAction(h: Hasher, e: Event): string {
    e.action + "|" + (h.text.time(e.ts) + "|" + (h.text.id(e.evidenceId) + "|" + (h.text.id(e.caseId) + "|" + h.canonical(e.detail))))
  }

  lemma TextFromAction(h: Hasher, prev: string, e: Event)
    ensures LogText(h, prev, e) == prev + "|" + (h.text.id(e.id) + "|" + (e.actor + "|" + FromAction(h, e)))
  {
    var f := Fields(h, prev, e);
    JoinTwo(f);
    JoinTwo(f[1..]);
    JoinTwo(f[2..]);
    JoinTwo(f[3..]);
    JoinTwo(f[4..]);
    JoinTwo(f[5..]);
    JoinTwo(f[6..]);
    assert f[1..][1..] == f[2..] && f[2..][1..] == f[3..] && f[3..][1..] == f[4..] && f[4..][1..] == f[5..];
    assert f[5..][1..] == f[6..] && f[6..][1..] == f[7..];
  }

  /** A row that was never recorded: the action takes over what follows it up to a bar inside the detail, the
      timestamp and evidence are those the detail spells behind that bar, and the detail is what is left. */
  function Respelled(h: Hasher, e: Event, x: string, ts: Timestamp, evidence: UUID, y: string): Event {
    e.(action := e.action + "|" + (h.text.time(e.ts) + "|" + (h.text.id(e.evidenceId) + "|" + (h.text.id(e.caseId) + "|" + x))),
       ts := ts, evidenceId := evidence, detail := y)
  }

  /** Why separators matter although recorded actions have none: if the canonical detail of a recorded entry
      spells a time, an evidence id and the case's id between bars, as text of a user in it may, the respelled
      row has the same hash and differs. What is left of the detail is no JSON, so it is hashed as it stands. */
  lemma SeparatorAmbiguity(h: Hasher, prev: string, e: Event, x: string, ts: Timestamp, evidence: UUID, y: string)
    requires h.canonical(e.detail) == x + "|" + (h.text.time(ts) + "|" + (h.text.id(evidence) + "|" + (h.text.id(e.caseId) + "|" + y)))
    requires h.canonical(y) == y
    ensures ComputeLogHash(h, prev, e) == ComputeLogHash(h, prev, Respelled(h, e, x, ts, evidence, y))
    ensures !SameEntry(h, e, Respelled(h, e, x, ts, evidence, y))
  {
    var other := Respelled(h, e, x, ts, evidence, y);
    TextFromAction(h, prev, e);
    TextFromAction(h, prev, other);
    var t, v, c := h.text.time(e.ts), h.text.id(e.evidenceId), h.text.id(e.caseId);
    var rest := h.text.time(ts) + "|" + (h.text.id(evidence) + "|" + (h.text.id(e.caseId) + "|" + y));
    assert FromAction(h, other) == other.action + "|" + rest;
    assert (e.action + "|" + (t + "|" + (v + "|" + (c + "|" + x)))) + "|" + rest
        == e.action + "|" + (t + "|" + (v + "|" + (c + "|" + (x + "|" + rest))));
    assert |other.action| > |e.action|;
  }

  /** Put in the place of the recorded row, with its hashes, it leaves the log intact. */
  lemma RespelledRowPasses(h: Hasher, events: seq<Event>, i: nat, x: string, ts: Timestamp, evidence: UUID, y: string)
    requires i < |events| && Intact(LogHash(h), events) && h.canonical(y) == y
    requires h.canonical(events[i].detail)
          == x + "|" + (h.text.time(ts) + "|" + (h.text.id(evidence) + "|" + (h.text.id(events[i].caseId) + "|" + y)))
    ensures var forged := events[i := Respelled(h, events[i], x, ts, evidence, y)];
            Intact(LogHash(h), forged) && !SameEntry(h, events[i], forged[i])
  {
    var forged := events[i := Respelled(h, events[i], x, ts, evidence, y)];
    forall k: nat | k < |forged| ensures !HashFails(LogHash(h), forged, k) && !LinkFails(forged, k) {
      assert !HashFails(LogHash(h), events, k) && !LinkFails(events, k);
      assert PrevHash(forged, k) == PrevHash(events, k);
      SeparatorAmbiguity(h, PrevHash(events, i), events[i], x, ts, evidence, y);
    }
    SeparatorAmbiguity(h, "", events[i], x, ts, evidence, y);
  }
}
