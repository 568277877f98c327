/** The names evidence goes by: object-store keys and evidence numbers. */
module EvidenceNames {
  import opened Common
  import opened Texts

  // ---------------------------------------------------------------- object keys

  /** An object-store key by its parts; KeyText shows that working with the parts loses nothing. */
  datatype ObjectKey =
    | EvidenceKey(caseId: UUID, objectId: UUID, version: nat, filename: string)
    | ThumbnailKey(caseId: UUID, evidenceId: UUID)

  function KeyParts(text: Rendering, k: ObjectKey): (parts: seq<string>)
    ensures parts != []
  {
    match k
    case EvidenceKey(c, e, v, f) => ["evidence", text.id(c), text.id(e), Decimal(v), f]
    case ThumbnailKey(c, e) => ["thumbnails", text.id(c), text.id(e), "thumb.jpg"]
  }

  /** The key as the store sees it. */
  function KeyText(text: Rendering, k: ObjectKey): string {
    Join(KeyParts(text, k), '/')
  }

  /** The two layouts in the object store. */
  lemma KeyTextLayout(text: Rendering, c: UUID, e: UUID, v: nat, f: string)
    ensures KeyText(text, EvidenceKey(c, e, v, f))
         == "evidence" + "/" + (text.id(c) + "/" + (text.id(e) + "/" + (Decimal(v) + "/" + f)))
    ensures KeyText(text, ThumbnailKey(c, e)) == "thumbnails" + "/" + (text.id(c) + "/" + (text.id(e) + "/" + "thumb.jpg"))
  {
    var p := KeyParts(text, EvidenceKey(c, e, v, f));
    forall i: nat | i < 5 { JoinFrom(p, '/', i); }
    var q := KeyParts(text, ThumbnailKey(c, e));
    forall i: nat | i < 4 { JoinFrom(q, '/', i); }
    assert p[0..] == p && q[0..] == q && "/" == ['/'];
  }

  lemma KeyPartsFree(text: Rendering, k: ObjectKey, i: nat)
    requires Faithful(text) && i < |KeyParts(text, k)| - 1
    ensures Free(KeyParts(text, k)[i], '/')
  {
    match k
    case EvidenceKey(c, e, v, f) =>
      assert Free(Decimal(v), '/');
    case ThumbnailKey(c, e) =>
  }

  /** Different keys have different texts: evidence and thumbnails live under different prefixes, and
      within a prefix every part can be read back, even if the file name contains slashes. */
  lemma KeyTextInjective(text: Rendering, j: ObjectKey, k: ObjectKey)
    requires Faithful(text) && KeyText(text, j) == KeyText(text, k)
    ensures j == k
  {
    var p, q := KeyParts(text, j), KeyParts(text, k);
    forall i: nat | i < |p| - 1 ensures Free(p[i], '/') { KeyPartsFree(text, j, i); }
    forall i: nat | i < |q| - 1 ensures Free(q[i], '/') { KeyPartsFree(text, k, i); }
    JoinHead(p, q, '/');
    assert "evidence"[0] != "thumbnails"[0];
    assert j.EvidenceKey? == k.EvidenceKey?;
    JoinInjective(p, q, '/');
    assert p[1] == q[1] && p[2] == q[2] && p[3] == q[3];
    if j.EvidenceKey? {
      assert p[4] == q[4];
      DecimalValue(j.version);
      DecimalValue(k.version);
    }
  }

  // ---------------------------------------------------------------- evidence numbers

  /** A counter padded to at least five digits. */
  function Padded(n: nat): (s: string)
    ensures AllHex(s) && Free(s, '-')
  {
    var d := Decimal(n);
    if |d| < 5 then Zeros(5 - |d|) + d else d
  }

  /** Case reference code, hyphen, padded counter. */
  function EvidenceNumber(reference: string, counter: nat): string {
    reference + "-" + Padded(counter)
  }

  /** A number has five digits, or more when the counter does. */
  lemma NumberLayout(reference: string, n: nat)
    ensures |EvidenceNumber(reference, n)| == |reference| + 1 + if n < 100_000 then 5 else |Decimal(n)|
    ensures n >= 100_000 ==> |Decimal(n)| > 5
    ensures EvidenceNumber(reference, n)[..|reference| + 1] == reference + "-"
  {
    DigitsOf(n);
  }

  /** Five digits reach to 99999. */
  lemma DigitsOf(n: nat)
    ensures |Decimal(n)| <= 5 <==> n < 100_000
  {
    var m := n / 10 / 10 / 10;
    assert n < 100_000 <==> m < 100;
    assert |Decimal(n / 10 / 10)| == (if m == 0 && n / 10 / 10 < 10 then 1 else 1 + |Decimal(m)|);
    assert |Decimal(m)| <= 2 <==> m < 100;
  }

  lemma PaddedValue(n: nat)
    ensures Value(Padded(n), 10) == n
  {
    DecimalValue(n);
    var d := Decimal(n);
    if |d| < 5 {
      LeadingZeros(5 - |d|, d);
    }
  }

  /** A last field that avoids the separator can be read back from the end. */
  lemma SplitLast(a: string, x: string, b: string, y: string, sep: char)
    requires Free(x, sep) && Free(y, sep) && a + [sep] + x == b + [sep] + y
    ensures a == b && x == y
  {
    var s := a + [sep] + x;
    assert s[|a|] == sep && s[|b|] == sep;
    assert |a| >= |b|;
    assert |b| >= |a|;
    assert s[..|a|] == a && s[..|b|] == b;
    assert s[|a| + 1..] == x && s[|b| + 1..] == y;
  }

  /** A number determines its case reference and its counter, also past 99999 and whatever hyphens and
      digits the reference contains. */
  lemma EvidenceNumberInjective(r: string, m: nat, r': string, n: nat)
    requires EvidenceNumber(r, m) == EvidenceNumber(r', n)
    ensures r == r' && m == n
  {
    SplitLast(r, Padded(m), r', Padded(n), '-');
    PaddedValue(m);
    PaddedValue(n);
  }
}
