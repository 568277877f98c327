/** What a UUID column makes of the text written to it: which texts it accepts, and the one text each of
    them reads back as. */
module UuidColumn {
  import opened Common
  import opened Texts

  predicate IsHexDigit(c: char) { IsHex(c) || 'A' <= c <= 'F' }

  function Lower(c: char): (r: char)
    requires IsHexDigit(c)
    ensures IsHex(r) && (IsHex(c) ==> r == c)
  {
    if 'A' <= c <= 'F' then c - 'A' + 'a' else c
  }

  /** The lower-case digits of the bytes from number i on: two digits for each of the 16 bytes, with an
      optional hyphen after every second byte but the last. */
  function Digits(s: string, i: nat): (r: Option<string>)
    requires i <= 16
    ensures r.Some? ==> |r.value| == 2 * (16 - i) && AllHex(r.value)
    decreases 16 - i
  {
    if i == 16 then (if s == "" then Some("") else None)
    else if |s| < 2 || !IsHexDigit(s[0]) || !IsHexDigit(s[1]) then None
    else
      var rest := s[2..];
      var hyphen := rest != "" && rest[0] == '-' && i % 2 == 1 && i < 15;
      match Digits(if hyphen then rest[1..] else rest, i + 1)
      case None => None
      case Some(d) => Some([Lower(s[0]), Lower(s[1])] + d)
  }

  /** The canonical text a written text reads back as; None if the column refuses it. */
  function ReadBack(s: string): (r: Option<string>)
    ensures r.Some? ==> IsCanonical(r.value)
  {
    var braced := s != "" && s[0] == '{';
    if braced && (|s| < 2 || s[|s| - 1] != '}') then None
    else
      match Digits(if braced then s[1..|s| - 1] else s, 0)
      case None => None
      case Some(d) => Some(Dashed(d))
  }

  /** Lower-case digits in hyphenated groups. */
  ghost predicate IsCanonical(s: string) {
    exists d :: |d| == 32 && AllHex(d) && s == Dashed(d)
  }

  /** The column accepts a text. */
  predicate Accepts(s: string) { ReadBack(s).Some? }

  /** What stands in the column for a text it accepts. */
  function Column(s: string): string {
    match ReadBack(s)
    case None => s
    case Some(t) => t
  }

  // ---------------------------------------------------------------- canonical texts are kept

  predicate HyphenAfter(i: nat) { i == 3 || i == 5 || i == 7 || i == 9 }

  /** Where the digits of byte i stand in a hyphenated text. */
  function Position(i: nat): nat {
    2 * i + if i < 4 then 0 else if i < 6 then 1 else if i < 8 then 2 else if i < 10 then 3 else 4
  }

  lemma DashedAt(d: string, i: nat)
    requires |d| == 32 && AllHex(d) && i < 16
    ensures Position(i) + 1 < 36 && Dashed(d)[Position(i)] == d[2 * i] && Dashed(d)[Position(i) + 1] == d[2 * i + 1]
    ensures HyphenAfter(i) ==> Dashed(d)[Position(i) + 2] == '-'
  {
    var s := Dashed(d);
    if i < 4 {
      assert s[..8] == d[..8];
    } else if i < 6 {
      assert s[9..13] == d[8..12];
    } else if i < 8 {
      assert s[14..18] == d[12..16];
    } else if i < 10 {
      assert s[19..23] == d[16..20];
    } else {
      assert s[24..] == d[20..];
    }
  }

  /** Reading one byte of lower-case digits, and the hyphen if one follows. */
  lemma ReadByte(t: string, i: nat, rest: string, d: string)
    requires i < 16 && |t| >= 2 && IsHex(t[0]) && IsHex(t[1]) && Digits(rest, i + 1) == Some(d)
    requires if HyphenAfter(i) then t[2..] == "-" + rest else rest == t[2..] && (rest == "" || rest[0] != '-')
    ensures Digits(t, i) == Some([t[0], t[1]] + d)
  {
    assert ("-" + rest)[1..] == rest;
  }

  lemma NextByte(d: string, i: nat)
    requires |d| == 32 && AllHex(d) && i < 16
    ensures Position(i) + 2 <= Position(i + 1) <= 36
    ensures var rest, behind := Dashed(d)[Position(i + 1)..], Dashed(d)[Position(i) + 2..];
            if HyphenAfter(i) then behind == "-" + rest else rest == behind && (rest == "" || rest[0] != '-')
  {
    DashedAt(d, i);
    if !HyphenAfter(i) && i < 15 {
      DashedAt(d, i + 1);
    }
  }

  /** Reading byte i of a hyphenated text, when what follows reads as the digits behind it. */
  lemma DashedByte(d: string, i: nat, t: string, rest: string, e: string)
    requires |d| == 32 && AllHex(d) && i < 16
    requires t == Dashed(d)[Position(i)..] && Position(i + 1) <= 36 && rest == Dashed(d)[Position(i + 1)..]
    requires Digits(rest, i + 1) == Some(e)
    ensures Digits(t, i) == Some([d[2 * i], d[2 * i + 1]] + e)
  {
    DashedAt(d, i);
    NextByte(d, i);
    assert t[2..] == Dashed(d)[Position(i) + 2..];
    ReadByte(t, i, rest, e);
  }

  lemma {:induction false} DigitsOfDashed(d: string, i: nat)
    requires |d| == 32 && AllHex(d) && i <= 16
    ensures Position(i) <= 36 && Digits(Dashed(d)[Position(i)..], i) == Some(d[2 * i..])
    decreases 16 - i
  {
    if i < 16 {
      DigitsOfDashed(d, i + 1);
      DashedByte(d, i, Dashed(d)[Position(i)..], Dashed(d)[Position(i + 1)..], d[2 * (i + 1)..]);
      assert d[2 * i..] == [d[2 * i], d[2 * i + 1]] + d[2 * (i + 1)..];
    } else {
      NothingLeft(Dashed(d)[36..], d[32..]);
    }
  }

  lemma NothingLeft(s: string, d: string)
    requires s == "" && d == ""
    ensures Digits(s, 16) == Some(d)
  {
  }

  /** A column keeps exactly the canonical texts as they are; */
  lemma KeptIff(s: string)
    ensures ReadBack(s) == Some(s) <==> IsCanonical(s)
  {
    if IsCanonical(s) {
      var d :| |d| == 32 && AllHex(d) && s == Dashed(d);
      DigitsOfDashed(d, 0);
      DashedAt(d, 0);
      assert s[0..] == s && d[0..] == d;
    }
  }

  /** what it holds is canonical, so writing it again changes nothing; */
  lemma ColumnStable(s: string)
    requires Accepts(s)
    ensures IsCanonical(Column(s)) && Column(Column(s)) == Column(s)
  {
    KeptIff(Column(s));
  }

  /** and it accepts every canonical text in braces, but holds it without them. */
  lemma BracesDropped(s: string)
    requires IsCanonical(s)
    ensures Accepts("{" + s + "}") && Column("{" + s + "}") == s && s != "{" + s + "}"
  {
    KeptIff(s);
    var t := "{" + s + "}";
    assert t[1..|t| - 1] == s;
    var d :| |d| == 32 && AllHex(d) && s == Dashed(d);
    assert s[0] == d[0];
  }

  lemma UuidTextIsCanonical(u: UUID)
    ensures IsCanonical(UuidText(u))
  {
  }

  // ---------------------------------------------------------------- no separators

  lemma {:induction false} DigitsFree(s: string, i: nat)
    requires i <= 16 && Digits(s, i).Some?
    ensures Free(s, '|')
    decreases 16 - i
  {
    if i < 16 {
      var rest := s[2..];
      if rest != "" && rest[0] == '-' && i % 2 == 1 && i < 15 {
        DigitsFree(rest[1..], i + 1);
        assert rest == ['-'] + rest[1..];
      } else {
        DigitsFree(rest, i + 1);
      }
      assert s == [s[0], s[1]] + rest;
    }
  }

  /** No text the column accepts contains a bar. */
  lemma AcceptedFree(s: string)
    requires Accepts(s)
    ensures Free(s, '|') && Free(Column(s), '|')
  {
    if s != "" && s[0] == '{' {
      var inner := s[1..|s| - 1];
      DigitsFree(inner, 0);
      forall i | 0 <= i < |s| ensures s[i] != '|' {
        assert 0 < i < |s| - 1 ==> s[i] == inner[i - 1];
      }
    } else {
      DigitsFree(s, 0);
    }
    CanonicalFree(Column(s));
  }

  lemma CanonicalFree(s: string)
    requires IsCanonical(s)
    ensures Free(s, '|')
  {
  }
}
