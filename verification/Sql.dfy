/** The part of the query language the repositories build: conditions over one row with numbered
    placeholders, their meaning under an argument list, and pattern matching. */
module Sql {
  import opened Common
  import opened Texts

  datatype Column = Title | ReferenceCode | Description | Status | Jurisdiction
                  | Classification | MimeType | Filename | OriginalName

  datatype Row = Row(id: UUID, caseId: UUID, text: Column -> string, tags: set<string>, current: bool, destroyed: bool)

  datatype Value = Text(text: string) | Texts(texts: seq<string>) | Ident(id: UUID) | Number(n: int)

  /** Placeholders count from 1. */
  datatype Condition =
    | HasRole(p: nat)
    | TextIs(column: Column, p: nat)
    | TextIn(column: Column, ps: seq<nat>)
    | AnyLike(columns: seq<Column>, p: nat)
    | HasTags(p: nat)
    | CaseIs(p: nat)
    | IdBelow(p: nat)
    | IsCurrent
    | NotDestroyed

  /** What a condition is evaluated against besides its row: who has a role on which case, which
      evidence is disclosed in which case, and how letters are compared. */
  datatype World = World(roles: set<(UUID, string)>, disclosed: set<(UUID, UUID)>, fold: char -> char)

  predicate IsText(args: seq<Value>, p: nat) { 1 <= p <= |args| && args[p - 1].Text? }
  predicate IsTexts(args: seq<Value>, p: nat) { 1 <= p <= |args| && args[p - 1].Texts? }
  predicate IsIdent(args: seq<Value>, p: nat) { 1 <= p <= |args| && args[p - 1].Ident? }

  /** Every placeholder has an argument of the right kind. */
  predicate WellFormed(c: Condition, args: seq<Value>) {
    match c
    case HasRole(p) => IsText(args, p)
    case TextIs(_, p) => IsText(args, p)
    case TextIn(_, ps) => forall i | 0 <= i < |ps| :: IsText(args, ps[i])
    case AnyLike(_, p) => IsText(args, p)
    case HasTags(p) => IsTexts(args, p)
    case CaseIs(p) => IsIdent(args, p)
    case IdBelow(p) => IsIdent(args, p)
    case IsCurrent => true
    case NotDestroyed => true
  }

  predicate Holds(w: World, c: Condition, args: seq<Value>, row: Row)
    requires WellFormed(c, args)
  {
    match c
    case HasRole(p) => (row.id, args[p - 1].text) in w.roles
    case TextIs(column, p) => row.text(column) == args[p - 1].text
    case TextIn(column, ps) => exists i :: 0 <= i < |ps| && row.text(column) == args[ps[i] - 1].text
    case AnyLike(columns, p) => exists i :: 0 <= i < |columns| && Like(w.fold, args[p - 1].text, row.text(columns[i]))
    case HasTags(p) => forall t | t in args[p - 1].texts :: t in row.tags
    case CaseIs(p) => row.caseId == args[p - 1].id
    case IdBelow(p) => row.id < args[p - 1].id
    case IsCurrent => row.current
    case NotDestroyed => !row.destroyed
  }

  predicate AllWellFormed(cs: seq<Condition>, args: seq<Value>) {
    forall i | 0 <= i < |cs| :: WellFormed(cs[i], args)
  }

  /** The conditions joined by AND. */
  predicate AllHold(w: World, cs: seq<Condition>, args: seq<Value>, row: Row)
    requires AllWellFormed(cs, args)
  {
    forall i | 0 <= i < |cs| :: Holds(w, cs[i], args, row)
  }

  /** Arguments added at the end change the meaning of nothing built before. */
  lemma Extended(w: World, c: Condition, args: seq<Value>, more: seq<Value>, row: Row)
    requires WellFormed(c, args)
    ensures WellFormed(c, args + more) && (Holds(w, c, args + more, row) <==> Holds(w, c, args, row))
  {
    match c
    case TextIn(column, ps) =>
      assert forall i | 0 <= i < |ps| :: IsText(args, ps[i]) && (args + more)[ps[i] - 1] == args[ps[i] - 1];
    case AnyLike(_, p) => assert (args + more)[p - 1] == args[p - 1];
    case _ =>
  }

  /** One more condition, with its arguments, means one more conjunct. */
  lemma Conjoined(w: World, cs: seq<Condition>, args: seq<Value>, c: Condition, more: seq<Value>, row: Row)
    requires AllWellFormed(cs, args) && WellFormed(c, args + more)
    ensures AllWellFormed(cs + [c], args + more)
    ensures AllHold(w, cs + [c], args + more, row) <==> AllHold(w, cs, args, row) && Holds(w, c, args + more, row)
  {
    forall i | 0 <= i < |cs|
      ensures WellFormed(cs[i], args + more) && (Holds(w, cs[i], args + more, row) <==> Holds(w, cs[i], args, row))
    {
      Extended(w, cs[i], args, more, row);
    }
    assert forall i | 0 <= i < |cs| :: (cs + [c])[i] == cs[i];
    assert (cs + [c])[|cs|] == c;
  }

  /** The conditions mean the first k clauses of a filter, each a property of rows. */
  ghost predicate Means(cs: seq<Condition>, args: seq<Value>, clause: (World, Row, nat) -> bool, k: nat) {
    && AllWellFormed(cs, args)
    && forall w, row :: AllHold(w, cs, args, row) <==> forall j: nat | j < k :: clause(w, row, j)
  }

  lemma Appended(cs: seq<Condition>, args: seq<Value>, clause: (World, Row, nat) -> bool, k: nat,
                 c: Condition, more: seq<Value>)
    requires Means(cs, args, clause, k) && WellFormed(c, args + more)
    requires forall w, row :: Holds(w, c, args + more, row) <==> clause(w, row, k)
    ensures Means(cs + [c], args + more, clause, k + 1)
  {
    forall w, row
      ensures AllWellFormed(cs + [c], args + more)
      ensures AllHold(w, cs + [c], args + more, row) <==> forall j: nat | j < k + 1 :: clause(w, row, j)
    {
      Conjoined(w, cs, args, c, more, row);
      assert Holds(w, c, args + more, row) <==> clause(w, row, k);
    }
    forall i | 0 <= i < |cs + [c]| ensures WellFormed((cs + [c])[i], args + more) {
      if i < |cs| {
        Extended(World({}, {}, x => x), cs[i], args, more, Row(0, 0, _ => "", {}, false, false));
      }
    }
  }

  lemma Skipped(cs: seq<Condition>, args: seq<Value>, clause: (World, Row, nat) -> bool, k: nat)
    requires Means(cs, args, clause, k) && forall w, row :: clause(w, row, k)
    ensures Means(cs, args, clause, k + 1)
  {
    forall w, row ensures AllHold(w, cs, args, row) <==> forall j: nat | j < k + 1 :: clause(w, row, j) {
      assert clause(w, row, k);
    }
  }

  /** Arguments at the end, such as a limit, change nothing. */
  lemma MeansExtended(cs: seq<Condition>, args: seq<Value>, clause: (World, Row, nat) -> bool, k: nat, more: seq<Value>)
    requires Means(cs, args, clause, k)
    ensures Means(cs, args + more, clause, k)
  {
    forall i | 0 <= i < |cs| ensures WellFormed(cs[i], args + more) {
      Extended(World({}, {}, x => x), cs[i], args, more, Row(0, 0, _ => "", {}, false, false));
    }
    forall w, row ensures AllHold(w, cs, args + more, row) <==> AllHold(w, cs, args, row) {
      forall i | 0 <= i < |cs| ensures Holds(w, cs[i], args + more, row) <==> Holds(w, cs[i], args, row) {
        Extended(w, cs[i], args, more, row);
      }
    }
  }

  // ---------------------------------------------------------------- patterns

  /** Case-insensitive LIKE: percent stands for any text, underscore for any character, backslash takes the
      next character literally. */
  predicate Like(fold: char -> char, pattern: string, s: string)
    decreases |pattern|, |s|
  {
    if pattern == "" then s == ""
    else if pattern[0] == '%' then
      Like(fold, pattern[1..], s) || (s != "" && Like(fold, pattern, s[1..]))
    else if pattern[0] == '_' then
      s != "" && Like(fold, pattern[1..], s[1..])
    else if pattern[0] == '\\' then
      |pattern| > 1 && s != "" && fold(pattern[1]) == fold(s[0]) && Like(fold, pattern[2..], s[1..])
    else
      s != "" && fold(pattern[0]) == fold(s[0]) && Like(fold, pattern[1..], s[1..])
  }

  predicate Plain(q: string) { forall i | 0 <= i < |q| :: q[i] != '%' && q[i] != '_' && q[i] != '\\' }

  /** The text q stands at position i of s, up to the case of letters. */
  predicate StandsAt(fold: char -> char, q: string, s: string, i: nat) {
    i + |q| <= |s| && forall k | 0 <= k < |q| :: fold(s[i..][k]) == fold(q[k])
  }

  lemma {:induction false} AnythingLike(fold: char -> char, s: string)
    ensures Like(fold, "%", s)
  {
    if s == "" {
      assert Like(fold, "%"[1..], s);
    } else {
      AnythingLike(fold, s[1..]);
    }
  }

  lemma {:induction false} PrefixLike(fold: char -> char, q: string, s: string)
    requires Plain(q)
    ensures Like(fold, q + "%", s) <==> StandsAt(fold, q, s, 0)
  {
    if q == "" {
      assert q + "%" == "%";
      AnythingLike(fold, s);
    } else {
      var pattern := q + "%";
      assert pattern[0] == q[0] && pattern[1..] == q[1..] + "%";
      if s != "" {
        PrefixLike(fold, q[1..], s[1..]);
        if StandsAt(fold, q, s, 0) {
          assert forall k | 0 <= k < |q[1..]| :: s[1..][0..][k] == s[0..][k + 1] && q[1..][k] == q[k + 1];
        }
        if fold(q[0]) == fold(s[0]) && StandsAt(fold, q[1..], s[1..], 0) {
          forall k | 0 <= k < |q| ensures fold(s[0..][k]) == fold(q[k]) {
            if k > 0 {
              assert s[1..][0..][k - 1] == s[k] && q[1..][k - 1] == q[k];
            }
          }
        }
      }
    }
  }

  /** A search for text without wildcards finds exactly the texts that contain it. */
  lemma {:induction false} SearchMeansContains(fold: char -> char, q: string, s: string)
    requires Plain(q)
    ensures Like(fold, "%" + q + "%", s) <==> exists i: nat :: StandsAt(fold, q, s, i)
    decreases |s|
  {
    var pattern := "%" + q + "%";
    assert pattern[0] == '%' && pattern[1..] == q + "%";
    PrefixLike(fold, q, s);
    if s != "" {
      SearchMeansContains(fold, q, s[1..]);
      forall i: nat ensures StandsAt(fold, q, s, i + 1) <==> StandsAt(fold, q, s[1..], i) {
        if i < |s| {
          assert s[i + 1..] == s[1..][i..];
        }
      }
      if i: nat :| StandsAt(fold, q, s, i) {
        assert i == 0 || StandsAt(fold, q, s[1..], i - 1);
      }
    }
  }

  /** A text that a search finds: nothing for a percent sign, a letter for an underscore, the next character
      for a backslash, which at the end takes the search's own closing percent sign. */
  function Sample(q: string): string {
    if q == "" then ""
    else if q[0] == '%' then Sample(q[1..])
    else if q[0] == '_' then "a" + Sample(q[1..])
    else if q[0] == '\\' then (if |q| == 1 then "%" else [q[1]] + Sample(q[2..]))
    else [q[0]] + Sample(q[1..])
  }

  lemma {:induction false} SampleIsFound(fold: char -> char, q: string)
    ensures Like(fold, q + "%", Sample(q))
    decreases |q|
  {
    var pattern := q + "%";
    if q == "" {
      assert pattern == "%";
      AnythingLike(fold, "");
    } else if q[0] == '\\' {
      if |q| == 1 {
        assert pattern[1] == '%' && pattern[2..] == "" && Sample(q)[1..] == "";
      } else {
        assert pattern[1] == q[1] && pattern[2..] == q[2..] + "%" && Sample(q)[1..] == Sample(q[2..]);
        SampleIsFound(fold, q[2..]);
      }
    } else {
      assert pattern[0] == q[0] && pattern[1..] == q[1..] + "%";
      assert q[0] != '%' ==> Sample(q)[1..] == Sample(q[1..]);
      SampleIsFound(fold, q[1..]);
    }
  }

  /** Letters are compared so that an underscore is no letter and the two other wildcards differ. */
  predicate Distinguishes(fold: char -> char) { fold('a') != fold('_') && fold('%') != fold('\\') }

  lemma {:induction false} SampleIsOther(fold: char -> char, q: string)
    requires Distinguishes(fold)
    ensures |Sample(q)| <= |q|
    ensures !Plain(q) ==> |Sample(q)| < |q| || exists k :: 0 <= k < |q| && fold(Sample(q)[k]) != fold(q[k])
    decreases |q|
  {
    if q != "" {
      if q[0] == '\\' && |q| > 1 {
        SampleIsOther(fold, q[2..]);
      } else if q[0] != '\\' {
        SampleIsOther(fold, q[1..]);
        if q[0] != '%' && q[0] != '_' && !Plain(q) && |Sample(q)| == |q| {
          assert !Plain(q[1..]);
          var k :| 0 <= k < |q[1..]| && fold(Sample(q[1..])[k]) != fold(q[1..][k]);
          assert Sample(q)[k + 1] == Sample(q[1..])[k] && q[k + 1] == q[1..][k];
        }
      } else {
        assert Sample(q)[0] == '%' && q[0] == '\\';
      }
      assert q[0] == '_' ==> Sample(q)[0] == 'a';
    }
  }

  ghost predicate FindsWhatContains(fold: char -> char, q: string) {
    forall s :: Like(fold, "%" + q + "%", s) <==> exists i: nat :: StandsAt(fold, q, s, i)
  }

  /** A search finds exactly the texts that contain it if and only if it holds no wildcard: no percent sign,
      no underscore, no backslash. */
  lemma SearchMeansContainsIff(fold: char -> char, q: string)
    requires Distinguishes(fold)
    ensures FindsWhatContains(fold, q) <==> Plain(q)
  {
    if Plain(q) {
      forall s ensures Like(fold, "%" + q + "%", s) <==> exists i: nat :: StandsAt(fold, q, s, i) {
        SearchMeansContains(fold, q, s);
      }
    } else {
      var s := Sample(q);
      SampleIsFound(fold, q);
      SampleIsOther(fold, q);
      assert ("%" + q + "%")[0] == '%' && ("%" + q + "%")[1..] == q + "%";
      assert Like(fold, "%" + q + "%", s);
      assert s[0..] == s;
      assert forall i: nat :: !StandsAt(fold, q, s, i);
    }
  }

  /** In the same way a prefix filter finds exactly the texts that start with it. */
  lemma PrefixMeansStartsIff(fold: char -> char, q: string)
    requires Distinguishes(fold)
    ensures (forall s :: Like(fold, q + "%", s) <==> StandsAt(fold, q, s, 0)) <==> Plain(q)
  {
    if Plain(q) {
      forall s ensures Like(fold, q + "%", s) <==> StandsAt(fold, q, s, 0) {
        PrefixLike(fold, q, s);
      }
    } else {
      SampleIsFound(fold, q);
      SampleIsOther(fold, q);
      assert Sample(q)[0..] == Sample(q);
      assert Like(fold, q + "%", Sample(q)) && !StandsAt(fold, q, Sample(q), 0);
    }
  }
}
