/** Making a client's file name safe to store. */
module FilenameSanitizer {
  import opened Common

  const MAX_FILENAME := 255

  predicate Alphanumeric(c: char) { 'a' <= c <= 'z' || 'A' <= c <= 'Z' || '0' <= c <= '9' }

  /** Characters that survive everything but truncation. */
  predicate Solid(c: char) { Alphanumeric(c) || c == '-' }

  predicate Safe(c: char) { Solid(c) || c == '.' || c == '_' || c == ' ' }

  predicate Gap(c: char) { c == '_' || c == ' ' }

  predicate Edge(c: char) { c == '.' || c == ' ' }

  // ---------------------------------------------------------------- the steps

  function StripSlashes(s: string): string {
    if s != "" && s[|s| - 1] == '/' then StripSlashes(s[..|s| - 1]) else s
  }

  function AfterLastSlash(s: string): string {
    if s == "" || s[|s| - 1] == '/' then "" else AfterLastSlash(s[..|s| - 1]) + [s[|s| - 1]]
  }

  /** The last element of a path. */
  function Base(path: string): string {
    if path == "" then "." else
      var last := AfterLastSlash(StripSlashes(path));
      if last == "" then "/" else last
  }

  function WithoutNul(s: string): string {
    if s == "" then "" else (if s[0] == '\0' then "" else [s[0]]) + WithoutNul(s[1..])
  }

  function Replaced(s: string): (r: string)
    ensures |r| == |s| && forall i | 0 <= i < |s| :: r[i] == if Safe(s[i]) then s[i] else '_'
  {
    seq(|s|, i requires 0 <= i < |s| => if Safe(s[i]) then s[i] else '_')
  }

  function GapLength(s: string): (n: nat)
    ensures n <= |s| && (n < |s| ==> !Gap(s[n])) && forall i | 0 <= i < n :: Gap(s[i])
  {
    if s != "" && Gap(s[0]) then 1 + GapLength(s[1..]) else 0
  }

  /** Every run of two or more underscores and spaces becomes one underscore. */
  function Collapsed(s: string): string
    decreases |s|
  {
    if s == "" then ""
    else if GapLength(s) >= 2 then "_" + Collapsed(s[GapLength(s)..])
    else [s[0]] + Collapsed(s[1..])
  }

  function TrimLeft(s: string): string {
    if s != "" && Edge(s[0]) then TrimLeft(s[1..]) else s
  }

  function TrimRight(s: string): string {
    if s != "" && Edge(s[|s| - 1]) then TrimRight(s[..|s| - 1]) else s
  }

  function Trimmed(s: string): string { TrimRight(TrimLeft(s)) }

  /** From the last dot on, or nothing. */
  function Ext(s: string): (e: string)
    ensures |e| <= |s|
  {
    if s == "" then ""
    else if s[|s| - 1] == '.' then "."
    else
      var e := Ext(s[..|s| - 1]);
      if e == "" then "" else e + [s[|s| - 1]]
  }

  function Cleaned(name: string): string {
    Trimmed(Collapsed(Replaced(WithoutNul(Base(name)))))
  }

  /** Shortened to 255 with the extension kept; None where cutting the name goes out of range. */
  function Shortened(s: string): Option<string> {
    if |s| <= MAX_FILENAME then Some(s)
    else if |Ext(s)| > MAX_FILENAME then None
    else Some(s[..MAX_FILENAME - |Ext(s)|] + Ext(s))
  }

  function OrUnnamed(s: string): string {
    if s == "" || s == "." || s == ".." then "unnamed" else s
  }

  /** None is a panic. */
  function SanitizeFilename(name: string): Option<string> {
    match Shortened(Cleaned(name))
    case None => None
    case Some(s) => Some(OrUnnamed(s))
  }

  // ---------------------------------------------------------------- what a name must be

  predicate AllSafe(s: string) { forall i | 0 <= i < |s| :: Safe(s[i]) }

  predicate NoDoubleGap(s: string) { forall i | 0 < i < |s| :: !(Gap(s[i - 1]) && Gap(s[i])) }

  predicate HasEdges(s: string) { s == "" || (!Edge(s[0]) && !Edge(s[|s| - 1])) }

  lemma {:induction false} CollapsedShape(s: string)
    requires AllSafe(s)
    ensures AllSafe(Collapsed(s)) && NoDoubleGap(Collapsed(s))
    ensures s != "" && !Gap(s[0]) ==> Collapsed(s) != "" && !Gap(Collapsed(s)[0])
    decreases |s|
  {
    if s != "" {
      var n := GapLength(s);
      CollapsedShape(if n >= 2 then s[n..] else s[1..]);
    }
  }

  lemma {:induction false} CollapsedSame(s: string)
    requires NoDoubleGap(s)
    ensures Collapsed(s) == s
  {
    if s != "" {
      assert GapLength(s) < 2;
      assert NoDoubleGap(s[1..]) by {
        forall i | 0 < i < |s[1..]| ensures !(Gap(s[1..][i - 1]) && Gap(s[1..][i])) {
          assert s[1..][i - 1] == s[i] && s[1..][i] == s[i + 1];
        }
      }
      CollapsedSame(s[1..]);
    }
  }

  lemma {:induction false} TrimLeftIsSuffix(s: string) returns (i: nat)
    ensures i <= |s| && TrimLeft(s) == s[i..] && (i < |s| ==> !Edge(s[i]))
  {
    i := 0;
    if s != "" && Edge(s[0]) {
      var j := TrimLeftIsSuffix(s[1..]);
      i := j + 1;
    }
  }

  lemma {:induction false} TrimRightIsPrefix(s: string) returns (i: nat)
    ensures i <= |s| && TrimRight(s) == s[..i] && (i > 0 ==> !Edge(s[i - 1]))
  {
    i := |s|;
    if s != "" && Edge(s[|s| - 1]) {
      i := TrimRightIsPrefix(s[..|s| - 1]);
    }
  }

  lemma TrimmedShape(s: string)
    requires AllSafe(s) && NoDoubleGap(s)
    ensures AllSafe(Trimmed(s)) && NoDoubleGap(Trimmed(s)) && HasEdges(Trimmed(s))
  {
    var i := TrimLeftIsSuffix(s);
    var j := TrimRightIsPrefix(s[i..]);
    var t := Trimmed(s);
    assert forall k | 0 <= k < |t| :: t[k] == s[i + k];
    forall k | 0 < k < |t| ensures !(Gap(t[k - 1]) && Gap(t[k])) {
      assert t[k - 1] == s[i + k - 1] && t[k] == s[i + k];
    }
  }

  lemma CleanedShape(name: string)
    ensures AllSafe(Cleaned(name)) && NoDoubleGap(Cleaned(name)) && HasEdges(Cleaned(name))
  {
    var s := Replaced(WithoutNul(Base(name)));
    CollapsedShape(s);
    TrimmedShape(Collapsed(s));
  }

  lemma {:induction false} ExtIsSuffix(s: string)
    ensures Ext(s) == s[|s| - |Ext(s)|..]
    ensures Ext(s) != "" ==> Ext(s)[0] == '.' && forall i | 0 < i < |Ext(s)| :: Ext(s)[i] != '.'
  {
    if s != "" && s[|s| - 1] != '.' {
      ExtIsSuffix(s[..|s| - 1]);
    }
  }

  lemma ShortenedShape(s: string)
    requires AllSafe(s) && NoDoubleGap(s) && Shortened(s).Some?
    ensures var r := Shortened(s).value;
            AllSafe(r) && NoDoubleGap(r) && |r| == Min(|s|, MAX_FILENAME)
  {
    ExtIsSuffix(s);
    var r := Shortened(s).value;
    if |s| > MAX_FILENAME {
      var cut := MAX_FILENAME - |Ext(s)|;
      assert forall i | 0 <= i < |r| :: r[i] == if i < cut then s[i] else s[i + |s| - MAX_FILENAME];
      forall i | 0 < i < |r| ensures !(Gap(r[i - 1]) && Gap(r[i])) {
        if i == cut {
          assert r[i] == '.';
        }
      }
    }
  }

  lemma UnnamedIsSafe()
    ensures AllSafe("unnamed") && NoDoubleGap("unnamed")
  {
  }

  /** A sanitized name is never empty, "." or "..", has at most 255 characters, all of them safe (so no
      slash, backslash or control character), and no two adjacent ones out of underscore and space. */
  lemma SanitizedIsSafe(name: string)
    requires SanitizeFilename(name).Some?
    ensures var r := SanitizeFilename(name).value;
            && 0 < |r| <= 255 && r != "." && r != ".."
            && AllSafe(r) && NoDoubleGap(r)
            && forall i | 0 <= i < |r| :: r[i] != '/' && r[i] != '\\' && r[i] != '\0'
  {
    CleanedShape(name);
    ShortenedShape(Cleaned(name));
    UnnamedIsSafe();
  }

  /** It fails exactly when the cleaned name's extension is longer than 255. */
  lemma FailsIff(name: string)
    ensures SanitizeFilename(name).None? <==> |Ext(Cleaned(name))| > 255
  {
  }

  /** It does for a letter, a dot and 255 more letters. */
  lemma LongExtensionFails()
    ensures SanitizeFilename("a." + seq(255, _ => 'b')).None?
  {
    var e := "." + seq(255, _ => 'b');
    var name := "a." + seq(255, _ => 'b');
    CleanedOfSafe(name);
    TrimmedSame(name);
    assert name == "a" + e;
    ExtOfSum("a", e);
  }

  /** Truncation keeps the extension. */
  lemma ExtensionKept(s: string)
    requires Shortened(s).Some?
    ensures Ext(Shortened(s).value) == Ext(s)
  {
    if |s| > MAX_FILENAME {
      ExtIsSuffix(s);
      var prefix := s[..MAX_FILENAME - |Ext(s)|];
      if Ext(s) == "" {
        NoDots(s);
        assert prefix + Ext(s) == prefix;
        NoDots(prefix);
      } else {
        ExtOfSum(prefix, Ext(s));
      }
    }
  }

  lemma {:induction false} NoDots(s: string)
    ensures Ext(s) == "" <==> forall i | 0 <= i < |s| :: s[i] != '.'
  {
    if s != "" {
      NoDots(s[..|s| - 1]);
    }
  }

  lemma {:induction false} ExtOfSum(prefix: string, e: string)
    requires e != "" && e[0] == '.' && forall i | 0 < i < |e| :: e[i] != '.'
    ensures Ext(prefix + e) == e
    decreases |e|
  {
    var s := prefix + e;
    if |e| == 1 {
      assert s[|s| - 1] == '.';
      assert e == ".";
    } else {
      ExtOfSum(prefix, e[..|e| - 1]);
      assert s[..|s| - 1] == prefix + e[..|e| - 1];
      assert e[..|e| - 1] + [e[|e| - 1]] == e;
    }
  }

  // ---------------------------------------------------------------- the last element of a path

  predicate Slashes(s: string) { forall i | 0 <= i < |s| :: s[i] == '/' }

  predicate NoSlash(s: string) { forall i | 0 <= i < |s| :: s[i] != '/' }

  lemma {:induction false} StripSlashesIsPrefix(s: string) returns (j: nat)
    ensures j <= |s| && StripSlashes(s) == s[..j] && Slashes(s[j..]) && (j > 0 ==> s[j - 1] != '/')
  {
    j := |s|;
    if s != "" && s[|s| - 1] == '/' {
      j := StripSlashesIsPrefix(s[..|s| - 1]);
      assert s[j..] == s[..|s| - 1][j..] + "/";
    }
  }

  lemma {:induction false} AfterLastSlashIsSuffix(s: string) returns (i: nat)
    ensures i <= |s| && AfterLastSlash(s) == s[i..] && NoSlash(s[i..]) && (i > 0 ==> s[i - 1] == '/')
  {
    i := |s|;
    if s != "" && s[|s| - 1] != '/' {
      i := AfterLastSlashIsSuffix(s[..|s| - 1]);
      assert s[i..] == s[..|s| - 1][i..] + [s[|s| - 1]];
    }
  }

  /** The base of a path is what stands between its last slash and the slashes at its end; a path of slashes has the base
      "/", and no path the base ".". */
  lemma BaseIsLastElement(path: string) returns (i: nat, j: nat)
    ensures path == "" ==> Base(path) == "."
    ensures path != "" && Slashes(path) ==> Base(path) == "/"
    ensures !Slashes(path) ==>
              && i < j <= |path| && Base(path) == path[i..j] && NoSlash(path[i..j])
              && Slashes(path[j..]) && (i > 0 ==> path[i - 1] == '/')
  {
    j := StripSlashesIsPrefix(path);
    i := AfterLastSlashIsSuffix(path[..j]);
    assert path[..j][i..] == path[i..j];
    if j == 0 {
      assert path[j..] == path;
    } else {
      assert path[j - 1] != '/';
      assert i < j by { assert path[i..j] == path[..j][i..]; }
    }
  }

  /** So directories in front of a name are dropped, whichever way they lead. */
  lemma DirectoriesDropped(dir: string, name: string)
    requires name != "" && NoSlash(name)
    ensures Base(name) == name && Base(dir + "/" + name) == name
    ensures SanitizeFilename(dir + "/" + name) == SanitizeFilename(name)
  {
    BaseOfLast("", name, name);
    BaseOfLast(dir + "/", name, dir + "/" + name);
  }

  lemma BaseOfLast(front: string, name: string, path: string)
    requires name != "" && NoSlash(name) && path == front + name && (front == "" || front[|front| - 1] == '/')
    ensures Base(path) == name
  {
    assert path[|path| - 1] == name[|name| - 1];
    AfterLastSlashOfSum(front, name);
  }

  lemma {:induction false} AfterLastSlashOfSum(front: string, name: string)
    requires NoSlash(name) && (front == "" || front[|front| - 1] == '/')
    ensures AfterLastSlash(front + name) == name
    decreases |name|
  {
    if name != "" {
      var k := |name| - 1;
      assert (front + name)[..|front| + k] == front + name[..k];
      AfterLastSlashOfSum(front, name[..k]);
      assert name == name[..k] + [name[k]];
    } else {
      assert front + name == front;
    }
  }

  // ---------------------------------------------------------------- gaps and zero characters

  lemma {:induction false} GapOfSum(g: string, b: string)
    requires (forall i | 0 <= i < |g| :: Gap(g[i])) && (b == "" || !Gap(b[0]))
    ensures GapLength(g + b) == |g|
  {
    if g == "" {
      assert g + b == b;
    } else {
      assert (g + b)[1..] == g[1..] + b;
      GapOfSum(g[1..], b);
    }
  }

  lemma CollapsedStep(s: string, m: nat)
    requires s != "" && m == if GapLength(s) >= 2 then GapLength(s) else 1
    ensures Collapsed(s) == (if GapLength(s) >= 2 then "_" else [s[0]]) + Collapsed(s[m..])
  {
  }

  lemma CollapsedOfSumStep(a: string, t: string) returns (m: nat, head: string)
    requires a != "" && !Gap(a[|a| - 1])
    ensures 0 < m <= |a| && (m < |a| ==> a[m..] != "" && a[m..][|a[m..]| - 1] == a[|a| - 1])
    ensures Collapsed(a + t) == head + Collapsed(a[m..] + t) && Collapsed(a) == head + Collapsed(a[m..])
  {
    var n := FirstRun(a, t);
    m, head := if n >= 2 then n else 1, if n >= 2 then "_" else [a[0]];
    assert (a + t)[m..] == a[m..] + t;
    CollapsedStep(a, m);
    CollapsedStep(a + t, m);
  }

  /** What does not end in a gap is treated on its own. */
  lemma {:induction false} CollapsedOfSum(a: string, t: string)
    requires a == "" || !Gap(a[|a| - 1])
    ensures Collapsed(a + t) == Collapsed(a) + Collapsed(t)
    decreases |a|
  {
    if a == "" {
      assert a + t == t;
    } else {
      var m, head := CollapsedOfSumStep(a, t);
      var rest := a[m..];
      CollapsedOfSum(rest, t);
      Glue(head, Collapsed(rest), Collapsed(t));
    }
  }

  /** A run of two or more underscores and spaces becomes one underscore; what is around it is treated on its own. */
  lemma RunBecomesUnderscore(a: string, g: string, b: string)
    requires |g| >= 2 && (forall i | 0 <= i < |g| :: Gap(g[i]))
    requires (a == "" || !Gap(a[|a| - 1])) && (b == "" || !Gap(b[0]))
    ensures Collapsed(a + g + b) == Collapsed(a) + "_" + Collapsed(b)
  {
    CollapsedOfSum(a, g + b);
    RunInFront(g, b);
    Glue(a, g, b);
    Glue(Collapsed(a), "_", Collapsed(b));
  }

  lemma RunInFront(g: string, b: string)
    requires |g| >= 2 && (forall i | 0 <= i < |g| :: Gap(g[i])) && (b == "" || !Gap(b[0]))
    ensures Collapsed(g + b) == "_" + Collapsed(b)
  {
    GapOfSum(g, b);
    assert (g + b)[|g|..] == b;
  }

  /** The first run of a name ends within it, whatever follows, if the name does not end in a gap. */
  lemma FirstRun(a: string, b: string) returns (n: nat)
    requires a != "" && !Gap(a[|a| - 1])
    ensures n == GapLength(a) == GapLength(a + b) && n < |a|
  {
    n := GapLength(a);
    assert a + b == a[..n] + (a[n..] + b);
    GapOfSum(a[..n], a[n..] + b);
  }

  lemma Glue(x: string, y: string, z: string)
    ensures x + (y + z) == (x + y) + z
  {
  }

  lemma {:induction false} NulsOfSum(a: string, b: string)
    ensures WithoutNul(a + b) == WithoutNul(a) + WithoutNul(b)
  {
    if a == "" {
      assert a + b == b;
    } else {
      NulsOfSum(a[1..], b);
      assert (a + b)[1..] == a[1..] + b && (a + b)[0] == a[0];
      Glue(if a[0] == '\0' then "" else [a[0]], WithoutNul(a[1..]), WithoutNul(b));
    }
  }

  lemma NulRemoved(a: string, b: string)
    ensures WithoutNul(a + "\0" + b) == WithoutNul(a + b)
  {
    NulsOfSum(a + "\0", b);
    NulsOfSum(a, "\0");
    NulsOfSum(a, b);
    assert WithoutNul("\0") == "";
    assert WithoutNul(a) + "" == WithoutNul(a);
  }

  /** Zero characters in a name without directories make no difference. */
  lemma NulDropped(a: string, b: string)
    requires a + b != "" && NoSlash(a) && NoSlash(b)
    ensures SanitizeFilename(a + "\0" + b) == SanitizeFilename(a + b)
  {
    var s, t := a + "\0" + b, a + b;
    BaseOfLast("", t, t);
    BaseOfLast("", s, s);
    NulRemoved(a, b);
    SameCleaned(s, t);
  }

  lemma SameCleaned(s: string, t: string)
    requires WithoutNul(Base(s)) == WithoutNul(Base(t))
    ensures SanitizeFilename(s) == SanitizeFilename(t)
  {
  }

  // ---------------------------------------------------------------- idempotence

  lemma {:induction false} StepsSame(s: string)
    requires s != "" && AllSafe(s)
    ensures StripSlashes(s) == s && AfterLastSlash(s) == s && WithoutNul(s) == s && Base(s) == s
    decreases |s|
  {
    AfterLastSlashSame(s);
    WithoutNulSame(s);
  }

  lemma {:induction false} AfterLastSlashSame(s: string)
    requires AllSafe(s)
    ensures AfterLastSlash(s) == s
  {
    if s != "" {
      AfterLastSlashSame(s[..|s| - 1]);
      assert s == s[..|s| - 1] + [s[|s| - 1]];
    }
  }

  lemma {:induction false} WithoutNulSame(s: string)
    requires AllSafe(s)
    ensures WithoutNul(s) == s
  {
    if s != "" {
      WithoutNulSame(s[1..]);
      assert s == [s[0]] + s[1..];
    }
  }

  /** Only trimming can still change a name that is already safe. */
  lemma CleanedOfSafe(s: string)
    requires s != "" && AllSafe(s) && NoDoubleGap(s)
    ensures Cleaned(s) == Trimmed(s)
  {
    StepsSame(s);
    assert Replaced(s) == s;
    CollapsedSame(s);
  }

  lemma TrimmedSame(s: string)
    ensures Trimmed(s) == s <==> HasEdges(s)
    ensures |Trimmed(s)| <= |s|
  {
    var i := TrimLeftIsSuffix(s);
    var j := TrimRightIsPrefix(s[i..]);
    if HasEdges(s) && s != "" {
      assert TrimLeft(s) == s;
    }
  }

  lemma StableIffEdges(name: string)
    requires SanitizeFilename(name).Some?
    ensures var r := SanitizeFilename(name).value;
            SanitizeFilename(r) == Some(r) <==> HasEdges(r)
  {
    var r := SanitizeFilename(name).value;
    SanitizedIsSafe(name);
    CleanedOfSafe(r);
    TrimmedSame(r);
    assert HasEdges("unnamed");
  }

  /** A cut of the cleaned name leaves no dot or space at an end: there is an extension and something in front
      of it, or no extension and no space where the cut ends. */
  predicate CutsWell(c: string) {
    |c| <= MAX_FILENAME || 0 < |Ext(c)| < MAX_FILENAME || (Ext(c) == "" && c[MAX_FILENAME - 1] != ' ')
  }

  lemma CutEdges(c: string)
    requires HasEdges(c) && Shortened(c).Some?
    ensures HasEdges(Shortened(c).value) <==> CutsWell(c)
  {
    if |c| > MAX_FILENAME {
      ExtIsSuffix(c);
      NoDots(c);
      var r := Shortened(c).value;
      var cut := MAX_FILENAME - |Ext(c)|;
      assert cut > 0 ==> r[0] == c[0];
      assert Ext(c) != "" ==> r[MAX_FILENAME - 1] == c[|c| - 1];
      assert Ext(c) == "" ==> r[MAX_FILENAME - 1] == c[MAX_FILENAME - 1];
    }
  }

  /** Sanitizing again changes nothing exactly when the cleaned name is short enough or is cut well; */
  lemma IdempotentIff(name: string)
    requires SanitizeFilename(name).Some?
    ensures var r := SanitizeFilename(name).value;
            SanitizeFilename(r) == Some(r) <==> CutsWell(Cleaned(name))
  {
    CleanedShape(name);
    StableIffEdges(name);
    CutEdges(Cleaned(name));
    ShortenedShape(Cleaned(name));
    assert HasEdges("unnamed");
  }

  /** for instance not for 254 letters, a space and one more letter; */
  lemma CutAtSpaceIsNotStable()
    ensures var name := seq(254, _ => 'a') + " b";
            && SanitizeFilename(name).Some?
            && SanitizeFilename(SanitizeFilename(name).value) != SanitizeFilename(name)
  {
    var name := seq(254, _ => 'a') + " b";
    CleanedOfSafe(name);
    TrimmedSame(name);
    NoDots(name);
    assert name[254] == ' ';
    IdempotentIff(name);
  }

  /** so it is idempotent whenever truncation is not reached. */
  lemma IdempotentWhenShort(name: string)
    requires |Cleaned(name)| <= MAX_FILENAME
    ensures SanitizeFilename(name).Some?
    ensures var r := SanitizeFilename(name).value; SanitizeFilename(r) == Some(r)
  {
    IdempotentIff(name);
  }

  /** A name that is clean already is kept: letters, digits, hyphens, dots, underscores and spaces, without dots or spaces
      at its ends and without two underscores or spaces in a row. */
  lemma CleanNameKept(name: string)
    requires 0 < |name| <= 255
    requires forall i | 0 <= i < |name| ::
               'a' <= name[i] <= 'z' || 'A' <= name[i] <= 'Z' || '0' <= name[i] <= '9' || name[i] in "-._ "
    requires forall i | 0 < i < |name| :: !(name[i - 1] in "_ " && name[i] in "_ ")
    requires name[0] !in ". " && name[|name| - 1] !in ". "
    ensures SanitizeFilename(name) == Some(name)
  {
    CleanedOfSafe(name);
    TrimmedSame(name);
  }

  // ---------------------------------------------------------------- nothing else is lost

  function Solids(s: string): string {
    if s == "" then "" else (if Solid(s[0]) then [s[0]] else "") + Solids(s[1..])
  }

  lemma {:induction false} SolidsOfSum(a: string, b: string)
    ensures Solids(a + b) == Solids(a) + Solids(b)
  {
    if a == "" {
      assert a + b == b;
    } else {
      SolidsOfSum(a[1..], b);
      assert (a + b)[0] == a[0] && (a + b)[1..] == a[1..] + b;
      var head := if Solid(a[0]) then [a[0]] else "";
      assert head + (Solids(a[1..]) + Solids(b)) == (head + Solids(a[1..])) + Solids(b);
    }
  }

  lemma {:induction false} NoSolids(s: string)
    requires forall i | 0 <= i < |s| :: !Solid(s[i])
    ensures Solids(s) == ""
  {
    if s != "" {
      NoSolids(s[1..]);
    }
  }

  lemma {:induction false} SolidsReplaced(s: string)
    ensures Solids(Replaced(WithoutNul(s))) == Solids(s)
  {
    if s != "" {
      SolidsReplaced(s[1..]);
      var rest := WithoutNul(s[1..]);
      if s[0] != '\0' {
        assert Replaced([s[0]] + rest)[1..] == Replaced(rest);
      } else {
        assert "" + rest == rest;
      }
    }
  }

  lemma {:induction false} SolidsCollapsed(s: string)
    ensures Solids(Collapsed(s)) == Solids(s)
    decreases |s|
  {
    if s != "" {
      var n := GapLength(s);
      if n >= 2 {
        SolidsCollapsed(s[n..]);
        NoSolids(s[..n]);
        SolidsOfSum(s[..n], s[n..]);
        assert s == s[..n] + s[n..];
        SolidsOfSum("_", Collapsed(s[n..]));
        NoSolids("_");
      } else {
        SolidsCollapsed(s[1..]);
        assert ([s[0]] + Collapsed(s[1..]))[1..] == Collapsed(s[1..]);
      }
    }
  }

  lemma {:induction false} SolidsTrimLeft(s: string)
    ensures Solids(TrimLeft(s)) == Solids(s)
  {
    if s != "" && Edge(s[0]) {
      SolidsTrimLeft(s[1..]);
    }
  }

  lemma {:induction false} SolidsTrimRight(s: string)
    ensures Solids(TrimRight(s)) == Solids(s)
  {
    if s != "" && Edge(s[|s| - 1]) {
      var n := |s| - 1;
      SolidsTrimRight(s[..n]);
      SolidsOfSum(s[..n], s[n..]);
      assert s == s[..n] + s[n..];
      NoSolids(s[n..]);
    }
  }

  /** Short of truncation a name keeps all letters, digits and hyphens of the path's last element, in order;
      a name left with nothing is the only one replaced. */
  lemma LettersKept(name: string)
    requires |Cleaned(name)| <= MAX_FILENAME
    ensures SanitizeFilename(name).Some?
    ensures Solids(Cleaned(name)) == Solids(Base(name))
    ensures Cleaned(name) != "" ==> Solids(SanitizeFilename(name).value) == Solids(Base(name))
  {
    var a := Replaced(WithoutNul(Base(name)));
    SolidsReplaced(Base(name));
    SolidsCollapsed(a);
    SolidsTrimLeft(Collapsed(a));
    SolidsTrimRight(TrimLeft(Collapsed(a)));
    CleanedShape(name);
  }
}
