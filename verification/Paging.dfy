/** Keyset paging over fixed data: a list in descending key order, pages that continue below the last key
    seen, and the walk of a client that follows the next cursors to the end. */
module Paging {
  import opened Common

  /** A requested page size brought into range. */
  function ClampLimit(limit: int, default: nat, max: nat): (l: nat)
    requires 1 <= default <= max
    ensures 1 <= l <= max
    ensures l == limit <==> 1 <= limit <= max
    ensures limit < 1 ==> l == default
    ensures limit > max ==> l == max
  {
    if limit <= 0 then default else if limit > max then max else limit
  }

  ghost predicate Descending<K(!new)>(less: (K, K) -> bool, s: seq<K>) {
    && (forall k :: !less(k, k))
    && (forall a, b :: less(a, b) ==> !less(b, a))
    && (forall i, j | 0 <= i < j < |s| :: less(s[j], s[i]))
  }

  /** The rows of a list whose keys are below a cursor, in list order. */
  function Below<K>(less: (K, K) -> bool, s: seq<K>, cursor: K): seq<K> {
    if s == [] then [] else (if less(s[0], cursor) then [s[0]] else []) + Below(less, s[1..], cursor)
  }

  function From<K>(less: (K, K) -> bool, s: seq<K>, cursor: Option<K>): seq<K> {
    match cursor
    case None => s
    case Some(c) => Below(less, s, c)
  }

  function First<K>(s: seq<K>, n: nat): seq<K> { s[..Min(|s|, n)] }

  datatype Page<K> = Page(items: seq<K>, next: Option<K>)

  /** A page of at most `size` rows below the cursor; a full one names its last key as the next cursor when
      the caller is told there is more. */
  function PageAt<K>(less: (K, K) -> bool, s: seq<K>, size: nat, more: bool, cursor: Option<K>): Page<K>
    requires size > 0
  {
    var items := First(From(less, s, cursor), size);
    Page(items, if |items| == size && more then Some(items[size - 1]) else None)
  }

  function Pages<K>(less: (K, K) -> bool, s: seq<K>, size: nat, more: bool): Option<K> -> Page<K>
    requires size > 0
  {
    (cursor: Option<K>) => PageAt(less, s, size, more, cursor)
  }

  /** The pages a client gets by following next cursors, giving up after `patience` requests. */
  function Walk<K>(page: Option<K> -> Page<K>, cursor: Option<K>, patience: nat): seq<Page<K>>
    decreases patience
  {
    if patience == 0 then [] else
      var p := page(cursor);
      [p] + if p.next.None? then [] else Walk(page, p.next, patience - 1)
  }

  function Items<K>(pages: seq<Page<K>>): seq<K> {
    if pages == [] then [] else pages[0].items + Items(pages[1..])
  }

  lemma {:induction false} BelowMembers<K>(less: (K, K) -> bool, s: seq<K>, cursor: K, k: K)
    ensures k in Below(less, s, cursor) <==> k in s && less(k, cursor)
  {
    if s != [] {
      BelowMembers(less, s[1..], cursor, k);
    }
  }

  lemma {:induction false} BelowAll<K>(less: (K, K) -> bool, s: seq<K>, cursor: K)
    requires forall i | 0 <= i < |s| :: less(s[i], cursor)
    ensures Below(less, s, cursor) == s
  {
    if s != [] {
      BelowAll(less, s[1..], cursor);
    }
  }

  /** Below the key of a row comes exactly what follows that row. */
  lemma {:induction false} BelowIsRest<K(!new)>(less: (K, K) -> bool, s: seq<K>, i: nat)
    requires Descending(less, s) && i < |s|
    ensures Below(less, s, s[i]) == s[i + 1..]
  {
    if i == 0 {
      BelowAll(less, s[1..], s[0]);
    } else {
      assert less(s[i], s[0]);
      BelowIsRest(less, s[1..], i - 1);
    }
  }

  /** The cursor under which the rows from position i on are next. */
  predicate StandsBefore<K(==)>(s: seq<K>, cursor: Option<K>, i: nat) {
    i <= |s| && match cursor
                case None => i == 0
                case Some(c) => i > 0 && s[i - 1] == c
  }

  /** One page takes the next `size` rows and leaves the cursor before those that follow. */
  lemma PageTakes<K(!new)>(less: (K, K) -> bool, s: seq<K>, size: nat, more: bool, cursor: Option<K>, i: nat)
    requires Descending(less, s) && size > 0 && StandsBefore(s, cursor, i)
    ensures var p := PageAt(less, s, size, more, cursor);
            && p.items == s[i..Min(i + size, |s|)]
            && (p.next.Some? <==> more && i + size <= |s|)
            && (p.next.Some? ==> StandsBefore(s, p.next, i + size))
  {
    if cursor.Some? {
      BelowIsRest(less, s, i - 1);
    }
    assert From(less, s, cursor) == s[i..];
    assert First(s[i..], size) == s[i..Min(i + size, |s|)];
  }

  function FullPages(n: nat, size: nat): nat
    requires size > 0
  {
    if n < size then 0 else 1 + FullPages(n - size, size)
  }

  lemma {:induction false} FullPagesBounds(n: nat, size: nat)
    requires size > 0
    ensures FullPages(n, size) * size <= n < FullPages(n, size) * size + size
  {
    if n >= size {
      FullPagesBounds(n - size, size);
      assert FullPages(n, size) * size == FullPages(n - size, size) * size + size;
    }
  }

  lemma AtLeastOnce(d: nat, size: nat)
    requires d > 0
    ensures d * size >= size
  {
    assert (d - 1) * size >= 0;
  }

  lemma FullPagesIsQuotient(n: nat, size: nat)
    requires size > 0
    ensures FullPages(n, size) == n / size
  {
    FullPagesBounds(n, size);
    var q, r := FullPages(n, size), n / size;
    assert n == r * size + n % size;
    assert (r - q) * size == r * size - q * size && (q - r) * size == q * size - r * size;
    if q < r {
      AtLeastOnce(r - q, size);
    } else if r < q {
      AtLeastOnce(q - r, size);
    }
  }

  // ---------------------------------------------------------------- cursors as text

  /** The cursor text of a request for what follows `cursor`; the first request has none. */
  function CursorText<K>(encode: K -> string, cursor: Option<K>): string {
    match cursor
    case None => ""
    case Some(k) => encode(k)
  }

  /** What a request's cursor text stands for; the inner None is an unreadable text. */
  function CursorOf<K>(decode: string -> Option<K>, text: string): Option<Option<K>> {
    if text == "" then Some(None)
    else
      match decode(text)
      case None => None
      case Some(k) => Some(Some(k))
  }

  /** The walk as a client makes it, sending back each next cursor's text. A refused request ends it. */
  function TextWalk<K>(page: Option<K> -> Page<K>, encode: K -> string, decode: string -> Option<K>,
                       text: string, patience: nat): seq<Page<K>>
    decreases patience
  {
    if patience == 0 then [] else
      match CursorOf(decode, text)
      case None => []
      case Some(cursor) =>
        var p := page(cursor);
        [p] + if p.next.None? then [] else TextWalk(page, encode, decode, CursorText(encode, p.next), patience - 1)
  }

  ghost predicate ReadsBack<K(!new)>(encode: K -> string, decode: string -> Option<K>) {
    forall k :: encode(k) != "" && decode(encode(k)) == Some(k)
  }

  /** When cursor texts read back, that is the walk over the keys. */
  lemma {:induction false} TextWalkIsWalk<K(!new)>(page: Option<K> -> Page<K>, encode: K -> string, decode: string -> Option<K>,
                                                   cursor: Option<K>, patience: nat)
    requires ReadsBack(encode, decode)
    ensures TextWalk(page, encode, decode, CursorText(encode, cursor), patience) == Walk(page, cursor, patience)
    decreases patience
  {
    if patience > 0 {
      assert CursorOf(decode, CursorText(encode, cursor)) == Some(cursor);
      if page(cursor).next.Some? {
        TextWalkIsWalk(page, encode, decode, page(cursor).next, patience - 1);
      }
    }
  }

  // ---------------------------------------------------------------- walks

  /** The first request of a walk and the rest. */
  lemma WalkStep<K>(page: Option<K> -> Page<K>, cursor: Option<K>, patience: nat)
    requires patience > 0
    ensures var p := page(cursor);
            var rest := if p.next.None? then [] else Walk(page, p.next, patience - 1);
            Walk(page, cursor, patience) == [p] + rest && Items(Walk(page, cursor, patience)) == p.items + Items(rest)
  {
    var p := page(cursor);
    var rest := if p.next.None? then [] else Walk(page, p.next, patience - 1);
    assert ([p] + rest)[1..] == rest;
  }

  /** Every request under a cursor standing before position i gets the next rows and the cursor after them,
      if its page is full. */
  ghost predicate Serves<K(!new)>(page: Option<K> -> Page<K>, s: seq<K>, size: nat) {
    forall cursor, i: nat | StandsBefore(s, cursor, i) ::
      && page(cursor).items == s[i..Min(i + size, |s|)]
      && (page(cursor).next.Some? <==> i + size <= |s|)
      && (page(cursor).next.Some? ==> StandsBefore(s, page(cursor).next, i + size))
  }

  lemma PageServes<K(!new)>(less: (K, K) -> bool, s: seq<K>, size: nat, cursor: Option<K>, i: nat, p: Page<K>)
    requires Descending(less, s) && size > 0 && StandsBefore(s, cursor, i) && p == Pages(less, s, size, true)(cursor)
    ensures p.items == s[i..Min(i + size, |s|)]
    ensures p.next.Some? <==> i + size <= |s|
    ensures p.next.Some? ==> StandsBefore(s, p.next, i + size)
  {
    PageTakes(less, s, size, true, cursor, i);
  }

  lemma PagesServe<K(!new)>(less: (K, K) -> bool, s: seq<K>, size: nat)
    requires Descending(less, s) && size > 0
    ensures Serves(Pages(less, s, size, true), s, size)
  {
    var page := Pages(less, s, size, true);
    forall cursor, i: nat | StandsBefore(s, cursor, i)
      ensures page(cursor).items == s[i..Min(i + size, |s|)]
      ensures page(cursor).next.Some? <==> i + size <= |s|
      ensures page(cursor).next.Some? ==> StandsBefore(s, page(cursor).next, i + size)
    {
      PageServes(less, s, size, cursor, i, page(cursor));
    }
  }

  lemma ServedStep<K(!new)>(page: Option<K> -> Page<K>, s: seq<K>, size: nat, cursor: Option<K>, i: nat, patience: nat)
    requires Serves(page, s, size) && StandsBefore(s, cursor, i) && i + size <= |s| && patience > 0
    ensures page(cursor).next.Some? && StandsBefore(s, page(cursor).next, i + size)
    ensures var rest := Walk(page, page(cursor).next, patience - 1);
            && |Walk(page, cursor, patience)| == 1 + |rest|
            && Items(Walk(page, cursor, patience)) == s[i..i + size] + Items(rest)
  {
    WalkStep(page, cursor, patience);
  }

  lemma ServedLast<K(!new)>(page: Option<K> -> Page<K>, s: seq<K>, size: nat, cursor: Option<K>, i: nat, patience: nat)
    requires Serves(page, s, size) && StandsBefore(s, cursor, i) && i + size > |s| && patience > 0
    ensures |Walk(page, cursor, patience)| == 1 && Items(Walk(page, cursor, patience)) == s[i..]
  {
    WalkStep(page, cursor, patience);
  }

  lemma {:induction false} WalkServed<K(!new)>(page: Option<K> -> Page<K>, s: seq<K>, size: nat, cursor: Option<K>, i: nat, patience: nat)
    requires Serves(page, s, size) && size > 0 && StandsBefore(s, cursor, i) && patience > FullPages(|s| - i, size)
    ensures Items(Walk(page, cursor, patience)) == s[i..]
    ensures |Walk(page, cursor, patience)| == FullPages(|s| - i, size) + 1
    decreases patience
  {
    if i + size <= |s| {
      ServedStep(page, s, size, cursor, i, patience);
      WalkServed(page, s, size, page(cursor).next, i + size, patience - 1);
      assert s[i..i + size] + s[i + size..] == s[i..];
    } else {
      ServedLast(page, s, size, cursor, i, patience);
    }
  }

  /** With the cursor always handed on, the walk yields the whole list, each row once and in order, and ends
      after one request for every full page and one more, however patient the client is. */
  lemma WalkAll<K(!new)>(less: (K, K) -> bool, s: seq<K>, size: nat, patience: nat)
    requires Descending(less, s) && size > 0 && patience > |s| / size
    ensures Items(Walk(Pages(less, s, size, true), None, patience)) == s
    ensures |Walk(Pages(less, s, size, true), None, patience)| == |s| / size + 1
  {
    FullPagesIsQuotient(|s|, size);
    PagesServe(less, s, size);
    WalkServed(Pages(less, s, size, true), s, size, None, 0, patience);
  }

  /** Without cursors handed on, the walk is the first page. */
  lemma WalkOnce<K(!new)>(less: (K, K) -> bool, s: seq<K>, size: nat, patience: nat)
    requires Descending(less, s) && size > 0 && patience > 0
    ensures var pages := Walk(Pages(less, s, size, false), None, patience);
            |pages| == 1 && Items(pages) == s[..Min(size, |s|)]
  {
    PageTakes(less, s, size, false, None, 0);
    WalkStep(Pages(less, s, size, false), None, patience);
  }
}
