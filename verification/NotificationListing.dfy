/** Listing a user's notifications page by page: the handler over the repository, the composite cursor, and
    the walk through the pages. */
module NotificationListing {
  import opened Common
  import opened Texts
  import opened Paging

  /** Notifications are listed by creation time, then id, both descending. */
  datatype Key = Key(at: Timestamp, id: UUID)

  function KeyLess(): (Key, Key) -> bool {
    (a: Key, b: Key) => a.at < b.at || (a.at == b.at && a.id < b.id)
  }

  // ---------------------------------------------------------------- cursors

  datatype Codec = Codec(
    encode: string -> string,
    decode: string -> Option<string>,
    text: Rendering,
    parseTime: string -> Option<Timestamp>,
    parseId: string -> Option<UUID>)

  ghost predicate Lossless(c: Codec) {
    && (forall s :: c.decode(c.encode(s)) == Some(s))
    && (forall s | s != "" :: c.encode(s) != "")
    && (forall t: Timestamp :: c.parseTime(c.text.time(t)) == Some(t))
    && (forall id: UUID :: Free(c.text.id(id), '|') && c.parseId(c.text.id(id)) == Some(id))
  }

  /** The position of the last bar, or -1. */
  function LastBar(s: string): (i: int)
    ensures -1 <= i < |s|
    ensures i >= 0 ==> s[i] == '|'
    ensures forall j | i < j < |s| :: s[j] != '|'
  {
    if s == "" then -1 else if s[|s| - 1] == '|' then |s| - 1 else LastBar(s[..|s| - 1])
  }

  /** One part without a bar, otherwise what is before and after the last one. */
  method SplitCursor(s: string) returns (parts: seq<string>)
    ensures parts == if LastBar(s) < 0 then [s] else [s[..LastBar(s)], s[LastBar(s) + 1..]]
  {
    var idx, i := -1, |s| - 1;
    while i >= 0
      invariant -1 <= i < |s| && idx == -1
      invariant forall j | i < j < |s| :: s[j] != '|'
    {
      if s[i] == '|' {
        idx := i;
        break;
      }
      i := i - 1;
    }
    if idx < 0 {
      return [s];
    }
    return [s[..idx], s[idx + 1..]];
  }

  function EncodeCursor(c: Codec, k: Key): string {
    c.encode(c.text.time(k.at) + "|" + c.text.id(k.id))
  }

  /** A cursor is read by its last bar: a time before it, an id after it. */
  function Decoded(c: Codec, cursor: string): Option<Key> {
    match c.decode(cursor)
    case None => None
    case Some(raw) =>
      var i := LastBar(raw);
      if i < 0 then None
      else if c.parseTime(raw[..i]).None? || c.parseId(raw[i + 1..]).None? then None
      else Some(Key(c.parseTime(raw[..i]).value, c.parseId(raw[i + 1..]).value))
  }

  method DecodeCursor(c: Codec, cursor: string) returns (r: Option<Key>)
    ensures r == Decoded(c, cursor)
  {
    var raw := c.decode(cursor);
    if raw.None? {
      return None;
    }
    var parts := SplitCursor(raw.value);
    if |parts| != 2 {
      return None;
    }
    var at := c.parseTime(parts[0]);
    if at.None? {
      return None;
    }
    var id := c.parseId(parts[1]);
    if id.None? {
      return None;
    }
    return Some(Key(at.value, id.value));
  }

  /** A text with a bar means the time before and the id after its last bar, if both can be read; without one it means
      nothing. */
  lemma CursorMeans(c: Codec, cursor: string, a: string, b: string)
    requires c.decode(cursor) == Some(a + "|" + b) && Free(b, '|')
    ensures Decoded(c, cursor) ==
            match (c.parseTime(a), c.parseId(b))
            case (Some(at), Some(id)) => Some(Key(at := at, id := id))
            case _ => None
  {
    var raw := a + "|" + b;
    assert raw[|a|] == '|' && forall j | |a| < j < |raw| :: raw[j] == b[j - |a| - 1];
    assert LastBar(raw) == |a|;
    assert raw[..|a|] == a && raw[|a| + 1..] == b;
  }

  function Encoder(c: Codec): Key -> string { (k: Key) => EncodeCursor(c, k) }

  function Decoder(c: Codec): string -> Option<Key> { (text: string) => Decoded(c, text) }

  /** Decoding undoes encoding, even if a time's text contained bars. */
  lemma CursorRoundTrip(c: Codec, k: Key)
    requires Lossless(c)
    ensures EncodeCursor(c, k) != "" && Decoded(c, EncodeCursor(c, k)) == Some(k)
  {
    var a, b := c.text.time(k.at), c.text.id(k.id);
    var raw := a + "|" + b;
    assert c.decode(c.encode(raw)) == Some(raw);
    assert raw[|a|] == '|' && forall j | |a| < j < |raw| :: raw[j] == b[j - |a| - 1];
    assert LastBar(raw) == |a|;
    assert raw[..|a|] == a && raw[|a| + 1..] == b;
  }

  // ---------------------------------------------------------------- the query

  datatype Arg = User(user: string) | At(at: Timestamp) | Ident(id: UUID) | Number(n: int)

  /** Older than the time at one placeholder, or as old with an id below the other. */
  datatype Keyset = Keyset(at: nat, id: nat)

  predicate WellFormed(k: Keyset, args: seq<Arg>) {
    1 <= k.at <= |args| && args[k.at - 1].At? && 1 <= k.id <= |args| && args[k.id - 1].Ident?
  }

  predicate Holds(k: Keyset, args: seq<Arg>, key: Key)
    requires WellFormed(k, args)
  {
    var at, id := args[k.at - 1].at, args[k.id - 1].id;
    key.at < at || (key.at == at && key.id < id)
  }

  /** The clause means exactly "below the cursor"; the user is the first argument and the limit the last. */
  method BuildList(user: string, cursor: Option<Key>, limit: nat)
    returns (clause: Option<Keyset>, args: seq<Arg>, argIdx: nat)
    ensures argIdx == |args| && |args| > 0 && args[0] == User(user) && args[argIdx - 1] == Number(limit + 1)
    ensures clause.Some? <==> cursor.Some?
    ensures clause.Some? ==>
              && WellFormed(clause.value, args)
              && (forall key :: Holds(clause.value, args, key) <==> KeyLess()(key, cursor.value))
              && forall key: Key :: KeyLess()(key, cursor.value) <==>
                   key.at < cursor.value.at || (key.at == cursor.value.at && key.id < cursor.value.id)
  {
    args, argIdx := [User(user)], 2;
    clause := None;
    if cursor.Some? {
      clause := Some(Keyset(argIdx, argIdx + 1));
      args := args + [At(cursor.value.at), Ident(cursor.value.id)];
      argIdx := argIdx + 2;
    }
    args := args + [Number(limit + 1)];
  }

  // ---------------------------------------------------------------- pages

  const DEFAULT_LIMIT := 25
  const MAX_LIMIT := 100

  function Size(limit: int): (n: nat)
    ensures 1 <= n <= MAX_LIMIT
  {
    ClampLimit(limit, DEFAULT_LIMIT, MAX_LIMIT)
  }

  /** The limit a request asks for; anything unreadable or not positive is the default. */
  function Asked(parameter: Option<int>): (n: nat)
    ensures n > 0
  {
    if parameter.Some? && parameter.value > 0 then parameter.value else DEFAULT_LIMIT
  }

  /** Pages as the handler serves them: the next cursor is named when the page has as many items as were asked
      for, while the repository serves no more than its maximum. */
  function NotificationPages(s: seq<Key>, asked: nat): Option<Key> -> Page<Key> {
    Pages(KeyLess(), s, Size(asked), asked == Size(asked))
  }

  /** The repository's page: `s` holds the keys of the user's notifications in list order. */
  method ListByUser(c: Codec, s: seq<Key>, limit: int, cursor: string) returns (r: Result<seq<Key>, string>)
    ensures r.Err? <==> cursor != "" && Decoded(c, cursor).None?
    ensures r.Ok? ==> r.value == First(From(KeyLess(), s, if cursor == "" then None else Decoded(c, cursor)), Size(limit))
  {
    var size := limit;
    if size <= 0 {
      size := DEFAULT_LIMIT;
    }
    if size > MAX_LIMIT {
      size := MAX_LIMIT;
    }
    var at: Option<Key> := None;
    if cursor != "" {
      at := DecodeCursor(c, cursor);
      if at.None? {
        return Err("invalid cursor");
      }
    }
    var rows := First(From(KeyLess(), s, at), size + 1);
    var items: seq<Key> := [];
    for i := 0 to |rows|
      invariant items == rows[..i]
    {
      items := items + [rows[i]];
    }
    if |items| > size {
      items := items[..size];
    }
    r := Ok(items);
  }

  datatype Listing = Listing(items: seq<Key>, nextCursor: string, hasMore: bool)

  method List(c: Codec, s: seq<Key>, parameter: Option<int>, cursor: string) returns (r: Result<Listing, string>)
    ensures r.Err? <==> CursorOf(Decoder(c), cursor).None?
    ensures r.Ok? ==>
              var page := NotificationPages(s, Asked(parameter))(CursorOf(Decoder(c), cursor).value);
              && r.value.items == page.items
              && (r.value.hasMore <==> page.next.Some?)
              && r.value.nextCursor == CursorText(Encoder(c), page.next)
    ensures r.Ok? ==>
              var asked := if parameter.Some? && parameter.value > 0 then parameter.value else 25;
              && r.value.items == First(From(KeyLess(), s, CursorOf(Decoder(c), cursor).value), Min(asked, 100))
              && (r.value.hasMore <==> |r.value.items| == asked)
  {
    var limit := DEFAULT_LIMIT;
    if parameter.Some? && parameter.value > 0 {
      limit := parameter.value;
    }
    var items := ListByUser(c, s, limit, cursor);
    if items.Err? {
      return Err(items.error);
    }
    var hasMore := |items.value| == limit;
    var next := "";
    if hasMore && |items.value| > 0 {
      next := EncodeCursor(c, items.value[|items.value| - 1]);
    }
    r := Ok(Listing(items.value, next, hasMore));
  }

  /** Following next cursors over unchanged data: asked for at most 100 at a time, the walk lists everything
      once, in order, in one request for every full page and one more; asked for more, it stops after the
      first 100. So it is complete exactly when no more than 100 are asked for at a time or exist at all. */
  lemma WalkIsCompleteIff(s: seq<Key>, asked: nat, patience: nat)
    requires Descending(KeyLess(), s) && asked > 0 && patience > |s| / Size(asked)
    ensures var pages := Walk(NotificationPages(s, asked), None, patience);
            && |pages| == (if asked <= 100 then |s| / asked + 1 else 1)
            && Items(pages) == (if asked <= 100 then s else s[..Min(100, |s|)])
            && (Items(pages) == s <==> asked <= 100 || |s| <= 100)
  {
    if asked <= 100 {
      WalkAll(KeyLess(), s, asked, patience);
    } else {
      WalkOnce(KeyLess(), s, MAX_LIMIT, patience);
      assert |s| <= 100 ==> s[..Min(100, |s|)] == s;
    }
  }

  /** The same walk as a client makes it, over the cursor texts that List returns. */
  lemma ClientWalkIsCompleteIff(c: Codec, s: seq<Key>, asked: nat, patience: nat)
    requires Lossless(c) && Descending(KeyLess(), s) && asked > 0 && patience > |s| / Size(asked)
    ensures var pages := TextWalk(NotificationPages(s, asked), Encoder(c), Decoder(c), "", patience);
            && |pages| == (if asked <= 100 then |s| / asked + 1 else 1)
            && Items(pages) == (if asked <= 100 then s else s[..Min(100, |s|)])
            && (Items(pages) == s <==> asked <= 100 || |s| <= 100)
  {
    forall k ensures Encoder(c)(k) != "" && Decoder(c)(Encoder(c)(k)) == Some(k) {
      CursorRoundTrip(c, k);
    }
    TextWalkIsWalk(NotificationPages(s, asked), Encoder(c), Decoder(c), None, patience);
    WalkIsCompleteIff(s, asked, patience);
  }
}
