/** Listing cases page by page: the service method, its cursors, and the walk through all pages. */
module CaseListing {
  import opened Common
  import opened Texts
  import opened Paging
  import Q = CaseQueries
  import Sql

  /** The cursor text of an id and back: base64 over the id's text. */
  datatype Codec = Codec(
    encode: string -> string,
    decode: string -> Option<string>,
    idText: UUID -> string,
    parseId: string -> Option<UUID>)

  ghost predicate Lossless(c: Codec) {
    && (forall s :: c.decode(c.encode(s)) == Some(s))
    && (forall s | s != "" :: c.encode(s) != "")
    && (forall id: UUID :: c.idText(id) != "" && c.parseId(c.idText(id)) == Some(id))
  }

  function EncodeCursor(c: Codec, id: UUID): string { c.encode(c.idText(id)) }

  function DecodeCursor(c: Codec, cursor: string): Option<UUID> {
    match c.decode(cursor)
    case None => None
    case Some(text) => c.parseId(text)
  }

  function Encoder(c: Codec): UUID -> string { (id: UUID) => EncodeCursor(c, id) }

  function Decoder(c: Codec): string -> Option<UUID> { (text: string) => DecodeCursor(c, text) }

  lemma CursorRoundTrip(c: Codec, id: UUID)
    requires Lossless(c)
    ensures EncodeCursor(c, id) != "" && DecodeCursor(c, EncodeCursor(c, id)) == Some(id)
  {
    assert c.decode(c.encode(c.idText(id))) == Some(c.idText(id));
  }

  function IdLess(): (UUID, UUID) -> bool { (a: UUID, b: UUID) => a < b }

  function Size(limit: int): (n: nat)
    ensures 1 <= n <= Q.MAX_LIMIT
  {
    ClampLimit(limit, Q.DEFAULT_LIMIT, Q.MAX_LIMIT)
  }

  /** What a request for a page is answered from the ids of the matching cases in descending order. */
  function CasePages(s: seq<UUID>, limit: int): Option<UUID> -> Page<UUID> {
    Pages(IdLess(), s, Size(limit), |s| > Size(limit))
  }

  /** The query of a page selects exactly the rows the page continues with. */
  lemma QueryServesPage(w: Sql.World, q: Q.Query, f: Q.CaseFilter, limit: int, cursor: Option<UUID>,
                        table: set<Sql.Row>, s: seq<UUID>, id: UUID)
    requires Q.Correct(q, f, limit, cursor)
    requires forall x :: x in s <==> exists row :: row in table && row.id == x && Q.Matches(w, f, row)
    ensures id in From(IdLess(), s, cursor)
       <==> exists row :: row in table && row.id == id && Sql.AllHold(w, q.conditions, q.args, row)
  {
    if cursor.Some? {
      BelowMembers(IdLess(), s, cursor.value, id);
    }
  }

  datatype Listing = Listing(items: seq<UUID>, total: nat, nextCursor: string, hasMore: bool)

  /** One request: an unreadable cursor is refused; otherwise the items and the next cursor are those of the
      page, and the total is that of all matching cases. */
  method ListCases(c: Codec, s: seq<UUID>, limit: int, cursor: string) returns (r: Result<Listing, string>)
    ensures r.Err? <==> CursorOf(Decoder(c), cursor).None?
    ensures r.Ok? ==>
              var page := CasePages(s, limit)(CursorOf(Decoder(c), cursor).value);
              && r.value.items == page.items && r.value.total == |s|
              && (r.value.hasMore <==> page.next.Some?)
              && r.value.nextCursor == CursorText(Encoder(c), page.next)
    ensures r.Ok? ==>
              var size := if limit < 1 then 50 else Min(limit, 200);
              && r.value.items == First(From(IdLess(), s, CursorOf(Decoder(c), cursor).value), size)
              && (r.value.hasMore <==> |r.value.items| == size && |s| > size)
  {
    var size := Size(limit);
    var at: Option<UUID> := None;
    if cursor != "" {
      at := DecodeCursor(c, cursor);
      if at.None? {
        return Err("invalid cursor");
      }
    }
    var rows := First(From(IdLess(), s, at), size + 1);
    var items: seq<UUID> := [];
    for i := 0 to |rows|
      invariant items == rows[..i]
    {
      items := items + [rows[i]];
    }
    if |items| > size {
      items := items[..size];
    }
    assert items == First(From(IdLess(), s, at), size);
    var total := |s|;
    var hasMore := |items| == size && total > size;
    var next := "";
    if hasMore && |items| > 0 {
      next := EncodeCursor(c, items[|items| - 1]);
    }
    r := Ok(Listing(items, total, next, hasMore));
  }

  /** Following next cursors over unchanged data yields every matching case once, in descending id order, in
      one request if they fit a page, and otherwise in one for every full page and one more. */
  lemma WalkListsEveryCaseOnce(s: seq<UUID>, limit: int, patience: nat)
    requires Descending(IdLess(), s) && patience > |s| / Size(limit)
    ensures var pages := Walk(CasePages(s, limit), None, patience);
            && Items(pages) == s
            && |pages| == (if |s| <= Size(limit) then 1 else |s| / Size(limit) + 1)
            && |pages| <= (|s| + Size(limit) - 1) / Size(limit) + 1
  {
    if |s| > Size(limit) {
      WalkAll(IdLess(), s, Size(limit), patience);
      QuotientGrows(|s|, |s| + Size(limit) - 1, Size(limit));
    } else {
      WalkOnce(IdLess(), s, Size(limit), patience);
      assert s[..|s|] == s;
      QuotientGrows(0, |s| + Size(limit) - 1, Size(limit));
    }
  }

  /** The same walk as a client makes it, over the cursor texts that ListCases returns. */
  lemma ClientListsEveryCaseOnce(c: Codec, s: seq<UUID>, limit: int, patience: nat)
    requires Lossless(c) && Descending(IdLess(), s) && patience > |s| / Size(limit)
    ensures var pages := TextWalk(CasePages(s, limit), Encoder(c), Decoder(c), "", patience);
            Items(pages) == s && |pages| == (if |s| <= Size(limit) then 1 else |s| / Size(limit) + 1)
  {
    forall id: UUID ensures Encoder(c)(id) != "" && Decoder(c)(Encoder(c)(id)) == Some(id) {
      CursorRoundTrip(c, id);
    }
    TextWalkIsWalk(CasePages(s, limit), Encoder(c), Decoder(c), None, patience);
    WalkListsEveryCaseOnce(s, limit, patience);
  }

  lemma QuotientGrows(m: nat, n: nat, size: nat)
    requires m <= n && size > 0
    ensures 0 <= m / size <= n / size
  {
    if n / size < m / size {
      assert (m / size - n / size) * size == (m / size) * size - (n / size) * size;
      AtLeastOnce(m / size - n / size, size);
    }
  }
}
