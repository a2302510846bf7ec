// Cursor paging of document and compendium searches.
module Paging {
  import opened Common
  import opened Text
  import opened Base64

  const MAX_SAFE_INTEGER: nat := 9007199254740991

  datatype Cursor = Absent | Malformed | Token(text: string)

  /** `exotic` stands for `Number` on texts that are not plain decimal digits. */
  function Number(text: string, exotic: string -> Option<int>): Option<int> {
    if AllDigits(text) then Some(Value(text)) else exotic(text)
  }

  function EncodeCursor(offset: nat): (cursor: string)
  {
    ValueOfDecimal(offset);
    Btoa(Decimal(offset))
  }

  /** The offset of a cursor; `None` is the invalid-request error. */
  function DecodeCursor(cursor: Cursor, exotic: string -> Option<int>): Option<nat> {
    match cursor
    case Absent => Some(0)
    case Malformed => None
    case Token(text) =>
      var decoded := Atob(text);
      if decoded.None? then None else
        var n := Number(decoded.value, exotic);
        if n.None? || n.value < 0 || n.value > MAX_SAFE_INTEGER then None else Some(n.value)
  }

  /** A cursor survives its encoding, for every safe offset. */
  lemma CursorRoundTrip(offset: nat, exotic: string -> Option<int>)
    ensures DecodeCursor(Token(EncodeCursor(offset)), exotic)
         == if offset <= MAX_SAFE_INTEGER then Some(offset) else None
  {
    ValueOfDecimal(offset);
    AtobBtoa(Decimal(offset));
  }

  // ---- Pages ----

  datatype Page<T> = Page(results: seq<T>, next: Cursor, total: nat)

  function Clamp(limit: int): (n: nat)
    ensures 1 <= n <= 100
    ensures 1 <= limit <= 100 ==> n == limit
    ensures limit > 100 ==> n == 100
    ensures limit < 1 ==> n == 1
  {
    if limit < 1 then 1 else if limit > 100 then 100 else limit
  }

  function Slice<T>(items: seq<T>, from: nat, to: nat): seq<T>
    requires from <= to
  {
    if from >= |items| then [] else items[from..if to <= |items| then to else |items|]
  }

  function PageAt<T>(items: seq<T>, offset: nat, limit: nat): Page<T> {
    Page(Slice(items, offset, offset + limit),
         if offset + limit < |items| then Token(EncodeCursor(offset + limit)) else Absent,
         |items|)
  }

  function Search<T>(items: seq<T>, limit: int, cursor: Cursor, exotic: string -> Option<int>): Option<Page<T>> {
    var offset := DecodeCursor(cursor, exotic);
    if offset.None? then None else Some(PageAt(items, offset.value, Clamp(limit)))
  }

  /** A search as its clients see it: cursors in, pages out. */
  function Searching<T>(items: seq<T>, limit: int, exotic: string -> Option<int>): Cursor -> Option<Page<T>> {
    cursor => Search(items, limit, cursor, exotic)
  }

  function Decoding(exotic: string -> Option<int>): Cursor -> Option<nat> {
    cursor => DecodeCursor(cursor, exotic)
  }

  ghost predicate ServesAt<T>(search: Cursor -> Option<Page<T>>, offsetOf: Cursor -> Option<nat>, items: seq<T>, n: nat,
      cursor: Cursor) {
    offsetOf(cursor).Some? ==>
      var from := offsetOf(cursor).value;
      && search(cursor).Some? && search(cursor).value.results == Slice(items, from, from + n)
      && search(cursor).value.total == |items|
      && if from + n < |items|
         then !search(cursor).value.next.Absent? && offsetOf(search(cursor).value.next) == Some(from + n)
         else search(cursor).value.next.Absent?
  }

  /** Every cursor that stands for an offset gets the `n` items from there, and a cursor that stands for what comes
      next. */
  ghost predicate Serves<T>(search: Cursor -> Option<Page<T>>, offsetOf: Cursor -> Option<nat>, items: seq<T>, n: nat) {
    n > 0 && forall cursor :: ServesAt(search, offsetOf, items, n, cursor)
  }

  /** What a client reads by following `nextCursor` until there is none. */
  ghost function Follow<T>(search: Cursor -> Option<Page<T>>, offsetOf: Cursor -> Option<nat>, items: seq<T>, n: nat,
      cursor: Cursor): (pages: seq<seq<T>>)
    requires Serves(search, offsetOf, items, n) && offsetOf(cursor).Some?
    decreases |items| - offsetOf(cursor).value
  {
    assert ServesAt(search, offsetOf, items, n, cursor);
    var page := search(cursor).value;
    [page.results] + if page.next.Absent? then [] else Follow(search, offsetOf, items, n, page.next)
  }

  lemma NextIsDecoded<T>(items: seq<T>, from: nat, n: nat, exotic: string -> Option<int>)
    requires |items| <= MAX_SAFE_INTEGER && from + n < |items|
    ensures DecodeCursor(PageAt(items, from, n).next, exotic) == Some(from + n)
  {
    CursorRoundTrip(from + n, exotic);
  }

  lemma PageServes<T>(search: Cursor -> Option<Page<T>>, offsetOf: Cursor -> Option<nat>, items: seq<T>, n: nat,
      cursor: Cursor, from: nat, page: Page<T>)
    requires offsetOf(cursor) == Some(from) && search(cursor) == Some(page)
    requires page.results == Slice(items, from, from + n) && page.total == |items|
    requires if from + n < |items| then !page.next.Absent? && offsetOf(page.next) == Some(from + n)
             else page.next.Absent?
    ensures ServesAt(search, offsetOf, items, n, cursor)
  {
  }

  lemma SearchAnswers<T>(items: seq<T>, limit: int, exotic: string -> Option<int>, cursor: Cursor, from: nat)
    requires DecodeCursor(cursor, exotic) == Some(from)
    ensures Searching(items, limit, exotic)(cursor) == Some(PageAt(items, from, Clamp(limit)))
  {
  }

  lemma DecodingAnswers(exotic: string -> Option<int>, cursor: Cursor)
    ensures Decoding(exotic)(cursor) == DecodeCursor(cursor, exotic)
  {
  }

  lemma SearchServesAt<T>(items: seq<T>, limit: int, exotic: string -> Option<int>, cursor: Cursor)
    requires |items| <= MAX_SAFE_INTEGER
    ensures ServesAt(Searching(items, limit, exotic), Decoding(exotic), items, Clamp(limit), cursor)
  {
    var search, offsetOf, n := Searching(items, limit, exotic), Decoding(exotic), Clamp(limit);
    DecodingAnswers(exotic, cursor);
    if offsetOf(cursor).Some? {
      var from := offsetOf(cursor).value;
      var page := PageAt(items, from, n);
      SearchAnswers(items, limit, exotic, cursor, from);
      if from + n < |items| {
        NextIsDecoded(items, from, n, exotic);
        DecodingAnswers(exotic, page.next);
      }
      PageServes(search, offsetOf, items, n, cursor, from, page);
    }
  }

  /** The search keeps that promise, its cursors being base64 of decimal numerals. */
  lemma SearchServes<T>(items: seq<T>, limit: int, exotic: string -> Option<int>)
    requires |items| <= MAX_SAFE_INTEGER
    ensures Serves(Searching(items, limit, exotic), Decoding(exotic), items, Clamp(limit))
    ensures Decoding(exotic)(Absent) == Some(0)
  {
    forall cursor ensures ServesAt(Searching(items, limit, exotic), Decoding(exotic), items, Clamp(limit), cursor) {
      SearchServesAt(items, limit, exotic, cursor);
    }
  }

  function Flatten<T>(pages: seq<seq<T>>): seq<T> {
    if pages == [] then [] else pages[0] + Flatten(pages[1..])
  }

  ghost predicate AllButLastFull<T>(pages: seq<seq<T>>, n: nat) {
    forall i :: 0 <= i < |pages| - 1 ==> |pages[i]| == n
  }

  /** `pages` is the ceiling of `total / n`, but at least one. */
  predicate IsPageCount(pages: nat, total: nat, n: nat) {
    if total == 0 then pages == 1 else (pages - 1) * n < total <= pages * n
  }

  /** The pages that a reader with plain offsets would get. */
  function PagesFrom<T>(items: seq<T>, offset: nat, n: nat): seq<seq<T>>
    requires n > 0
    decreases |items| - offset
  {
    [Slice(items, offset, offset + n)] + if offset + n < |items| then PagesFrom(items, offset + n, n) else []
  }

  lemma {:induction false} FollowReadsPagesFrom<T>(search: Cursor -> Option<Page<T>>, offsetOf: Cursor -> Option<nat>,
      items: seq<T>, n: nat, cursor: Cursor)
    requires Serves(search, offsetOf, items, n) && offsetOf(cursor).Some?
    ensures Follow(search, offsetOf, items, n, cursor) == PagesFrom(items, offsetOf(cursor).value, n)
    decreases |items| - offsetOf(cursor).value
  {
    assert ServesAt(search, offsetOf, items, n, cursor);
    var page := search(cursor).value;
    if !page.next.Absent? {
      FollowReadsPagesFrom(search, offsetOf, items, n, page.next);
    }
  }

  /** Full pages of `n`, but for the last, that make up `items`, as many as it takes. */
  ghost predicate Partitions<T>(pages: seq<seq<T>>, items: seq<T>, n: nat) {
    Flatten(pages) == items && IsPageCount(|pages|, |items|, n) && AllButLastFull(pages, n)
  }

  lemma PartitionsCons<T>(first: seq<T>, rest: seq<seq<T>>, items: seq<T>, n: nat)
    requires |first| == n && items != [] && Partitions(rest, items, n)
    ensures Partitions([first] + rest, first + items, n)
  {
  }

  lemma FlattenCons<T>(first: seq<T>, rest: seq<seq<T>>)
    ensures Flatten([first] + rest) == first + Flatten(rest)
  {
  }

  lemma {:induction false} PagesFromPartition<T>(items: seq<T>, offset: nat, n: nat)
    requires n > 0 && offset <= |items|
    ensures Partitions(PagesFrom(items, offset, n), items[offset..], n)
    decreases |items| - offset
  {
    var next := offset + n;
    if next < |items| {
      PagesFromPartition(items, next, n);
      PartitionsCons(items[offset..next], PagesFrom(items, next, n), items[next..], n);
      assert items[offset..] == items[offset..next] + items[next..];
    } else {
      FlattenCons(items[offset..], []);
    }
  }

  /** The pages read from a search by following its cursors from the start. */
  ghost function PagesRead<T>(items: seq<T>, limit: int, exotic: string -> Option<int>): seq<seq<T>>
    requires |items| <= MAX_SAFE_INTEGER
  {
    SearchServes(items, limit, exotic);
    Follow(Searching(items, limit, exotic), Decoding(exotic), items, Clamp(limit), Absent)
  }

  /** Over an unchanged collection, following the cursors visits `max(1, ceil(total / limit))` pages, all but the last
      full, whose concatenation is the whole filtered list in order. */
  lemma PagesPartitionTheList<T>(items: seq<T>, limit: int, exotic: string -> Option<int>)
    requires |items| <= MAX_SAFE_INTEGER
    ensures Partitions(PagesRead(items, limit, exotic), items, Clamp(limit))
  {
    SearchServes(items, limit, exotic);
    FollowReadsPagesFrom(Searching(items, limit, exotic), Decoding(exotic), items, Clamp(limit), Absent);
    PagesFromPartition(items, 0, Clamp(limit));
    assert items[0..] == items;
  }

  // ---- The two searches ----

  datatype Entry = Entry(name: string, folderId: Option<string>)

  /** Empty texts stand for absent filters; `lower` is the locale's lower-casing. */
  predicate Matches(entry: Entry, query: string, folderId: string, lower: string -> string) {
    (query == "" || Contains(lower(entry.name), query)) && (folderId == "" || entry.folderId == Some(folderId))
  }

  function Filter(entries: seq<Entry>, query: string, folderId: string, lower: string -> string): seq<Entry> {
    if entries == [] then [] else
      (if Matches(entries[0], query, folderId, lower) then [entries[0]] else [])
        + Filter(entries[1..], query, folderId, lower)
  }

  /** Filtering keeps the order. */
  lemma {:induction false} FilterDistributes(a: seq<Entry>, b: seq<Entry>, query: string, folderId: string,
      lower: string -> string)
    ensures Filter(a + b, query, folderId, lower)
            == Filter(a, query, folderId, lower) + Filter(b, query, folderId, lower)
    decreases |a|
  {
    if a == [] {
      assert a + b == b;
    } else {
      var head := if Matches(a[0], query, folderId, lower) then [a[0]] else [];
      FilterDistributes(a[1..], b, query, folderId, lower);
      assert (a + b)[0] == a[0] && (a + b)[1..] == a[1..] + b;
      calc {
        Filter(a + b, query, folderId, lower);
        head + Filter(a[1..] + b, query, folderId, lower);
        head + (Filter(a[1..], query, folderId, lower) + Filter(b, query, folderId, lower));
        (head + Filter(a[1..], query, folderId, lower)) + Filter(b, query, folderId, lower);
        Filter(a, query, folderId, lower) + Filter(b, query, folderId, lower);
      }
    }
  }

  /** The entry has the words of the query in its name, and lies in the folder asked for, if any were. */
  ghost predicate IsMatch(e: Entry, query: string, folderId: string, lower: string -> string) {
    (query == "" || StandsIn(query, lower(e.name))) && (folderId == "" || e.folderId == Some(folderId))
  }

  lemma {:induction false} FilterMeaning(entries: seq<Entry>, query: string, folderId: string,
      lower: string -> string, e: Entry)
    ensures e in Filter(entries, query, folderId, lower) <==> e in entries && IsMatch(e, query, folderId, lower)
    decreases |entries|
  {
    if entries != [] {
      FilterMeaning(entries[1..], query, folderId, lower, e);
      assert e in entries <==> e == entries[0] || e in entries[1..];
      ContainsMeaning(lower(e.name), query);
    }
  }

  /** A client that follows the cursors of a document search reads every matching entry, once and in order, and no
      other. */
  lemma DocumentPagesAreTheMatches(entries: seq<Entry>, query: string, folderId: string, lower: string -> string,
      limit: int, exotic: string -> Option<int>)
    requires |Filter(entries, query, folderId, lower)| <= MAX_SAFE_INTEGER
    ensures var found := Filter(entries, query, folderId, lower);
            && Flatten(PagesRead(found, limit, exotic)) == found
            && (forall e :: e in found <==> e in entries && IsMatch(e, query, folderId, lower))
  {
    PagesPartitionTheList(Filter(entries, query, folderId, lower), limit, exotic);
    forall e
      ensures e in Filter(entries, query, folderId, lower) <==> e in entries && IsMatch(e, query, folderId, lower)
    {
      FilterMeaning(entries, query, folderId, lower, e);
    }
  }

  datatype IndexEntry = IndexEntry(id: string, name: Option<string>)

  datatype Pack = Pack(collection: string, documentName: string, index: seq<IndexEntry>)

  datatype Hit = Hit(uuid: string, documentType: string, name: string, packId: string)

  function NameOf(e: IndexEntry): string {
    if e.name.Some? then e.name.value else e.id
  }

  function HitFor(pack: Pack, e: IndexEntry): Hit {
    Hit("Compendium." + pack.collection + "." + e.id, pack.documentName, NameOf(e), pack.collection)
  }

  predicate Wanted(pack: Pack, packId: string, documentType: string) {
    (packId == "" || pack.collection == packId) && (documentType == "" || pack.documentName == documentType)
  }

  predicate NameMatches(e: IndexEntry, query: string, lower: string -> string) {
    query == "" || Contains(lower(NameOf(e)), query)
  }

  function PackHits(pack: Pack, query: string, lower: string -> string, k: nat): seq<Hit>
    requires k <= |pack.index|
  {
    if k == 0 then [] else
      PackHits(pack, query, lower, k - 1)
      + if NameMatches(pack.index[k - 1], query, lower) then [HitFor(pack, pack.index[k - 1])] else []
  }

  function Hits(packs: seq<Pack>, query: string, packId: string, documentType: string,
      lower: string -> string): seq<Hit> {
    if packs == [] then [] else
      var last := packs[|packs| - 1];
      Hits(packs[..|packs| - 1], query, packId, documentType, lower)
      + if Wanted(last, packId, documentType) then PackHits(last, query, lower, |last.index|) else []
  }

  lemma HitsSnoc(packs: seq<Pack>, last: Pack, query: string, packId: string, documentType: string,
      lower: string -> string)
    ensures Hits(packs + [last], query, packId, documentType, lower)
         == Hits(packs, query, packId, documentType, lower)
            + if Wanted(last, packId, documentType) then PackHits(last, query, lower, |last.index|) else []
  {
    assert (packs + [last])[..|packs|] == packs;
  }

  /** The inner loop, over the entries of one pack. */
  method CollectFromPack(pack: Pack, query: string, lower: string -> string) returns (results: seq<Hit>)
    ensures results == PackHits(pack, query, lower, |pack.index|)
  {
    results := [];
    for k := 0 to |pack.index|
      invariant results == PackHits(pack, query, lower, k)
    {
      if NameMatches(pack.index[k], query, lower) {
        results := results + [HitFor(pack, pack.index[k])];
      }
    }
  }

  /** The outer loop, over the packs. */
  method CollectHits(packs: seq<Pack>, query: string, packId: string, documentType: string, lower: string -> string)
    returns (results: seq<Hit>)
    ensures results == Hits(packs, query, packId, documentType, lower)
  {
    results := [];
    for i := 0 to |packs|
      invariant results == Hits(packs[..i], query, packId, documentType, lower)
    {
      HitsSnoc(packs[..i], packs[i], query, packId, documentType, lower);
      assert packs[..i + 1] == packs[..i] + [packs[i]];
      if Wanted(packs[i], packId, documentType) {
        var found := CollectFromPack(packs[i], query, lower);
        results := results + found;
      }
    }
    assert packs[..|packs|] == packs;
  }

  method SearchCompendiums(packs: seq<Pack>, query: string, packId: string, documentType: string,
      lower: string -> string, limit: int, cursor: Cursor, exotic: string -> Option<int>)
    returns (page: Option<Page<Hit>>)
    ensures page == Search(Hits(packs, query, packId, documentType, lower), limit, cursor, exotic)
  {
    var offset := DecodeCursor(cursor, exotic);
    if offset.None? {
      return None;
    }
    var results := CollectHits(packs, query, packId, documentType, lower);
    return Some(PageAt(results, offset.value, Clamp(limit)));
  }

  /** Entry `j` of the pack is wanted, and `hit` is what is told of it. */
  ghost predicate IsHit(pack: Pack, j: nat, query: string, lower: string -> string, hit: Hit) {
    && j < |pack.index|
    && var e := pack.index[j];
       var name := if e.name.Some? then e.name.value else e.id;
       && (query == "" || StandsIn(query, lower(name)))
       && hit.uuid == "Compendium." + pack.collection + "." + e.id && hit.documentType == pack.documentName
       && hit.name == name && hit.packId == pack.collection
  }

  lemma {:induction false} PackHitsMeaning(pack: Pack, query: string, lower: string -> string, k: nat, hit: Hit)
    requires k <= |pack.index|
    ensures hit in PackHits(pack, query, lower, k) <==> exists j: nat :: j < k && IsHit(pack, j, query, lower, hit)
  {
    if k > 0 {
      PackHitsMeaning(pack, query, lower, k - 1, hit);
      ContainsMeaning(lower(NameOf(pack.index[k - 1])), query);
      assert IsHit(pack, k - 1, query, lower, hit) <==>
               NameMatches(pack.index[k - 1], query, lower) && hit == HitFor(pack, pack.index[k - 1]);
    }
  }

  /** The hits over several packs are exactly the matching entries of the packs asked for. */
  lemma {:induction false} HitsMeaning(packs: seq<Pack>, query: string, packId: string, documentType: string,
      lower: string -> string, hit: Hit)
    ensures hit in Hits(packs, query, packId, documentType, lower) <==>
              exists i: nat, j: nat :: i < |packs| && IsHit(packs[i], j, query, lower, hit)
                && (packId == "" || packs[i].collection == packId)
                && (documentType == "" || packs[i].documentName == documentType)
  {
    if packs != [] {
      var init, last := packs[..|packs| - 1], packs[|packs| - 1];
      assert packs == init + [last];
      HitsMeaning(init, query, packId, documentType, lower, hit);
      PackHitsMeaning(last, query, lower, |last.index|, hit);
    }
  }

  /** A cursor is refused unless it decodes to a plain number that is a safe natural. */
  lemma BadCursorsAreRefused(text: string, exotic: string -> Option<int>)
    ensures DecodeCursor(Malformed, exotic) == None && DecodeCursor(Absent, exotic) == Some(0)
    ensures Atob(text) == None ==> DecodeCursor(Token(text), exotic) == None
    ensures Atob(text).Some? && !AllDigits(Atob(text).value) && exotic(Atob(text).value) == None ==>
              DecodeCursor(Token(text), exotic) == None
    ensures DecodeCursor(Token(text), exotic).Some? ==> DecodeCursor(Token(text), exotic).value <= 9007199254740991
    ensures Atob(text).Some? && AllDigits(Atob(text).value) && Value(Atob(text).value) <= 9007199254740991 ==>
              DecodeCursor(Token(text), exotic) == Some(Value(Atob(text).value))
  {
  }
}
