/**
 * Salvaging a paginated list the strict path rejected: walk the pages again with the entries left raw, check the
 * entries one at a time, keep the good ones and report the rest.
 */
module ListSalvage {
  import opened Options
  import opened Json

  const LIST_MAX_PAGES: nat := 64

  type Method = string
  type MessageId = string
  type Cursor = string

  /** An error object, by identity. */
  type Error = nat

  datatype Parsed = Good(value: Json) | Bad(reason: string)

  datatype Malformed = Malformed(name: Method, index: nat, caption: Option<string>, reason: string)

  // ----- One page -----

  /** The entries that pass, as parsed, in order. */
  function ValidOf(items: seq<Json>, schema: Json -> Parsed): seq<Json> {
    if items == [] then [] else
    var n := |items| - 1;
    ValidOf(items[..n], schema) + (match schema(items[n]) case Good(value) => [value] case Bad(_) => [])
  }

  /** The entries that fail, each with its position in the whole list. */
  function MalformedOf(
    name: Method, items: seq<Json>, schema: Json -> Parsed, caption: Json -> Option<string>, start: nat)
    : seq<Malformed>
  {
    if items == [] then [] else
    var n := |items| - 1;
    MalformedOf(name, items[..n], schema, caption, start) +
    (match schema(items[n])
     case Good(_) => []
     case Bad(reason) => [Malformed(name, start + n, caption(items[n]), reason)])
  }

  method SalvageListItems(
      name: Method, items: seq<Json>, schema: Json -> Parsed, caption: Json -> Option<string>, start: nat)
    returns (valid: seq<Json>, malformed: seq<Malformed>)
    ensures valid == ValidOf(items, schema) && malformed == MalformedOf(name, items, schema, caption, start)
  {
    valid, malformed := [], [];
    for offset := 0 to |items|
      invariant valid == ValidOf(items[..offset], schema)
      invariant malformed == MalformedOf(name, items[..offset], schema, caption, start)
    {
      assert items[..offset + 1][..offset] == items[..offset];
      match schema(items[offset]) {
        case Good(value) => valid := valid + [value];
        case Bad(reason) => malformed := malformed + [Malformed(name, start + offset, caption(items[offset]), reason)];
      }
    }
    assert items[..|items|] == items;
  }

  /** Every entry is kept or reported, never both, never neither. */
  lemma {:induction false} SplitIsTotal(
    name: Method, items: seq<Json>, schema: Json -> Parsed, caption: Json -> Option<string>, start: nat)
    ensures |ValidOf(items, schema)| + |MalformedOf(name, items, schema, caption, start)| == |items|
  {
    if items != [] {
      SplitIsTotal(name, items[..|items| - 1], schema, caption, start);
    }
  }

  /** Splitting page by page, with a running index, is splitting the concatenation once. */
  lemma {:induction false} SplitConcat(
    name: Method, xs: seq<Json>, ys: seq<Json>, schema: Json -> Parsed, caption: Json -> Option<string>, start: nat)
    ensures ValidOf(xs + ys, schema) == ValidOf(xs, schema) + ValidOf(ys, schema)
    ensures
      MalformedOf(name, xs + ys, schema, caption, start) ==
      MalformedOf(name, xs, schema, caption, start) + MalformedOf(name, ys, schema, caption, start + |xs|)
  {
    if ys == [] {
      assert xs + ys == xs;
    } else {
      var n := |ys| - 1;
      assert (xs + ys)[..|xs + ys| - 1] == xs + ys[..n];
      SplitConcat(name, xs, ys[..n], schema, caption, start);
    }
  }

  /** What the report says of an entry is true of the entry at that position. */
  lemma {:induction false} ReportIsTrue(
    name: Method, items: seq<Json>, schema: Json -> Parsed, caption: Json -> Option<string>, start: nat, i: nat)
    requires i < |MalformedOf(name, items, schema, caption, start)|
    ensures
      var m := MalformedOf(name, items, schema, caption, start)[i];
      && m.name == name && start <= m.index < start + |items|
      && schema(items[m.index - start]) == Bad(m.reason)
      && m.caption == caption(items[m.index - start])
  {
    var n := |items| - 1;
    if i < |MalformedOf(name, items[..n], schema, caption, start)| {
      ReportIsTrue(name, items[..n], schema, caption, start, i);
    }
  }

  /**
   * What is kept is the parsed form of an entry, not the entry: the `i`-th of an entry with `i` good ones before it.
   */
  lemma {:induction false} KeptIsParsed(items: seq<Json>, schema: Json -> Parsed, i: nat) returns (j: nat)
    requires i < |ValidOf(items, schema)|
    ensures j < |items| && schema(items[j]) == Good(ValidOf(items, schema)[i])
    ensures |ValidOf(items[..j], schema)| == i
  {
    var n := |items| - 1;
    if i < |ValidOf(items[..n], schema)| {
      j := KeptIsParsed(items[..n], schema, i);
      assert items[..n][..j] == items[..j];
    } else {
      j := n;
    }
  }

  /** The report is in the order of the list. */
  lemma {:induction false} ReportInOrder(
    name: Method, items: seq<Json>, schema: Json -> Parsed, caption: Json -> Option<string>, start: nat, i: nat, j: nat)
    requires i < j < |MalformedOf(name, items, schema, caption, start)|
    ensures
      var report := MalformedOf(name, items, schema, caption, start);
      report[i].index < report[j].index
  {
    var n := |items| - 1;
    var before := MalformedOf(name, items[..n], schema, caption, start);
    if j < |before| {
      ReportInOrder(name, items[..n], schema, caption, start, i, j);
    } else {
      ReportIsTrue(name, items[..n], schema, caption, start, i);
    }
  }

  // ----- The walk -----

  /**
   * What a page request comes to, auth recovery included: it throws, with its own error; or a page comes, with whether
   * the modern envelope holds, the entries if the list member is a list, and the next cursor.
   */
  datatype PageReply =
    | NoPage(error: Error)
    | Page(envelopeOk: bool, items: Option<seq<Json>>, nextCursor: Option<Cursor>)

  /**
   * The two maps of the client that other calls share: whose answer to each method came last, and each method's report.
   */
  datatype Shared = Shared(lastAnswered: map<Method, MessageId>, malformed: map<Method, seq<Malformed>>)

  datatype Salvage = Salvaged(items: seq<Json>) | Threw(error: Error)

  ghost predicate Usable(page: PageReply, modern: bool) {
    page.Page? && page.items.Some? && (modern ==> page.envelopeOk)
  }

  ghost predicate AllUsable(pages: seq<PageReply>, modern: bool) {
    forall p <- pages :: Usable(p, modern)
  }

  /** The entries of the pages laid end to end. */
  ghost function Items(pages: seq<PageReply>): seq<Json> {
    if pages == [] then [] else
    var last := pages[|pages| - 1];
    Items(pages[..|pages| - 1]) + (if last.Page? then last.items.GetOr([]) else [])
  }

  function NextCursorOf(page: PageReply): Option<Cursor> {
    if page.Page? then page.nextCursor else None
  }

  /** A page is the server's answer to a cursor: none for the first, then the one the page before it gave. */
  ghost predicate IsLink(
    pages: seq<PageReply>, asked: seq<Option<Cursor>>, server: (nat, Option<Cursor>) -> PageReply, k: nat)
    requires k < |pages| == |asked|
  {
    pages[k] == server(k, asked[k]) && asked[k] == (if k == 0 then None else NextCursorOf(pages[k - 1]))
  }

  ghost predicate IsChain(
    pages: seq<PageReply>, asked: seq<Option<Cursor>>, server: (nat, Option<Cursor>) -> PageReply)
  {
    |asked| == |pages| && forall k | 0 <= k < |pages| :: IsLink(pages, asked, server, k)
  }

  ghost predicate Distinct(asked: seq<Option<Cursor>>) {
    forall j, k | 0 <= j < k < |asked| :: asked[j] != asked[k]
  }

  function Entry<T>(entries: map<Method, T>, name: Method): Option<T> {
    if name in entries then Some(entries[name]) else None
  }

  class ListClient {
    var lastAnsweredRequestByMethod: map<Method, MessageId>
    var malformedListItems: map<Method, seq<Malformed>>

    constructor ()
    {
      lastAnsweredRequestByMethod, malformedListItems := map[], map[];
    }

    function Maps(): Shared
      reads this
    {
      Shared(lastAnsweredRequestByMethod, malformedListItems)
    }

    /**
     * A request for one page. While it is awaited the transport records its answer, and anything else may happen:
     * other lists are fetched and salvaged, this one too, or the client connects again and clears both maps. So they
     * are left as `elsewhere` says, which is arbitrary.
     */
    method FetchPage(
        k: nat, cursor: Option<Cursor>, server: (nat, Option<Cursor>) -> PageReply, elsewhere: nat -> Shared)
      returns (reply: PageReply)
      modifies this
      ensures reply == server(k, cursor) && Maps() == elsewhere(k)
    {
      reply := server(k, cursor);
      lastAnsweredRequestByMethod, malformedListItems := elsewhere(k).lastAnswered, elsewhere(k).malformed;
    }

    method RestoreResponseCorrelation(name: Method, id: Option<MessageId>)
      modifies `lastAnsweredRequestByMethod
      ensures lastAnsweredRequestByMethod ==
        if id.Some? then old(lastAnsweredRequestByMethod)[name := id.value]
        else old(lastAnsweredRequestByMethod) - {name}
    {
      if id.None? {
        lastAnsweredRequestByMethod := lastAnsweredRequestByMethod - {name};
      } else {
        lastAnsweredRequestByMethod := lastAnsweredRequestByMethod[name := id.value];
      }
    }

    /**
     * On success the kept entries and the report are the one-pass split of every fetched page laid end to end; at most
     * 64 pages were fetched, no cursor twice; the walk ended because the list did, or came back on itself; and the
     * response rejected is the one that was this method's last before the walk.
     *
     * On failure the error that surfaces is the one the list failed on to begin with, whatever the walk failed on; that
     * one is only logged; no response is rejected, and this method's correlation entry is what it was.
     *
     * Whatever else happened between the pages is left alone: the call changes one entry of one map.
     */
    method SalvageList(
        name: Method, modern: bool, schema: Json -> Parsed, caption: Json -> Option<string>,
        server: (nat, Option<Cursor>) -> PageReply, elsewhere: nat -> Shared, err: Error, exceeded: Error)
      returns (
        salvage: Salvage, rejected: Option<MessageId>, logged: Option<Error>, ghost pages: seq<PageReply>,
        ghost asked: seq<Option<Cursor>>)
      modifies this
      ensures 1 <= |pages| <= LIST_MAX_PAGES && IsChain(pages, asked, server) && Distinct(asked)
      ensures salvage.Salvaged? ==>
        && AllUsable(pages, modern) && EndedNaturally(pages, asked)
        && salvage.items == ValidOf(Items(pages), schema)
        && MalformedOf(name, Items(pages), schema, caption, 0) != []
        && rejected == Entry(old(lastAnsweredRequestByMethod), name)
        && lastAnsweredRequestByMethod == elsewhere(|pages| - 1).lastAnswered
        && malformedListItems ==
           elsewhere(|pages| - 1).malformed[name := MalformedOf(name, Items(pages), schema, caption, 0)]
      ensures salvage.Threw? <==>
        Stuck(pages, asked, modern) || MalformedOf(name, Items(pages), schema, caption, 0) == []
      ensures salvage.Threw? ==>
        && salvage.error == err && rejected == None
        && Entry(lastAnsweredRequestByMethod, name) == Entry(old(lastAnsweredRequestByMethod), name)
        && lastAnsweredRequestByMethod - {name} == elsewhere(|pages| - 1).lastAnswered - {name}
        && malformedListItems == elsewhere(|pages| - 1).malformed
      ensures logged == if Stuck(pages, asked, modern) then Secondary(pages, modern, err, exceeded) else None
    {
      var rejectedResponseId := Entry(lastAnsweredRequestByMethod, name);
      var valid, malformed, walkErr;
      walkErr, valid, malformed, pages, asked := Walk(name, modern, schema, caption, server, elsewhere, err, exceeded);
      logged := if walkErr.Some? && walkErr.value != err then walkErr else None;
      if walkErr.Some? || |malformed| == 0 {
        RestoreResponseCorrelation(name, rejectedResponseId);
        return Threw(err), None, logged, pages, asked;
      }
      malformedListItems := malformedListItems[name := malformed];
      return Salvaged(valid), rejectedResponseId, logged, pages, asked;
    }

    /** The loop over the pages, up to the error it throws, if any. */
    method Walk(
        name: Method, modern: bool, schema: Json -> Parsed, caption: Json -> Option<string>,
        server: (nat, Option<Cursor>) -> PageReply, elsewhere: nat -> Shared, err: Error, exceeded: Error)
      returns (
        walkErr: Option<Error>, valid: seq<Json>, malformed: seq<Malformed>, ghost fetched: seq<PageReply>,
        ghost asked: seq<Option<Cursor>>)
      modifies this
      ensures 1 <= |fetched| <= LIST_MAX_PAGES && IsChain(fetched, asked, server) && Distinct(asked)
      ensures
        if walkErr.None? then AllUsable(fetched, modern) && EndedNaturally(fetched, asked)
        else Stuck(fetched, asked, modern) && walkErr.value == WalkError(fetched, modern, err, exceeded)
      ensures walkErr.None? ==> valid == ValidOf(Items(fetched), schema)
      ensures walkErr.None? ==> malformed == MalformedOf(name, Items(fetched), schema, caption, 0)
      ensures Maps() == elsewhere(|fetched| - 1)
    {
      valid, malformed, fetched, asked := [], [], [], [];
      var seenCursors: set<Cursor>, cursor: Option<Cursor>, pages := {}, None, 0;
      while true
        invariant pages == |fetched| <= LIST_MAX_PAGES
        invariant AllUsable(fetched, modern) && IsChain(fetched, asked, server) && Distinct(asked)
        invariant valid == ValidOf(Items(fetched), schema)
        invariant malformed == MalformedOf(name, Items(fetched), schema, caption, 0)
        invariant cursor == if pages == 0 then None else NextCursorOf(fetched[pages - 1])
        invariant cursor !in asked && (pages > 0 ==> cursor.Some?)
        invariant forall c :: c in seenCursors <==> Some(c) in asked || cursor == Some(c)
        invariant pages > 0 ==> Maps() == elsewhere(pages - 1)
        decreases LIST_MAX_PAGES - pages
      {
        if pages >= LIST_MAX_PAGES {
          return Some(exceeded), valid, malformed, fetched, asked;
        }
        var page := FetchPage(pages, cursor, server, elsewhere);
        pages := pages + 1;
        ghost var before := fetched;
        OneMorePage(before, page, asked, cursor, server);
        fetched, asked := fetched + [page], asked + [cursor];
        if !page.Page? || (modern && !page.envelopeOk) || page.items.None? {
          StuckHere(before, page, asked, modern);
          return Some(if page.NoPage? then page.error else err), valid, malformed, fetched, asked;
        }
        valid, malformed := SalvagePage(name, page.items.value, schema, caption, valid, malformed, Items(before));
        cursor := page.nextCursor;
        if cursor.None? {
          return None, valid, malformed, fetched, asked;
        }
        if cursor.value in seenCursors {
          return None, valid, malformed, fetched, asked;
        }
        seenCursors := seenCursors + {cursor.value};
      }
    }

    /** One page's entries, numbered on from those before. */
    method SalvagePage(
        name: Method, items: seq<Json>, schema: Json -> Parsed, caption: Json -> Option<string>, valid: seq<Json>,
        malformed: seq<Malformed>, ghost before: seq<Json>)
      returns (moreValid: seq<Json>, moreMalformed: seq<Malformed>)
      requires valid == ValidOf(before, schema) && malformed == MalformedOf(name, before, schema, caption, 0)
      ensures moreValid == ValidOf(before + items, schema)
      ensures moreMalformed == MalformedOf(name, before + items, schema, caption, 0)
    {
      SplitIsTotal(name, before, schema, caption, 0);
      SplitConcat(name, before, items, schema, caption, 0);
      var newValid, newMalformed := SalvageListItems(name, items, schema, caption, |valid| + |malformed|);
      moreValid, moreMalformed := valid + newValid, malformed + newMalformed;
    }
  }

  lemma OneMorePage(
    pages: seq<PageReply>, page: PageReply, asked: seq<Option<Cursor>>, cursor: Option<Cursor>,
    server: (nat, Option<Cursor>) -> PageReply)
    requires IsChain(pages, asked, server) && Distinct(asked) && cursor !in asked
    requires cursor == if pages == [] then None else NextCursorOf(pages[|pages| - 1])
    requires page == server(|pages|, cursor)
    ensures IsChain(pages + [page], asked + [cursor], server) && Distinct(asked + [cursor])
    ensures Items(pages + [page]) == Items(pages) + (if page.Page? then page.items.GetOr([]) else [])
  {
    var more, moreAsked := pages + [page], asked + [cursor];
    assert more[..|pages|] == pages;
    forall k | 0 <= k < |more|
      ensures IsLink(more, moreAsked, server, k)
    {
      if k < |pages| {
        assert IsLink(pages, asked, server, k);
      }
    }
  }

  /** The last page gave no cursor, or one that had been asked with before. Never the page cap. */
  ghost predicate EndedNaturally(pages: seq<PageReply>, asked: seq<Option<Cursor>>) {
    && pages != []
    && var end := NextCursorOf(pages[|pages| - 1]);
       end == None || end in asked
  }

  /** The walk could not go on: its last page is no use, or the cap came before the end. */
  ghost predicate Stuck(pages: seq<PageReply>, asked: seq<Option<Cursor>>, modern: bool) {
    if pages != [] && !Usable(pages[|pages| - 1], modern) then AllUsable(pages[..|pages| - 1], modern)
    else |pages| == LIST_MAX_PAGES && AllUsable(pages, modern) && !EndedNaturally(pages, asked)
  }

  /** What a walk that could not go on throws: the failed fetch's error, the original one, or the cap's. */
  ghost function WalkError(pages: seq<PageReply>, modern: bool, err: Error, exceeded: Error): Error {
    if pages == [] || Usable(pages[|pages| - 1], modern) then exceeded
    else if pages[|pages| - 1].NoPage? then pages[|pages| - 1].error
    else err
  }

  /** The error a walk leaves in the log: its own, unless it threw the original. */
  ghost function Secondary(pages: seq<PageReply>, modern: bool, err: Error, exceeded: Error): Option<Error> {
    var e := WalkError(pages, modern, err, exceeded);
    if e != err then Some(e) else None
  }

  lemma StuckHere(pages: seq<PageReply>, page: PageReply, asked: seq<Option<Cursor>>, modern: bool)
    requires AllUsable(pages, modern) && !Usable(page, modern)
    ensures Stuck(pages + [page], asked, modern)
  {
    assert (pages + [page])[..|pages|] == pages;
  }
}
