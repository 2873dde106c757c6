/** Incremental discovery: paging through a newest-first feed down to a watermark. */
module Discovery {
  import opened Wrappers

  const MAX_SEARCH_PAGES: nat := 20
  const PAGE_SIZE: nat := 100

  /** A version of a page or database. Timestamps of one format compare as numbers do; 0 is the
      empty string. */
  datatype Item = Item(id: string, edited: nat)

  /** One answer of the search endpoint; a result of None cannot be decoded, and more says that
      there is a further page and a cursor for it. */
  datatype Reply = Failed | Page(results: seq<Option<Item>>, more: bool)

  /** The item is not newer than the watermark: discovery stops here. */
  predicate Known(item: Item, watermark: nat) {
    watermark != 0 && item.edited != 0 && item.edited <= watermark
  }

  function Decoded(results: seq<Option<Item>>): seq<Item> {
    if results == [] then []
    else
      Decoded(results[..|results| - 1])
      + (if results[|results| - 1].Some? then [results[|results| - 1].value] else [])
  }

  /** What the pages from p on deliver, up to the last page, a failure or the cap. */
  function Stream(replies: nat -> Reply, p: nat): seq<Item>
    decreases MAX_SEARCH_PAGES - p
  {
    if p >= MAX_SEARCH_PAGES then []
    else
      match replies(p)
      case Failed => []
      case Page(results, more) => Decoded(results) + if more then Stream(replies, p + 1) else []
  }

  /** Paging from p on ends in a failure. */
  predicate Breaks(replies: nat -> Reply, p: nat)
    decreases MAX_SEARCH_PAGES - p
  {
    p < MAX_SEARCH_PAGES && (replies(p).Failed? || (replies(p).more && Breaks(replies, p + 1)))
  }

  /** The items before the first known one. */
  function Unknown(items: seq<Item>, watermark: nat): (prefix: seq<Item>)
    ensures prefix <= items
    ensures forall i :: 0 <= i < |prefix| ==> !Known(prefix[i], watermark)
    ensures |prefix| < |items| ==> Known(items[|prefix|], watermark)
  {
    if items == [] || Known(items[0], watermark) then []
    else [items[0]] + Unknown(items[1..], watermark)
  }

  function Newest(replies: nat -> Reply, watermark: nat): nat {
    if replies(0).Page? && Decoded(replies(0).results) != [] then Decoded(replies(0).results)[0].edited
    else watermark
  }

  lemma {:induction false} UnknownAppend(a: seq<Item>, b: seq<Item>, watermark: nat)
    ensures Unknown(a + b, watermark) ==
            if |Unknown(a, watermark)| < |a| then Unknown(a, watermark) else a + Unknown(b, watermark)
  {
    if a == [] {
      assert a + b == b;
    } else if !Known(a[0], watermark) {
      UnknownAppend(a[1..], b, watermark);
      assert (a + b)[1..] == a[1..] + b;
    }
  }

  lemma {:induction false} DecodedSplits(results: seq<Option<Item>>, i: nat)
    requires i <= |results|
    ensures Decoded(results) == Decoded(results[..i]) + Decoded(results[i..])
    decreases |results| - i
  {
    if i == |results| {
      assert results[..i] == results;
    } else {
      DecodedSplits(results, i + 1);
      assert results[..i + 1][..i] == results[..i];
      DecodedFirst(results[i..]);
      assert results[i..][1..] == results[i + 1..];
    }
  }

  lemma {:induction false} DecodedFirst(results: seq<Option<Item>>)
    requires results != []
    ensures Decoded(results) == (if results[0].Some? then [results[0].value] else []) + Decoded(results[1..])
  {
    var n := |results| - 1;
    if n > 0 {
      DecodedFirst(results[..n]);
      assert results[..n][1..] == results[1..][..n - 1];
    } else {
      assert results[..n] == [] && results[1..] == [];
    }
  }

  /** The loop over the results of one page. */
  method TakePage(results: seq<Option<Item>>, watermark: nat, first: bool, before: seq<Item>, newest: nat)
    returns (all: seq<Item>, newestSeen: nat, stop: bool)
    requires first ==> before == []
    ensures all == before + Unknown(Decoded(results), watermark)
    ensures stop <==> |Unknown(Decoded(results), watermark)| < |Decoded(results)|
    ensures newestSeen == if first && Decoded(results) != [] then Decoded(results)[0].edited else newest
  {
    hide Decoded, Known, Unknown;
    all, newestSeen := before, newest;
    assert Decoded(results[..0]) == [] by { DecodedNothing(results[..0]); }
    for i := 0 to |results|
      invariant all == before + Decoded(results[..i])
      invariant Unknown(Decoded(results[..i]), watermark) == Decoded(results[..i])
      invariant newestSeen == if first && Decoded(results[..i]) != [] then Decoded(results[..i])[0].edited else newest
    {
      DecodedSplits(results, i);
      DecodedFirst(results[i..]);
      assert results[i..][1..] == results[i + 1..];
      DecodedSplits(results, i + 1);
      DecodedNext(results, i);
      if results[i].None? {
        continue;
      }
      var sr := results[i].value;
      if first && |all| == 0 {
        newestSeen := sr.edited;
      }
      UnknownOne(sr, Decoded(results[i + 1..]), watermark);
      UnknownAppend(Decoded(results[..i]), [sr] + Decoded(results[i + 1..]), watermark);
      if Known(sr, watermark) {
        return all, newestSeen, true;
      }
      UnknownOne(sr, [], watermark);
      UnknownAppend(Decoded(results[..i]), [sr], watermark);
      all := all + [sr];
    }
    assert results[..|results|] == results;
    return all, newestSeen, false;
  }

  lemma {:induction false} DecodedNothing(results: seq<Option<Item>>)
    requires results == []
    ensures Decoded(results) == []
  {
  }

  lemma {:induction false} DecodedNext(results: seq<Option<Item>>, i: nat)
    requires i < |results|
    ensures Decoded(results[..i + 1]) ==
            Decoded(results[..i]) + if results[i].Some? then [results[i].value] else []
  {
    assert results[..i + 1][..i] == results[..i];
  }

  lemma {:induction false} UnknownOne(item: Item, rest: seq<Item>, watermark: nat)
    ensures Unknown([], watermark) == []
    ensures Known(item, watermark) ==> Unknown([item] + rest, watermark) == []
    ensures !Known(item, watermark) ==> Unknown([item] + rest, watermark) == [item] + Unknown(rest, watermark)
  {
    assert ([item] + rest)[1..] == rest;
  }

  lemma {:induction false} StreamStep(replies: nat -> Reply, page: nat)
    requires page < MAX_SEARCH_PAGES
    ensures replies(page).Failed? ==> Stream(replies, page) == [] && Breaks(replies, page)
    ensures replies(page).Page? ==>
              && Stream(replies, page) ==
                 Decoded(replies(page).results) + (if replies(page).more then Stream(replies, page + 1) else [])
              && (Breaks(replies, page) <==> replies(page).more && Breaks(replies, page + 1))
  {
  }

  lemma {:induction false} StreamEnds(replies: nat -> Reply, watermark: nat)
    ensures Stream(replies, MAX_SEARCH_PAGES) == [] && !Breaks(replies, MAX_SEARCH_PAGES)
    ensures Unknown([], watermark) == []
    ensures replies(0).Failed? ==> Newest(replies, watermark) == watermark
  {
  }

  lemma {:induction false} NewestOfFirst(replies: nat -> Reply, watermark: nat)
    requires replies(0).Page?
    ensures Newest(replies, watermark) ==
            var found := Decoded(replies(0).results);
            if found != [] then found[0].edited else watermark
  {
  }

  /** What a page adds to the items found before it. */
  lemma {:induction false} PageFound(before: seq<Item>, found: seq<Item>, rest: seq<Item>, watermark: nat)
    requires Unknown(before, watermark) == before
    ensures var taken := Unknown(found, watermark);
            if |taken| < |found|
            then Unknown(before + (found + rest), watermark) == before + taken && before + taken != before + (found + rest)
            else taken == found && Unknown(before + found, watermark) == before + found
  {
    hide Known;
    UnknownAppend(before, found, watermark);
    UnknownAppend(before, found + rest, watermark);
    UnknownAppend(found, rest, watermark);
  }

  /** The loop over the pages. */
  method DiscoverAll(replies: nat -> Reply, watermark: nat) returns (all: seq<Item>, newestSeen: nat, failed: bool)
    ensures all == Unknown(Stream(replies, 0), watermark)
    ensures newestSeen == Newest(replies, watermark)
    ensures failed <==> Breaks(replies, 0) && all == Stream(replies, 0)
  {
    hide Decoded, Known, Unknown, Stream, Breaks, Newest;
    all, newestSeen := [], watermark;
    StreamEnds(replies, watermark);
    var page := 0;
    while page < MAX_SEARCH_PAGES
      invariant page <= MAX_SEARCH_PAGES
      invariant Stream(replies, 0) == all + Stream(replies, page)
      invariant Unknown(all, watermark) == all
      invariant Breaks(replies, 0) <==> Breaks(replies, page)
      invariant page == 0 ==> all == [] && newestSeen == watermark
      invariant page > 0 ==> newestSeen == Newest(replies, watermark)
    {
      StreamStep(replies, page);
      var reply := replies(page);
      if reply.Failed? {
        return all, newestSeen, true;
      }
      if page == 0 {
        NewestOfFirst(replies, watermark);
      }
      ghost var rest := if reply.more then Stream(replies, page + 1) else [];
      PageFound(all, Decoded(reply.results), rest, watermark);
      var stop;
      all, newestSeen, stop := TakePage(reply.results, watermark, page == 0, all, newestSeen);
      if stop || !reply.more {
        break;
      }
      page := page + 1;
    }
    return all, newestSeen, false;
  }
}
