/** The products manager (managers/products.py): the Content API card list
    walked page by page with a cursor, the size ids (chrtIDs) and the size
    mapping gathered from the cards, the join of the price list with the
    cards' photos, and the price-update payload. The legacy managers.py walks
    the same card list with the same loop. */
module Products {
  import opened Common
  import opened OrderedDict
  import Inventory

  // ---------------------------------------------------------------------------
  // Cards
  // ---------------------------------------------------------------------------

  /** One size of a card; `chrtId` is `None` when the key is missing. */
  datatype Size = Size(chrtId: Option<int>, techSize: string, wbSize: string)

  /** The URLs of one photo by format; `None` for a missing format. */
  datatype Photo = Photo(square: Option<string>, c246x328: Option<string>, big: Option<string>)

  /** One content card; text fields missing from the card read as `''`. */
  datatype Card = Card(
    nmId: Option<int>,
    updatedAt: Option<string>,
    vendorCode: string,
    title: string,
    brand: string,
    subjectName: string,
    sizes: seq<Size>,
    photos: seq<Photo>)

  // ---------------------------------------------------------------------------
  // The cursor walk
  // ---------------------------------------------------------------------------

  /** The `cursor` setting of a request: the first page, or the page after
      the card with the given `updatedAt` and `nmID`. */
  datatype Cursor = First | After(updatedAt: Option<string>, nmId: Option<int>)

  /** One answer of the card list: not a dict, or a dict with the truth of its
      `error` key, its `cards` (`[]` when missing) and its `cursor.total`
      (0 when missing). */
  datatype Response = NotDict | Reply(error: bool, cards: seq<Card>, total: int)

  /** The page size every request asks for. */
  const PageLimit := 100

  /** The cards of an answer are taken: it is a dict, not flagged as an error
      (when the loop looks at the flag), and its card list is not empty. */
  predicate Taken(checkError: bool, resp: Response) {
    resp.Reply? && !(checkError && resp.error) && |resp.cards| > 0
  }

  /** The loop asks again after `resp`, `seen` being the cards taken before
      it: the page was taken, was full, and `stop` does not yet hold of the
      cards taken so far and the reported total. */
  predicate GoesOn(checkError: bool, stop: (seq<Card>, int) -> bool, resp: Response, seen: seq<Card>) {
    Taken(checkError, resp) && |resp.cards| >= PageLimit && !stop(seen + resp.cards, resp.total)
  }

  /** The cursor for the page after `cards`: its last card's `updatedAt` and
      `nmID`. */
  function NextCursor(cards: seq<Card>): Cursor
    requires |cards| > 0
  {
    After(cards[|cards| - 1].updatedAt, cards[|cards| - 1].nmId)
  }

  /** The pages taken and the cursor of every request sent, in order. */
  datatype Walk = Walk(pages: seq<seq<Card>>, requests: seq<Cursor>)

  /** The cards taken before request `k`. */
  function Before(seen: seq<Card>, pages: seq<seq<Card>>, k: nat): seq<Card>
    requires k <= |pages|
  {
    seen + Flatten(pages[..k])
  }

  /** The walk is the loop's: each request but the last had its page taken
      and went on, the next request carrying that page's last card; the last
      request did not go on, and its page was taken iff its answer had
      cards to take. */
  ghost predicate Walked(fetch: Cursor -> Response, checkError: bool, stop: (seq<Card>, int) -> bool,
                         seen: seq<Card>, w: Walk) {
    var n := |w.requests|;
    n > 0 && (|w.pages| == n || |w.pages| == n - 1)
    && (forall k | 0 <= k < |w.pages| ::
          Taken(checkError, fetch(w.requests[k])) && w.pages[k] == fetch(w.requests[k]).cards)
    && (forall k | 0 <= k < n - 1 ::
          GoesOn(checkError, stop, fetch(w.requests[k]), Before(seen, w.pages, k))
          && w.requests[k + 1] == NextCursor(w.pages[k]))
    && (|w.pages| == n <==> Taken(checkError, fetch(w.requests[n - 1])))
    && !GoesOn(checkError, stop, fetch(w.requests[n - 1]), Before(seen, w.pages, n - 1))
  }

  lemma BeforeCons(seen: seq<Card>, c: seq<Card>, ps: seq<seq<Card>>, k: nat)
    requires k <= |ps|
    ensures Before(seen, [c] + ps, k + 1) == Before(seen + c, ps, k)
  {
    assert ([c] + ps)[..k + 1] == [c] + ps[..k];
    FlattenAppend([c], ps[..k]);
    FlattenSingle(c);
  }

  /** The three parts of `Walked` for a walk that went on from `cursor`. */
  lemma WalkedConsPages(fetch: Cursor -> Response, checkError: bool, cursor: Cursor, rest: Walk)
    requires Taken(checkError, fetch(cursor))
    requires |rest.pages| <= |rest.requests|
    requires forall k | 0 <= k < |rest.pages| ::
      Taken(checkError, fetch(rest.requests[k])) && rest.pages[k] == fetch(rest.requests[k]).cards
    ensures var w := Walk([fetch(cursor).cards] + rest.pages, [cursor] + rest.requests);
      forall k | 0 <= k < |w.pages| :: Taken(checkError, fetch(w.requests[k])) && w.pages[k] == fetch(w.requests[k]).cards
  {
    var w := Walk([fetch(cursor).cards] + rest.pages, [cursor] + rest.requests);
    forall k | 0 <= k < |w.pages|
      ensures Taken(checkError, fetch(w.requests[k])) && w.pages[k] == fetch(w.requests[k]).cards
    {
      if k > 0 {
        assert w.pages[k] == rest.pages[k - 1] && w.requests[k] == rest.requests[k - 1];
      }
    }
  }

  lemma WalkedConsSteps(fetch: Cursor -> Response, checkError: bool, stop: (seq<Card>, int) -> bool,
                        seen: seq<Card>, cursor: Cursor, rest: Walk)
    requires GoesOn(checkError, stop, fetch(cursor), seen)
    requires |rest.requests| > 0 && |rest.requests| - 1 <= |rest.pages| <= |rest.requests|
    requires forall k | 0 <= k < |rest.pages| :: |rest.pages[k]| > 0
    requires forall k | 0 <= k < |rest.requests| - 1 ::
      GoesOn(checkError, stop, fetch(rest.requests[k]), Before(seen + fetch(cursor).cards, rest.pages, k))
      && rest.requests[k + 1] == NextCursor(rest.pages[k])
    requires rest.requests[0] == NextCursor(fetch(cursor).cards)
    ensures var w := Walk([fetch(cursor).cards] + rest.pages, [cursor] + rest.requests);
      forall k | 0 <= k < |w.requests| - 1 ::
        |w.pages[k]| > 0
        && GoesOn(checkError, stop, fetch(w.requests[k]), Before(seen, w.pages, k))
        && w.requests[k + 1] == NextCursor(w.pages[k])
  {
    var c := fetch(cursor).cards;
    var w := Walk([c] + rest.pages, [cursor] + rest.requests);
    assert w.pages[..0] == [] && Flatten<Card>([]) == [];
    assert Before(seen, w.pages, 0) == seen;
    forall k | 0 <= k < |w.requests| - 1
      ensures |w.pages[k]| > 0
      ensures GoesOn(checkError, stop, fetch(w.requests[k]), Before(seen, w.pages, k))
      ensures w.requests[k + 1] == NextCursor(w.pages[k])
    {
      if k > 0 {
        assert w.pages[k] == rest.pages[k - 1] && w.requests[k] == rest.requests[k - 1];
        assert w.requests[k + 1] == rest.requests[k];
        BeforeCons(seen, c, rest.pages, k - 1);
      }
    }
  }

  lemma WalkedConsLast(fetch: Cursor -> Response, checkError: bool, stop: (seq<Card>, int) -> bool,
                       seen: seq<Card>, cursor: Cursor, rest: Walk)
    requires fetch(cursor).Reply?
    requires |rest.requests| > 0 && |rest.requests| - 1 <= |rest.pages| <= |rest.requests|
    requires |rest.pages| == |rest.requests| <==> Taken(checkError, fetch(rest.requests[|rest.requests| - 1]))
    requires !GoesOn(checkError, stop, fetch(rest.requests[|rest.requests| - 1]),
                     Before(seen + fetch(cursor).cards, rest.pages, |rest.requests| - 1))
    ensures var w := Walk([fetch(cursor).cards] + rest.pages, [cursor] + rest.requests);
      var n := |w.requests|;
      (|w.pages| == n <==> Taken(checkError, fetch(w.requests[n - 1])))
      && !GoesOn(checkError, stop, fetch(w.requests[n - 1]), Before(seen, w.pages, n - 1))
  {
    var c := fetch(cursor).cards;
    var w := Walk([c] + rest.pages, [cursor] + rest.requests);
    var n := |w.requests|;
    assert w.requests[n - 1] == rest.requests[n - 2];
    BeforeCons(seen, c, rest.pages, n - 2);
  }

  lemma WalkedCons(fetch: Cursor -> Response, checkError: bool, stop: (seq<Card>, int) -> bool,
                   seen: seq<Card>, cursor: Cursor, rest: Walk)
    requires GoesOn(checkError, stop, fetch(cursor), seen)
    requires Walked(fetch, checkError, stop, seen + fetch(cursor).cards, rest)
    requires rest.requests[0] == NextCursor(fetch(cursor).cards)
    ensures Walked(fetch, checkError, stop, seen, Walk([fetch(cursor).cards] + rest.pages, [cursor] + rest.requests))
  {
    WalkedConsPages(fetch, checkError, cursor, rest);
    WalkedConsSteps(fetch, checkError, stop, seen, cursor, rest);
    WalkedConsLast(fetch, checkError, stop, seen, cursor, rest);
  }

  /** The `while True` loop over the card list from `cursor`, at most `fuel`
      requests (`None` when they run out). A non-dict answer, an error flag
      (when checked) or an empty card list stops it before taking the page;
      a short page or `stop` stops it after. */
  function Crawl(fetch: Cursor -> Response, checkError: bool, stop: (seq<Card>, int) -> bool,
                 cursor: Cursor, seen: seq<Card>, fuel: nat): (r: Option<Walk>)
    ensures r.Some? ==> 0 < |r.value.requests| <= fuel && r.value.requests[0] == cursor
    decreases fuel
  {
    if fuel == 0 then None
    else
      var resp := fetch(cursor);
      if !GoesOn(checkError, stop, resp, seen) then
        Some(Walk(if Taken(checkError, resp) then [resp.cards] else [], [cursor]))
      else
        match Crawl(fetch, checkError, stop, NextCursor(resp.cards), seen + resp.cards, fuel - 1)
        case None => None
        case Some(rest) => Some(Walk([resp.cards] + rest.pages, [cursor] + rest.requests))
  }

  /** A walk the loop returns is the loop's, from its first request on. */
  lemma {:induction false} CrawlWalked(fetch: Cursor -> Response, checkError: bool, stop: (seq<Card>, int) -> bool,
                                       cursor: Cursor, seen: seq<Card>, fuel: nat)
    ensures var r := Crawl(fetch, checkError, stop, cursor, seen, fuel);
      r.Some? ==> Walked(fetch, checkError, stop, seen, r.value) && r.value.requests[0] == cursor
    decreases fuel
  {
    if fuel > 0 {
      var resp := fetch(cursor);
      if !GoesOn(checkError, stop, resp, seen) {
        var pages := if Taken(checkError, resp) then [resp.cards] else [];
        assert pages[..0] == [] && Flatten<Card>([]) == [];
        assert Before(seen, pages, 0) == seen;
      } else {
        var next := NextCursor(resp.cards);
        CrawlWalked(fetch, checkError, stop, next, seen + resp.cards, fuel - 1);
        var rest := Crawl(fetch, checkError, stop, next, seen + resp.cards, fuel - 1);
        if rest.Some? {
          WalkedCons(fetch, checkError, stop, seen, cursor, rest.value);
        }
      }
    }
  }

  /** One turn of the loop: the walk stops at `cursor`, or is the page at
      `cursor` followed by the walk from the next cursor. */
  lemma CrawlStep(fetch: Cursor -> Response, checkError: bool,
                  stop: (seq<Card>, int) -> bool,
                  cursor: Cursor, seen: seq<Card>, fuel: nat)
    requires fuel > 0
    ensures var resp := fetch(cursor);
      var r := Crawl(fetch, checkError, stop, cursor, seen, fuel);
      (!GoesOn(checkError, stop, resp, seen) ==>
         r == Some(Walk(if Taken(checkError, resp) then [resp.cards] else [], [cursor])))
      && (GoesOn(checkError, stop, resp, seen) ==>
         var rest := Crawl(fetch, checkError, stop, NextCursor(resp.cards), seen + resp.cards, fuel - 1);
         (rest.None? ==> r.None?)
         && (rest.Some? ==> r == Some(Walk([resp.cards] + rest.value.pages, [cursor] + rest.value.requests))))
  {
  }

  /** `total_cards >= total`: the cards counted so far reach the reported total. */
  predicate CardsReached(seen: seq<Card>, total: int) { |seen| >= total }

  /** The walk of `get_all_chrt_ids` and `get_chrt_id_mapping`. */
  function CardWalk(fetch: Cursor -> Response, fuel: nat): Option<Walk> {
    Crawl(fetch, true, CardsReached, First, [], fuel)
  }

  /** The loop ends within `fuel` requests from `cursor`. */
  predicate Halts(fetch: Cursor -> Response, checkError: bool, stop: (seq<Card>, int) -> bool,
                  cursor: Cursor, seen: seq<Card>, fuel: nat)
    decreases fuel
  {
    fuel > 0
    && var resp := fetch(cursor);
       (!GoesOn(checkError, stop, resp, seen)
        || Halts(fetch, checkError, stop, NextCursor(resp.cards), seen + resp.cards, fuel - 1))
  }

  lemma HaltsStep(fetch: Cursor -> Response, checkError: bool, stop: (seq<Card>, int) -> bool,
                  cursor: Cursor, seen: seq<Card>, fuel: nat)
    requires fuel > 0
    ensures Halts(fetch, checkError, stop, cursor, seen, fuel)
         == (!GoesOn(checkError, stop, fetch(cursor), seen)
             || Halts(fetch, checkError, stop, NextCursor(fetch(cursor).cards), seen + fetch(cursor).cards, fuel - 1))
  {
  }

  /** A walk is returned exactly when the loop ends within the fuel. */
  lemma {:induction false} CrawlSomeIffHalts(fetch: Cursor -> Response, checkError: bool, stop: (seq<Card>, int) -> bool,
                                             cursor: Cursor, seen: seq<Card>, fuel: nat)
    ensures Crawl(fetch, checkError, stop, cursor, seen, fuel).Some? == Halts(fetch, checkError, stop, cursor, seen, fuel)
    decreases fuel
  {
    if fuel > 0 {
      var resp := fetch(cursor);
      CrawlStep(fetch, checkError, stop, cursor, seen, fuel);
      HaltsStep(fetch, checkError, stop, cursor, seen, fuel);
      if GoesOn(checkError, stop, resp, seen) {
        CrawlSomeIffHalts(fetch, checkError, stop, NextCursor(resp.cards), seen + resp.cards, fuel - 1);
      }
    }
  }

  /** Each request after the first adds a full page below the reported
      total, so against a catalogue whose reported total never exceeds
      `bound`, `1 + bound / 100` requests always suffice. */
  lemma {:induction false} CrawlEnds(fetch: Cursor -> Response, cursor: Cursor, seen: seq<Card>, fuel: nat, bound: int)
    requires forall c :: fetch(c).Reply? ==> fetch(c).total <= bound
    requires fuel >= 1 && |seen| + PageLimit * (fuel - 1) >= bound
    ensures Halts(fetch, true, CardsReached, cursor, seen, fuel)
    decreases fuel
  {
    var resp := fetch(cursor);
    if GoesOn(true, CardsReached, resp, seen) {
      var seen' := seen + resp.cards;
      BudgetStep(|seen|, |seen'|, fuel, bound);
      CrawlEnds(fetch, NextCursor(resp.cards), seen', fuel - 1, bound);
    }
  }

  /** A full page below the bound leaves enough requests for the rest. */
  lemma BudgetStep(before: int, after: int, fuel: nat, bound: int)
    requires fuel >= 1 && before + PageLimit * (fuel - 1) >= bound
    requires after >= before + PageLimit && after < bound
    ensures fuel >= 2 && after + PageLimit * (fuel - 2) >= bound
  {
  }

  lemma CardWalkEnds(fetch: Cursor -> Response, fuel: nat, bound: int)
    requires forall c :: fetch(c).Reply? ==> fetch(c).total <= bound
    requires fuel >= 1 && PageLimit * (fuel - 1) >= bound
    ensures CardWalk(fetch, fuel).Some?
  {
    CrawlEnds(fetch, First, [], fuel, bound);
    CrawlSomeIffHalts(fetch, true, CardsReached, First, [], fuel);
  }

  // ---------------------------------------------------------------------------
  // Size ids and the size mapping
  // ---------------------------------------------------------------------------

  /** The truthy chrtIDs of some sizes, in order. */
  function SizeIds(sizes: seq<Size>): seq<int>
    decreases |sizes|
  {
    if |sizes| == 0 then []
    else
      var s := sizes[|sizes| - 1];
      SizeIds(sizes[..|sizes| - 1]) + (if Truthy(s.chrtId) then [s.chrtId.value] else [])
  }

  /** The truthy chrtIDs of some cards, card by card and size by size. */
  function ChrtIds(cards: seq<Card>): seq<int>
    decreases |cards|
  {
    if |cards| == 0 then [] else ChrtIds(cards[..|cards| - 1]) + SizeIds(cards[|cards| - 1].sizes)
  }

  /** `get_all_chrt_ids()`: the chrtIDs of every card taken, in page order;
      `None` when the walk does not end within `fuel` requests. */
  function GetAllChrtIds(fetch: Cursor -> Response, fuel: nat): (r: Option<seq<int>>)
    ensures r.Some? <==> CardWalk(fetch, fuel).Some?
    ensures r.Some? ==> r.value == ChrtIds(Flatten(CardWalk(fetch, fuel).value.pages))
  {
    match CardWalk(fetch, fuel)
    case None => None
    case Some(w) => Some(ChrtIds(Flatten(w.pages)))
  }

  /** An id is collected from some sizes iff it is non-zero and one of them
      carries it. */
  lemma {:induction false} SizeIdsMembers(sizes: seq<Size>, x: int)
    ensures x in SizeIds(sizes) <==> x != 0 && exists j | 0 <= j < |sizes| :: sizes[j].chrtId == Some(x)
    decreases |sizes|
  {
    if |sizes| > 0 {
      var init := sizes[..|sizes| - 1];
      SizeIdsMembers(init, x);
      assert forall j | 0 <= j < |init| :: init[j] == sizes[j];
      if x != 0 && exists j | 0 <= j < |sizes| :: sizes[j].chrtId == Some(x) {
        var j :| 0 <= j < |sizes| && sizes[j].chrtId == Some(x);
        if j < |init| { assert init[j].chrtId == Some(x); }
      }
    }
  }

  /** An id is collected from some cards iff it is non-zero and one of their
      sizes carries it. */
  lemma {:induction false} ChrtIdsMembers(cards: seq<Card>, x: int)
    ensures x in ChrtIds(cards) <==>
      x != 0 && exists i, j | 0 <= i < |cards| && 0 <= j < |cards[i].sizes| :: cards[i].sizes[j].chrtId == Some(x)
    decreases |cards|
  {
    if |cards| > 0 {
      var init := cards[..|cards| - 1];
      var c := cards[|cards| - 1];
      ChrtIdsMembers(init, x);
      SizeIdsMembers(c.sizes, x);
      assert forall i | 0 <= i < |init| :: init[i] == cards[i];
      if x != 0 && exists i, j | 0 <= i < |cards| && 0 <= j < |cards[i].sizes| :: cards[i].sizes[j].chrtId == Some(x) {
        var i, j :| 0 <= i < |cards| && 0 <= j < |cards[i].sizes| && cards[i].sizes[j].chrtId == Some(x);
        if i < |init| {
          assert init[i].sizes[j].chrtId == Some(x);
        } else {
          assert c.sizes[j].chrtId == Some(x);
        }
      }
    }
  }

  /** The ids of two runs of cards are the ids of each, one after the other:
      the ids of a walk are its pages' ids in page order. */
  lemma {:induction false} ChrtIdsAppend(a: seq<Card>, b: seq<Card>)
    ensures ChrtIds(a + b) == ChrtIds(a) + ChrtIds(b)
    decreases |b|
  {
    if |b| > 0 {
      var b' := b[..|b| - 1];
      assert (a + b)[..|a + b| - 1] == a + b';
      assert (a + b)[|a + b| - 1] == b[|b| - 1];
      ChrtIdsAppend(a, b');
    } else {
      assert a + b == a;
    }
  }

  /** What the mapping records for one size of one card. */
  function Info(c: Card, s: Size): Inventory.ChrtInfo {
    Inventory.ChrtInfo(c.nmId, c.vendorCode, c.title, c.brand, s.techSize, s.wbSize)
  }

  /** The assignments `mapping[chrt_id] = {...}` made for one card, in order. */
  function SizeEntries(c: Card, sizes: seq<Size>): seq<(int, Inventory.ChrtInfo)>
    decreases |sizes|
  {
    if |sizes| == 0 then []
    else
      var s := sizes[|sizes| - 1];
      SizeEntries(c, sizes[..|sizes| - 1]) + (if Truthy(s.chrtId) then [(s.chrtId.value, Info(c, s))] else [])
  }

  /** The assignments made for some cards, in order. */
  function Entries(cards: seq<Card>): seq<(int, Inventory.ChrtInfo)>
    decreases |cards|
  {
    if |cards| == 0 then [] else Entries(cards[..|cards| - 1]) + SizeEntries(cards[|cards| - 1], cards[|cards| - 1].sizes)
  }

  /** The mapping built from some cards. */
  function ChrtMapping(cards: seq<Card>): Dict<int, Inventory.ChrtInfo> {
    FromPairs(Entries(cards))
  }

  /** `get_chrt_id_mapping()`: `None` when the walk does not end within
      `fuel` requests. */
  function GetChrtIdMapping(fetch: Cursor -> Response, fuel: nat): (r: Option<Dict<int, Inventory.ChrtInfo>>)
    ensures r.Some? <==> CardWalk(fetch, fuel).Some?
    ensures r.Some? ==> r.value == ChrtMapping(Flatten(CardWalk(fetch, fuel).value.pages))
  {
    match CardWalk(fetch, fuel)
    case None => None
    case Some(w) => Some(ChrtMapping(Flatten(w.pages)))
  }

  /** The assignments are keyed by exactly the collected ids, in the same order. */
  lemma {:induction false} SizeEntriesKeys(c: Card, sizes: seq<Size>)
    ensures Keys(SizeEntries(c, sizes)) == SizeIds(sizes)
    ensures forall e | e in SizeEntries(c, sizes) :: exists j | 0 <= j < |sizes| :: Truthy(sizes[j].chrtId) && e == (sizes[j].chrtId.value, Info(c, sizes[j]))
    decreases |sizes|
  {
    if |sizes| > 0 {
      var init := sizes[..|sizes| - 1];
      SizeEntriesKeys(c, init);
      assert forall j | 0 <= j < |init| :: init[j] == sizes[j];
    }
  }

  lemma {:induction false} EntriesKeys(cards: seq<Card>)
    ensures Keys(Entries(cards)) == ChrtIds(cards)
    ensures forall e | e in Entries(cards) :: exists i, j | 0 <= i < |cards| && 0 <= j < |cards[i].sizes| ::
      Truthy(cards[i].sizes[j].chrtId) && e == (cards[i].sizes[j].chrtId.value, Info(cards[i], cards[i].sizes[j]))
    decreases |cards|
  {
    if |cards| > 0 {
      var init := cards[..|cards| - 1];
      var c := cards[|cards| - 1];
      EntriesKeys(init);
      SizeEntriesKeys(c, c.sizes);
      assert forall i | 0 <= i < |init| :: init[i] == cards[i];
      KeysAppend(Entries(init), SizeEntries(c, c.sizes));
      forall e | e in Entries(cards)
        ensures exists i, j | 0 <= i < |cards| && 0 <= j < |cards[i].sizes| ::
          Truthy(cards[i].sizes[j].chrtId) && e == (cards[i].sizes[j].chrtId.value, Info(cards[i], cards[i].sizes[j]))
      {
        if e in Entries(init) {
          var i, j :| 0 <= i < |init| && 0 <= j < |init[i].sizes| &&
            Truthy(init[i].sizes[j].chrtId) && e == (init[i].sizes[j].chrtId.value, Info(init[i], init[i].sizes[j]));
          assert init[i] == cards[i];
        } else {
          assert e in SizeEntries(c, c.sizes);
          var j :| 0 <= j < |c.sizes| && Truthy(c.sizes[j].chrtId) && e == (c.sizes[j].chrtId.value, Info(c, c.sizes[j]));
          assert cards[|cards| - 1] == c;
        }
      }
    }
  }

  lemma KeysAppend<K, V>(a: Dict<K, V>, b: Dict<K, V>)
    ensures Keys(a + b) == Keys(a) + Keys(b)
  {
  }

  /** The mapping holds exactly the collected ids, and an id's entry is the
      last assignment made to it: a later size with the same chrtID
      overwrites an earlier one. */
  lemma ChrtMappingLast(cards: seq<Card>, k: int)
    ensures Get(ChrtMapping(cards), k).Some? <==> k in ChrtIds(cards)
    ensures forall i: nat | LastPair(Entries(cards), k, i) :: Get(ChrtMapping(cards), k) == Some(Entries(cards)[i].1)
  {
    var es := Entries(cards);
    FromPairsLast(es, k);
    EntriesKeys(cards);
    if k in ChrtIds(cards) {
      var i :| 0 <= i < |ChrtIds(cards)| && ChrtIds(cards)[i] == k;
      assert es[i].0 == k;
    }
  }

  /** Two sizes sharing a chrtID on two cards: the mapping keeps the later
      card's product. */
  lemma MappingLaterCardWins(first: Card, second: Card, k: int)
    requires |first.sizes| == 1 && |second.sizes| == 1
    requires first.sizes[0].chrtId == Some(k) && second.sizes[0].chrtId == Some(k) && k != 0
    ensures Get(ChrtMapping([first, second]), k) == Some(Info(second, second.sizes[0]))
  {
    var cards := [first, second];
    assert cards[..1] == [first];
    assert [first][..0] == [];
    assert first.sizes[..0] == [] && second.sizes[..0] == [];
    assert SizeEntries(second, second.sizes) == [(k, Info(second, second.sizes[0]))];
    assert SizeEntries(first, first.sizes) == [(k, Info(first, first.sizes[0]))];
    assert Entries([first]) == Entries([]) + SizeEntries(first, first.sizes);
    assert Entries(cards) == Entries([first]) + SizeEntries(second, second.sizes);
    assert Entries(cards) == [(k, Info(first, first.sizes[0])), (k, Info(second, second.sizes[0]))];
    assert LastPair(Entries(cards), k, 1);
    ChrtMappingLast(cards, k);
  }

  // ---------------------------------------------------------------------------
  // Products with photos and prices
  // ---------------------------------------------------------------------------

  /** One size of a price-list entry; `None` for a missing key. */
  datatype SizePrice = SizePrice(price: Option<real>, discountedPrice: Option<real>)

  /** One entry of the price list (`listGoods`). */
  datatype Good = Good(
    nmId: int,
    sizes: seq<SizePrice>,
    discount: Option<int>,
    clubDiscount: Option<int>,
    currency: Option<string>,
    editableSizePrice: Option<bool>)

  /** One product of the joined result. */
  datatype Listing = Listing(
    nmId: int,
    vendorCode: string,
    title: string,
    brand: string,
    subjectName: string,
    photoUrl: Option<string>,
    price: real,
    discountedPrice: real,
    discount: int,
    clubDiscount: int,
    currency: string,
    sizes: seq<SizePrice>,
    editableSizePrice: bool)

  /** Content requests ask for at most this many nmIDs. */
  const ContentBatch: nat := 100

  /** Python's `a or b` on optional strings. */
  function OrStr(a: Option<string>, b: Option<string>): Option<string> {
    if TruthyStr(a) then a else b
  }

  /** The first photo's URL: square, else c246x328, else big. */
  function PhotoUrl(photos: seq<Photo>): Option<string> {
    if |photos| == 0 then None
    else OrStr(photos[0].square, OrStr(photos[0].c246x328, photos[0].big))
  }

  /** A usable URL comes out iff the first photo has one in some format, and
      it is the first such format in the order square, c246x328, big. */
  lemma PhotoUrlFallback(photos: seq<Photo>)
    ensures |photos| == 0 ==> PhotoUrl(photos) == None
    ensures TruthyStr(PhotoUrl(photos)) <==>
      |photos| > 0 && (TruthyStr(photos[0].square) || TruthyStr(photos[0].c246x328) || TruthyStr(photos[0].big))
    ensures |photos| > 0 && TruthyStr(photos[0].square) ==> PhotoUrl(photos) == photos[0].square
    ensures |photos| > 0 && !TruthyStr(photos[0].square) && TruthyStr(photos[0].c246x328) ==>
      PhotoUrl(photos) == photos[0].c246x328
    ensures |photos| > 0 && !TruthyStr(photos[0].square) && !TruthyStr(photos[0].c246x328) ==>
      PhotoUrl(photos) == photos[0].big
  {
  }

  /** The price and discounted price shown: from the first size, the
      discounted price defaulting to the price; both 0 without sizes. */
  function PriceOf(sizes: seq<SizePrice>): (r: (real, real))
    ensures |sizes| == 0 ==> r == (0.0, 0.0)
    ensures |sizes| > 0 && sizes[0].discountedPrice.None? ==> r.1 == r.0
  {
    if |sizes| == 0 then (0.0, 0.0)
    else
      var p := sizes[0].price.GetOr(0.0);
      (p, sizes[0].discountedPrice.GetOr(p))
  }

  /** The joined record for a card and its price-list entry. */
  function ListingOf(c: Card, g: Good): Listing {
    var (p, d) := PriceOf(g.sizes);
    Listing(g.nmId, c.vendorCode, c.title, c.brand, c.subjectName, PhotoUrl(c.photos), p, d,
            g.discount.GetOr(0), g.clubDiscount.GetOr(0), g.currency.GetOr("RUB"), g.sizes,
            g.editableSizePrice.GetOr(false))
  }

  /** `goods_by_nm = {g['nmID']: g for g in goods}`. */
  function GoodsByNm(goods: seq<Good>): Dict<int, Good> {
    FromPairs(seq(|goods|, i requires 0 <= i < |goods| => (goods[i].nmId, goods[i])))
  }

  /** A card is in the price list. */
  predicate Priced(byNm: Dict<int, Good>, c: Card) {
    c.nmId.Some? && Get(byNm, c.nmId.value).Some?
  }

  /** The join loop: cards not in the price list are skipped, the others
      joined with their entry, in card order. */
  function Join(byNm: Dict<int, Good>, content: seq<Card>): seq<Listing>
    decreases |content|
  {
    if |content| == 0 then []
    else
      var c := content[|content| - 1];
      Join(byNm, content[..|content| - 1])
      + (if Priced(byNm, c) then [ListingOf(c, Get(byNm, c.nmId.value).value)] else [])
  }

  /** The content answers for the batches, concatenated; `None` when one of
      them was not a dict (the `.get` on it raises). */
  function CollectContent(batches: seq<seq<int>>, content: seq<int> -> Option<seq<Card>>): (r: Option<seq<Card>>)
    ensures r.None? <==> exists k | 0 <= k < |batches| :: content(batches[k]).None?
    decreases |batches|
  {
    if |batches| == 0 then Some([])
    else
      var init := batches[..|batches| - 1];
      var prev := CollectContent(init, content);
      var last := content(batches[|batches| - 1]);
      assert forall k | 0 <= k < |init| :: init[k] == batches[k];
      if prev.None? || last.None? then None else Some(prev.value + last.value)
  }

  /** `get_products_with_photos_and_prices()` after the price-list request:
      `content` answers the card request for one batch of nmIDs. */
  function ProductsWithPhotos(goods: seq<Good>, content: seq<int> -> Option<seq<Card>>): (r: seq<Listing>)
    ensures |goods| == 0 ==> r == []
  {
    if |goods| == 0 then []
    else
      var byNm := GoodsByNm(goods);
      match CollectContent(Chunks(Keys(byNm), ContentBatch), content)
      case None => []
      case Some(cards) => Join(byNm, cards)
  }

  /** The content requests cover the distinct nmIDs of the price list, each
      once, in batches of at most 100. */
  lemma ContentBatches(goods: seq<Good>)
    ensures var bs := Chunks(Keys(GoodsByNm(goods)), ContentBatch);
      Flatten(bs) == Keys(GoodsByNm(goods))
      && (forall k | 0 <= k < |bs| :: 0 < |bs[k]| <= ContentBatch)
      && (forall i, j | 0 <= i < j < |Flatten(bs)| :: Flatten(bs)[i] != Flatten(bs)[j])
      && (forall n :: n in Flatten(bs) <==> exists i | 0 <= i < |goods| :: goods[i].nmId == n)
  {
    var pairs := seq(|goods|, i requires 0 <= i < |goods| => (goods[i].nmId, goods[i]));
    var d := GoodsByNm(goods);
    FlattenChunks(Keys(d), ContentBatch);
    FromPairsDistinct(pairs);
    forall n ensures n in Keys(d) <==> exists i | 0 <= i < |goods| :: goods[i].nmId == n {
      FromPairsLast(pairs, n);
      GetNone(d, n);
      if n in Keys(d) {
        var i :| 0 <= i < |Keys(d)| && Keys(d)[i] == n;
        assert d[i].0 == n;
        assert !(forall i | 0 <= i < |pairs| :: pairs[i].0 != n);
      }
      if exists i | 0 <= i < |goods| :: goods[i].nmId == n {
        var i :| 0 <= i < |goods| && goods[i].nmId == n;
        assert pairs[i].0 == n;
        var j :| 0 <= j < |d| && d[j].0 == n;
        assert Keys(d)[j] == n;
      }
    }
  }

  /** The join emits one record per priced card, in card order, and a record
      is emitted iff some priced card yields it. */
  lemma JoinMembers(byNm: Dict<int, Good>, content: seq<Card>, x: Listing)
    ensures |Join(byNm, content)| == |Filter(content, c => Priced(byNm, c))|
    ensures x in Join(byNm, content) <==>
      exists i | 0 <= i < |content| :: Priced(byNm, content[i]) && x == ListingOf(content[i], Get(byNm, content[i].nmId.value).value)
  {
    JoinLength(byNm, content);
    JoinHas(byNm, content, x);
    if exists i | 0 <= i < |content| :: Priced(byNm, content[i]) && x == ListingOf(content[i], Get(byNm, content[i].nmId.value).value) {
      var i :| 0 <= i < |content| && Priced(byNm, content[i]) && x == ListingOf(content[i], Get(byNm, content[i].nmId.value).value);
      assert Yields(byNm, content[i], x);
    }
  }

  /** Card `c` is priced and joins into record `x`. */
  predicate Yields(byNm: Dict<int, Good>, c: Card, x: Listing) {
    Priced(byNm, c) && x == ListingOf(c, Get(byNm, c.nmId.value).value)
  }

  lemma {:induction false} JoinLength(byNm: Dict<int, Good>, content: seq<Card>)
    ensures |Join(byNm, content)| == |Filter(content, c => Priced(byNm, c))|
    decreases |content|
  {
    if |content| > 0 {
      JoinLength(byNm, content[..|content| - 1]);
    }
  }

  lemma {:induction false} JoinHas(byNm: Dict<int, Good>, content: seq<Card>, x: Listing)
    ensures x in Join(byNm, content) <==> exists i | 0 <= i < |content| :: Yields(byNm, content[i], x)
    decreases |content|
  {
    if |content| > 0 {
      var init := content[..|content| - 1];
      var c := content[|content| - 1];
      JoinHas(byNm, init, x);
      assert Join(byNm, content) == Join(byNm, init) + (if Priced(byNm, c) then [ListingOf(c, Get(byNm, c.nmId.value).value)] else []);
      if exists i | 0 <= i < |content| :: Yields(byNm, content[i], x) {
        var i :| 0 <= i < |content| && Yields(byNm, content[i], x);
        if i < |init| {
          assert init[i] == content[i];
        }
      }
      if exists i | 0 <= i < |init| :: Yields(byNm, init[i], x) {
        var i :| 0 <= i < |init| && Yields(byNm, init[i], x);
        assert content[i] == init[i];
      }
    }
  }

  /** Every record joins a card with the price-list entry of the last good
      carrying that nmID (a repeated nmID overwrites the earlier entry). */
  lemma JoinUsesLastGood(goods: seq<Good>, c: Card, i: nat)
    requires c.nmId.Some? && i < |goods| && goods[i].nmId == c.nmId.value
    requires forall j | i < j < |goods| :: goods[j].nmId != c.nmId.value
    ensures Priced(GoodsByNm(goods), c)
    ensures Join(GoodsByNm(goods), [c]) == [ListingOf(c, goods[i])]
  {
    var pairs := seq(|goods|, j requires 0 <= j < |goods| => (goods[j].nmId, goods[j]));
    assert LastPair(pairs, c.nmId.value, i);
    FromPairsLast(pairs, c.nmId.value);
    assert [c][..0] == [];
  }

  // ---------------------------------------------------------------------------
  // The price update
  // ---------------------------------------------------------------------------

  /** A number in the JSON payload. */
  datatype Num = IntNum(i: int) | RealNum(x: real)

  /** The single item of `update_price`'s `data` list: `nmID` and `price`,
      and `discount` only when one is given. */
  function PriceItem(nmId: int, price: real, discount: Option<int>): Dict<string, Num> {
    [("nmID", IntNum(nmId)), ("price", RealNum(price))]
    + (if discount.Some? then [("discount", IntNum(discount.value))] else [])
  }

  /** How the upload reads an item back: nmID, price, and the discount if
      the key is present. */
  function ReadItem(item: Dict<string, Num>): Option<(int, real, Option<int>)> {
    var n := Get(item, "nmID");
    var p := Get(item, "price");
    var d := Get(item, "discount");
    if n.Some? && n.value.IntNum? && p.Some? && p.value.RealNum? then
      if d.None? then Some((n.value.i, p.value.x, None))
      else if d.value.IntNum? then Some((n.value.i, p.value.x, Some(d.value.i)))
      else None
    else None
  }

  /** The item carries exactly what was asked: reading it back gives the same
      nmID, price and discount, and the discount key is present iff a
      discount was given. */
  lemma PriceItemRoundTrip(nmId: int, price: real, discount: Option<int>)
    ensures ReadItem(PriceItem(nmId, price, discount)) == Some((nmId, price, discount))
    ensures Get(PriceItem(nmId, price, discount), "discount").Some? <==> discount.Some?
    ensures |PriceItem(nmId, price, discount)| == if discount.Some? then 3 else 2
  {
    var item := PriceItem(nmId, price, discount);
    assert "nmID" != "price" && "nmID" != "discount" && "price" != "discount";
    assert Get(item, "nmID") == Some(IntNum(nmId));
    assert item[1..][0] == ("price", RealNum(price));
    assert Get(item, "price") == Some(RealNum(price));
    if discount.Some? {
      assert item[1..][1..] == [("discount", IntNum(discount.value))];
      assert Get(item, "discount") == Get(item[1..], "discount") == Get(item[1..][1..], "discount");
    } else {
      assert item[1..][1..] == [];
      assert Get(item, "discount") == Get(item[1..], "discount") == Get(item[1..][1..], "discount");
    }
  }
}
