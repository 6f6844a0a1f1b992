/** Listing Biots page by page from a server whose Biots may change between pages, and finding one by
    its name. */
module Listing {
  import opened Common
  import opened Strings

  const PAGE_SIZE := 200

  datatype Biot = Biot(id: string, name: string)

  datatype ListError = RequestFailed | InvalidCursor

  /** A server: what it answers to the `t`-th request for the page behind a cursor (empty at first). */
  type Pages = (nat, string) -> Option<seq<Biot>>

  /** The Biots the caller may read at the moment of the `t`-th request. */
  type World = nat -> set<Biot>

  function Ids(biots: set<Biot>): set<string> {
    set b <- biots :: b.id
  }

  ghost predicate AscendingIds(biots: seq<Biot>) {
    forall i, j :: 0 <= i < j < |biots| ==> Less(biots[i].id, biots[j].id)
  }

  /** The first Biots behind the cursor in the order of their IDs, a page of them at most. */
  ghost predicate IsPage(page: seq<Biot>, biots: set<Biot>, after: string) {
    && |page| <= PAGE_SIZE
    && AscendingIds(page)
    && (forall b <- page :: b in biots && Less(after, b.id))
    && forall b <- biots :: Less(after, b.id) ==>
         b in page || (|page| == PAGE_SIZE && Less(page[PAGE_SIZE - 1].id, b.id))
  }

  /** The server pages through the world it has at each moment. IDs are nonempty and there is some
      finite stock of them, and nothing else is known about how the world changes. */
  ghost predicate Serves(pages: Pages, world: World, stock: set<string>) {
    && (forall t: nat, after: string :: pages(t, after).Some? ==> IsPage(pages(t, after).value, world(t), after))
    && (forall t: nat :: Ids(world(t)) <= stock)
    && "" !in stock
  }

  /** The ID was readable at each of the first `n` requests. */
  ghost predicate Throughout(world: World, n: nat, id: string) {
    forall t: nat :: t < n ==> id in Ids(world(t))
  }

  ghost function Ahead(stock: set<string>, after: string): set<string> {
    set id <- stock | Less(after, id)
  }

  /** A full page whose last ID is no cursor to go on with. */
  predicate StuckAt(page: Option<seq<Biot>>, after: string) {
    && page.Some? && |page.value| >= PAGE_SIZE
    && var next := page.value[|page.value| - 1].id;
       next == "" || next == after
  }

  /** Every request behind the deadline fails. */
  ghost predicate Ends(pages: Pages, deadline: nat) {
    forall t: nat, after: string :: t >= deadline ==> pages(t, after) == None
  }

  /** The first `n` pages together, each behind the last ID of the one before, and the cursor then. */
  function Collected(pages: Pages, n: nat): (seq<Biot>, string) {
    if n == 0 then ([], "")
    else
      var (biots, after) := Collected(pages, n - 1);
      match pages(n - 1, after)
      case None => (biots, after)
      case Some(page) => (biots + page, if page == [] then after else page[|page| - 1].id)
  }

  /** Each of the first `n` pages was full and could be gone on from. */
  predicate FullUpTo(pages: Pages, n: nat) {
    n > 0 ==>
      && FullUpTo(pages, n - 1)
      && var (_, after) := Collected(pages, n - 1);
         var page := pages(n - 1, after);
         page.Some? && |page.value| >= PAGE_SIZE && !StuckAt(page, after)
  }

  /** What has been listed after `t` requests to a server that pages properly. */
  ghost predicate ListedSoFar(biots: seq<Biot>, world: World, stock: set<string>, after: string, t: nat) {
    && AscendingIds(biots)
    && (forall b <- biots :: b.id == after || Less(b.id, after))
    && (forall b <- biots :: exists u: nat :: u < t && b in world(u))
    && (forall id :: Throughout(world, t, id) && t > 0 ==> Less(after, id) || exists b <- biots :: b.id == id)
    && (t > 0 <==> after != "")
    && (t > 0 ==> after in stock)
    && PAGE_SIZE * t + |Ahead(stock, after)| <= |stock|
  }

  /** What a listing in `n` requests must be: strictly ascending, so nothing is listed twice; only of
      Biots that were there; and of every Biot that was there all the while. */
  ghost predicate ListedAll(biots: seq<Biot>, world: World, n: nat) {
    && AscendingIds(biots)
    && (forall b <- biots :: exists t: nat :: t < n && b in world(t))
    && forall id :: Throughout(world, n, id) ==> exists b <- biots :: b.id == id
  }

  /** What a listing that had `n` full pages comes to with the page behind them. */
  ghost predicate IsListing(pages: Pages, n: nat, result: Result<seq<Biot>, ListError>) {
    && FullUpTo(pages, n)
    && var (biots, after) := Collected(pages, n);
       match pages(n, after)
       case None => result == Err(RequestFailed)
       case Some(page) =>
         if |page| < PAGE_SIZE then result == Ok(biots + page)
         else StuckAt(Some(page), after) && result == Err(InvalidCursor)
  }

  /** Lists everything. Against any server a listing ends by the deadline, with the pages put together or
      with why there is no page to go on with. */
  method ListBiots(pages: Pages, ghost deadline: nat) returns (result: Result<seq<Biot>, ListError>)
    requires Ends(pages, deadline)
    ensures exists full: nat :: full <= deadline && IsListing(pages, full, result)
  {
    var biots: seq<Biot> := [];
    var after := "";
    var t: nat := 0;
    while true
      invariant t <= deadline && (biots, after) == Collected(pages, t) && FullUpTo(pages, t)
      decreases deadline - t
    {
      var page := pages(t, after);
      if page.None? {
        result := Err(RequestFailed);
        break;
      }
      if |page.value| < PAGE_SIZE {
        result := Ok(biots + page.value);
        break;
      }
      biots := biots + page.value;
      var next := page.value[|page.value| - 1].id;
      if next == "" || next == after {
        result := Err(InvalidCursor);
        break;
      }
      after := next;
      t := t + 1;
    }
    assert t <= deadline && IsListing(pages, t, result);
  }

  /** Whatever the server, a listing comes to one result after one number of full pages. */
  lemma ListedOnce(pages: Pages, full: nat, result: Result<seq<Biot>, ListError>,
                   full': nat, result': Result<seq<Biot>, ListError>)
    requires IsListing(pages, full, result) && IsListing(pages, full', result')
    ensures full == full' && result == result'
  {
    if full < full' {
      FullBefore(pages, full', full + 1);
    } else if full' < full {
      FullBefore(pages, full, full' + 1);
    }
  }

  lemma {:induction false} FullBefore(pages: Pages, n: nat, k: nat)
    requires FullUpTo(pages, n) && k <= n
    ensures FullUpTo(pages, k)
  {
    if k < n { FullBefore(pages, n - 1, k); }
  }

  /** A page is the last one exactly if it has fewer than 200 entries. */
  lemma PageBound(pages: Pages, n: nat, result: Result<seq<Biot>, ListError>)
    ensures FullUpTo(pages, n + 1) ==>
              pages(n, Collected(pages, n).1).Some? && |pages(n, Collected(pages, n).1).value| >= 200
    ensures IsListing(pages, n, result) && result.Ok? ==>
              pages(n, Collected(pages, n).1).Some? && |pages(n, Collected(pages, n).1).value| < 200
  {
  }

  /** A server that pages properly needs no deadline: each full page uses up as many of the IDs, which
      bounds the number of requests. The cursor check never fires, and what is listed is complete. */
  lemma ListingIsRight(pages: Pages, world: World, stock: set<string>, full: nat, result: Result<seq<Biot>, ListError>)
    requires Serves(pages, world, stock) && IsListing(pages, full, result)
    ensures 200 * full <= |stock|
    ensures match result
            case Ok(biots) => ListedAll(biots, world, full + 1)
            case Err(error) => error == RequestFailed
  {
    FullPagesListed(pages, world, stock, full);
  }

  /** Behind full pages a server that pages properly has listed everything up to the cursor, and its next
      page completes the listing or can be gone on from. */
  lemma {:induction false} FullPagesListed(pages: Pages, world: World, stock: set<string>, t: nat)
    requires Serves(pages, world, stock) && FullUpTo(pages, t)
    ensures PAGE_SIZE * t <= |stock|
    ensures var (biots, after) := Collected(pages, t);
      && ListedSoFar(biots, world, stock, after, t)
      && !StuckAt(pages(t, after), after)
      && (pages(t, after).Some? && |pages(t, after).value| < PAGE_SIZE ==>
          ListedAll(biots + pages(t, after).value, world, t + 1))
  {
    if t == 0 {
      NothingListed(world, stock);
    } else {
      FullPagesListed(pages, world, stock, t - 1);
      var (earlier, cursor) := Collected(pages, t - 1);
      PageListed(earlier, pages(t - 1, cursor).value, pages, world, stock, cursor, t - 1);
    }
    var (biots, after) := Collected(pages, t);
    if pages(t, after).Some? {
      PageListed(biots, pages(t, after).value, pages, world, stock, after, t);
    }
  }

  // ----- Whether a listing ends by itself -----

  /** Every full page ends in an ID that lies in a finite stock and comes behind its cursor. */
  ghost predicate Advances(pages: Pages, stock: set<string>) {
    forall t: nat, after: string :: pages(t, after).Some? && |pages(t, after).value| >= PAGE_SIZE ==>
      var last := pages(t, after).value[|pages(t, after).value| - 1].id;
      last in stock && Less(after, last)
  }

  /** Whatever else its pages hold, listing from a server that advances comes to an end by itself. */
  lemma AdvancingListingEnds(pages: Pages, stock: set<string>, t: nat)
    requires Advances(pages, stock) && FullUpTo(pages, t)
    ensures exists full: nat, result :: t <= full && IsListing(pages, full, result)
    decreases Ahead(stock, Collected(pages, t).1)
  {
    var (biots, after) := Collected(pages, t);
    match pages(t, after)
    case None => assert IsListing(pages, t, Err(RequestFailed));
    case Some(page) =>
      if |page| < PAGE_SIZE {
        assert IsListing(pages, t, Ok(biots + page));
      } else {
        var last := page[|page| - 1].id;
        FewerAhead(stock, after, last);
        LessIsStrict(after, last);
        FullPageGoesOn(pages, t, last);
        AdvancingListingEnds(pages, stock, t + 1);
      }
  }

  lemma FewerAhead(stock: set<string>, after: string, last: string)
    requires last in stock && Less(after, last)
    ensures Ahead(stock, last) < Ahead(stock, after)
  {
    LessIsStrict(last, last);
    forall id <- Ahead(stock, last)
      ensures id in Ahead(stock, after)
    {
      LessIsTransitive(after, last, id);
    }
    assert last in Ahead(stock, after) && last !in Ahead(stock, last);
  }

  /** A server that pages properly over a finite stock of IDs is one of these. */
  lemma ListingEnds(pages: Pages, world: World, stock: set<string>, t: nat)
    requires Serves(pages, world, stock) && FullUpTo(pages, t)
    ensures exists full: nat, result :: t <= full && IsListing(pages, full, result)
  {
    forall t: nat, after: string | pages(t, after).Some? && |pages(t, after).value| >= PAGE_SIZE
      ensures var last := pages(t, after).value[|pages(t, after).value| - 1].id; last in stock && Less(after, last)
    {
      var page := pages(t, after).value;
      assert page[|page| - 1] in page && page[|page| - 1].id in Ids(world(t));
    }
    AdvancingListingEnds(pages, stock, t);
  }

  /** The server's answers do not depend on the moment, and its full pages end in one of finitely many IDs. */
  ghost predicate Steady(pages: Pages, stock: set<string>) {
    && (forall t: nat, after: string :: pages(t, after) == pages(0, after))
    && forall t: nat, after: string :: pages(t, after).Some? && |pages(t, after).value| >= PAGE_SIZE ==>
         pages(t, after).value[|pages(t, after).value| - 1].id in stock
  }

  function Cursor(pages: Pages, n: nat): string {
    Collected(pages, n).1
  }

  /** A cursor comes back behind full pages. */
  ghost predicate Cycles(pages: Pages) {
    exists i: nat, j: nat :: i < j && FullUpTo(pages, j) && Cursor(pages, i) == Cursor(pages, j)
  }

  /** A listing from a steady server comes to an end exactly if no cursor comes back: the check for an
      empty or repeated cursor sees only a cursor that comes back at once. */
  lemma SteadyListingEnds(pages: Pages, stock: set<string>)
    requires Steady(pages, stock)
    ensures (exists full: nat, result :: IsListing(pages, full, result)) <==> !Cycles(pages)
  {
    if Cycles(pages) {
      var i: nat, j: nat :| i < j && FullUpTo(pages, j) && Cursor(pages, i) == Cursor(pages, j);
      CycleNeverEnds(pages, stock, i, j);
    } else {
      SteadyEnds(pages, stock, {}, 0);
    }
  }

  lemma CycleNeverEnds(pages: Pages, stock: set<string>, i: nat, j: nat)
    requires Steady(pages, stock) && i < j && FullUpTo(pages, j) && Cursor(pages, i) == Cursor(pages, j)
    ensures forall full: nat, result :: !IsListing(pages, full, result)
  {
    forall a: nat, b: nat
      ensures SameStep(pages, a, b)
    {
      if Cursor(pages, a) == Cursor(pages, b) && FullUpTo(pages, a + 1) && FullUpTo(pages, b) {
        SameCursorSameStep(pages, stock, a, b);
      }
    }
    forall full: nat, result
      ensures !IsListing(pages, full, result)
    {
      CycleGoesOn(pages, i, j, full + 1);
    }
  }

  /** From equal cursors equal steps follow. */
  predicate SameStep(pages: Pages, a: nat, b: nat) {
    Cursor(pages, a) == Cursor(pages, b) && FullUpTo(pages, a + 1) && FullUpTo(pages, b) ==>
      FullUpTo(pages, b + 1) && Cursor(pages, a + 1) == Cursor(pages, b + 1)
  }

  /** From a cursor that came back on, pages and cursors repeat. */
  lemma {:induction false} CycleGoesOn(pages: Pages, i: nat, j: nat, n: nat)
    requires forall a: nat, b: nat :: SameStep(pages, a, b)
    requires i < j && FullUpTo(pages, j) && Cursor(pages, i) == Cursor(pages, j)
    ensures FullUpTo(pages, n) && (n >= j ==> Cursor(pages, n) == Cursor(pages, n - (j - i)))
  {
    if n <= j {
      FullBefore(pages, j, n);
    } else {
      CycleGoesOn(pages, i, j, n - 1);
      FullBefore(pages, n - 1, n - (j - i));
      assert SameStep(pages, n - 1 - (j - i), n - 1);
    }
  }

  lemma SameCursorSameStep(pages: Pages, stock: set<string>, a: nat, b: nat)
    requires Steady(pages, stock) && Cursor(pages, a) == Cursor(pages, b)
    requires FullUpTo(pages, a + 1) && FullUpTo(pages, b)
    ensures FullUpTo(pages, b + 1) && Cursor(pages, a + 1) == Cursor(pages, b + 1)
  {
    var after := Cursor(pages, a);
    assert pages(a, after) == pages(0, after) == pages(b, after);
  }

  /** Without a cycle each full page uses up an ID for good. */
  lemma SteadyEnds(pages: Pages, stock: set<string>, seen: set<string>, t: nat)
    requires Steady(pages, stock) && !Cycles(pages) && FullUpTo(pages, t)
    requires seen <= stock && forall id :: id in seen <==> exists i: nat :: 0 < i <= t && Cursor(pages, i) == id
    ensures exists full: nat, result :: IsListing(pages, full, result)
    decreases stock - seen
  {
    var (biots, after) := Collected(pages, t);
    var page := pages(t, after);
    if page.None? {
      assert IsListing(pages, t, Err(RequestFailed));
    } else if |page.value| < PAGE_SIZE {
      assert IsListing(pages, t, Ok(biots + page.value));
    } else if StuckAt(page, after) {
      assert IsListing(pages, t, Err(InvalidCursor));
    } else {
      var next := Cursor(pages, t + 1);
      assert next == page.value[|page.value| - 1].id && FullUpTo(pages, t + 1);
      assert next in stock && next !in seen;
      SteadyEnds(pages, stock, seen + {next}, t + 1);
    }
  }

  lemma FullPageGoesOn(pages: Pages, n: nat, last: string)
    requires FullUpTo(pages, n)
    requires var page := pages(n, Cursor(pages, n));
      && page.Some? && |page.value| >= PAGE_SIZE && page.value[|page.value| - 1].id == last
      && !StuckAt(page, Cursor(pages, n))
    ensures FullUpTo(pages, n + 1) && Cursor(pages, n + 1) == last
  {
  }

  function FullPage(last: string): seq<Biot> {
    seq(PAGE_SIZE, i => Biot(if i == PAGE_SIZE - 1 then last else "", ""))
  }

  /** Two full pages, each ending in the other's cursor. */
  function TurnInCircles(): Pages {
    (t: nat, after: string) => Some(FullPage(if after == "a" then "b" else "a"))
  }

  /** A listing need not end: from this server it never does. */
  lemma ListingMayGoOn(full: nat, result: Result<seq<Biot>, ListError>)
    ensures FullUpTo(TurnInCircles(), full) && !IsListing(TurnInCircles(), full, result)
  {
    CirclesAreFull(full);
    CirclesAreFull(full + 1);
  }

  lemma {:induction false} CirclesAreFull(n: nat)
    ensures FullUpTo(TurnInCircles(), n)
  {
    if n > 0 {
      CirclesAreFull(n - 1);
      var after := Cursor(TurnInCircles(), n - 1);
      FullPageEnds(after, n - 1);
      FullPageGoesOn(TurnInCircles(), n - 1, if after == "a" then "b" else "a");
    }
  }

  lemma FullPageEnds(after: string, t: nat)
    ensures var page := TurnInCircles()(t, after);
      && page.Some? && |page.value| == PAGE_SIZE
      && page.value[PAGE_SIZE - 1].id == (if after == "a" then "b" else "a")
      && !StuckAt(page, after)
  {
  }

  lemma NothingListed(world: World, stock: set<string>)
    ensures ListedSoFar([], world, stock, "", 0)
  {
    SmallerSet(Ahead(stock, ""), stock);
  }

  lemma SmallerSet(part: set<string>, whole: set<string>)
    requires part <= whole
    ensures |part| <= |whole|
  {
    assert whole == part + (whole - part);
  }

  /** One more page: the last one completes the listing, any other one brings it on. */
  lemma PageListed(biots: seq<Biot>, page: seq<Biot>, pages: Pages, world: World, stock: set<string>, after: string, t: nat)
    requires Serves(pages, world, stock) && pages(t, after) == Some(page)
    requires ListedSoFar(biots, world, stock, after, t)
    ensures |page| < PAGE_SIZE ==> ListedAll(biots + page, world, t + 1)
    ensures |page| >= PAGE_SIZE ==>
              !StuckAt(Some(page), after) && ListedSoFar(biots + page, world, stock, page[|page| - 1].id, t + 1)
  {
    assert Ids(world(t)) <= stock;
    PageAppends(biots, page, world(t), after);
    ThroughoutAppends(biots, page, world, after, t, t + 1);
    if |page| >= PAGE_SIZE {
      AheadShrinks(stock, page, world(t), after);
      var last := page[|page| - 1];
      assert last in world(t) && last.id in Ids(world(t));
      LessIsStrict(after, last.id);
    }
  }

  /** Listing a full page uses up that many IDs. */
  lemma AheadShrinks(stock: set<string>, page: seq<Biot>, readable: set<Biot>, after: string)
    requires IsPage(page, readable, after) && |page| == PAGE_SIZE && Ids(readable) <= stock
    ensures |Ahead(stock, page[PAGE_SIZE - 1].id)| + PAGE_SIZE <= |Ahead(stock, after)|
  {
    var next := page[PAGE_SIZE - 1].id;
    var listed := set b <- page :: b.id;
    AscendingCount(page);
    forall id <- listed
      ensures id in Ahead(stock, after) && id !in Ahead(stock, next)
    {
      var i :| 0 <= i < |page| && page[i].id == id;
      assert page[i] in readable && id in Ids(readable);
      LessIsStrict(id, next);
    }
    forall id <- Ahead(stock, next)
      ensures id in Ahead(stock, after)
    {
      assert page[PAGE_SIZE - 1] in page;
      LessIsTransitive(after, next, id);
    }
    assert |listed + Ahead(stock, next)| == |listed| + |Ahead(stock, next)|;
    SmallerSet(listed + Ahead(stock, next), Ahead(stock, after));
  }

  lemma {:induction false} AscendingCount(biots: seq<Biot>)
    requires AscendingIds(biots)
    ensures |set b <- biots :: b.id| == |biots|
  {
    if biots != [] {
      var n := |biots| - 1;
      var front, last := biots[..n], biots[n];
      AscendingCount(front);
      LastIdIsNew(biots);
      assert biots == front + [last];
      assert (set b <- biots :: b.id) == (set b <- front :: b.id) + {last.id};
    }
  }

  lemma LastIdIsNew(biots: seq<Biot>)
    requires AscendingIds(biots) && biots != []
    ensures biots[|biots| - 1].id !in set b <- biots[..|biots| - 1] :: b.id
  {
    forall i | 0 <= i < |biots| - 1
      ensures biots[i].id != biots[|biots| - 1].id
    {
      LessIsStrict(biots[i].id, biots[|biots| - 1].id);
    }
  }

  lemma PageAppends(biots: seq<Biot>, page: seq<Biot>, readable: set<Biot>, after: string)
    requires AscendingIds(biots) && IsPage(page, readable, after)
    requires forall b <- biots :: b.id == after || Less(b.id, after)
    ensures AscendingIds(biots + page)
    ensures page != [] ==> forall b <- biots + page :: b.id == page[|page| - 1].id || Less(b.id, page[|page| - 1].id)
  {
    forall b <- biots, p <- page
      ensures Less(b.id, p.id)
    {
      if b.id != after { LessIsTransitive(b.id, after, p.id); }
    }
    var all := biots + page;
    forall i, j | 0 <= i < j < |all|
      ensures Less(all[i].id, all[j].id)
    {
      if i < |biots| <= j {
        assert all[i] in biots && all[j] in page;
      }
    }
    if page != [] {
      forall b <- all
        ensures b.id == page[|page| - 1].id || Less(b.id, page[|page| - 1].id)
      {
        var i :| 0 <= i < |all| && all[i] == b;
        assert all[|all| - 1] == page[|page| - 1];
      }
    }
  }

  lemma ThroughoutAppends(biots: seq<Biot>, page: seq<Biot>, world: World, after: string, t: nat, n: nat)
    requires IsPage(page, world(t), after) && n == t + 1
    requires t == 0 ==> after == ""
    requires "" !in Ids(world(t))
    requires forall id :: Throughout(world, t, id) && t > 0 ==> Less(after, id) || exists b <- biots :: b.id == id
    ensures forall id :: Throughout(world, n, id) ==>
      (|page| == PAGE_SIZE && Less(page[PAGE_SIZE - 1].id, id)) || exists b <- biots + page :: b.id == id
  {
    forall id | Throughout(world, n, id)
      ensures (|page| == PAGE_SIZE && Less(page[PAGE_SIZE - 1].id, id)) || exists b <- biots + page :: b.id == id
    {
      assert Throughout(world, t, id);
      if Less(after, id) || t == 0 {
        assert id in Ids(world(t));
        var b :| b in world(t) && b.id == id;
        assert Less(after, b.id);
        if b in page {
          assert b in biots + page;
        }
      } else {
        var b :| b in biots && b.id == id;
        assert b in biots + page;
      }
    }
  }

  // ----- Finding a Biot by name -----

  datatype Resolved = Found(biot: Biot) | NotFound | Ambiguous(ids: seq<string>) | Failed(error: ListError)

  function Matching(biots: seq<Biot>, name: string): seq<Biot> {
    if biots == [] then []
    else
      var last := biots[|biots| - 1];
      Matching(biots[..|biots| - 1], name) + if last.name == name then [last] else []
  }

  ghost function Always(readable: set<Biot>): World {
    t => readable
  }

  /** The readable Biots do not change, have different IDs, and are served properly. */
  ghost predicate Unchanging(pages: Pages, readable: set<Biot>) {
    && Serves(pages, Always(readable), Ids(readable))
    && forall b <- readable, c <- readable :: b.id == c.id ==> b == c
  }

  /** The right answer: the Biot if exactly one has the name, otherwise none or all matching IDs. */
  ghost predicate RightAnswer(resolved: Resolved, readable: set<Biot>, name: string) {
    match resolved
    case Found(biot) => biot in readable && biot.name == name && forall b <- readable :: b.name == name ==> b == biot
    case NotFound => forall b <- readable :: b.name != name
    case Ambiguous(ids) =>
      && |ids| > 1 && Ascending(ids)
      && forall id :: id in ids <==> exists b <- readable :: b.id == id && b.name == name
    case Failed(error) => error == RequestFailed
  }

  /** Resolves a name over a listing. The answer is what the listing comes to, of which there is one, so it
      fails only with the listing; and when the Biots do not change meanwhile, it is right. */
  method ResolveName(pages: Pages, ghost deadline: nat, ghost readable: set<Biot>, name: string) returns (resolved: Resolved)
    requires Ends(pages, deadline)
    ensures exists full: nat, listing :: full <= deadline && IsListing(pages, full, listing) && resolved == Resolution(listing, name)
    ensures Unchanging(pages, readable) ==> RightAnswer(resolved, readable, name)
  {
    var listing := ListBiots(pages, deadline);
    ghost var full: nat :| full <= deadline && IsListing(pages, full, listing);
    resolved := Resolve(listing, name);
    if Unchanging(pages, readable) {
      ResolutionIsRight(pages, readable, full, listing, name);
    }
  }

  method Resolve(listing: Result<seq<Biot>, ListError>, name: string) returns (resolved: Resolved)
    ensures resolved == Resolution(listing, name)
  {
    if listing.Err? {
      return Failed(listing.error);
    }
    resolved := Choose(listing.value, name);
  }

  function Resolution(listing: Result<seq<Biot>, ListError>, name: string): Resolved {
    match listing
    case Err(error) => Failed(error)
    case Ok(biots) => Chosen(Matching(biots, name))
  }

  /** Over Biots that do not change, what a listing comes to resolves to the right answer. */
  lemma ResolutionIsRight(pages: Pages, readable: set<Biot>, full: nat, listing: Result<seq<Biot>, ListError>, name: string)
    requires Unchanging(pages, readable) && IsListing(pages, full, listing)
    ensures RightAnswer(Resolution(listing, name), readable, name)
  {
    ListingIsRight(pages, Always(readable), Ids(readable), full, listing);
    if listing.Ok? {
      ListsAll(listing.value, readable, Always(readable), full + 1);
      ChoiceIsRight(listing.value, readable, name);
    }
  }

  function Chosen(matches: seq<Biot>): Resolved {
    if |matches| == 1 then Found(matches[0])
    else if |matches| == 0 then NotFound
    else Ambiguous(IdsOf(matches))
  }

  method Choose(biots: seq<Biot>, name: string) returns (resolved: Resolved)
    ensures resolved == Chosen(Matching(biots, name))
  {
    var matches: seq<Biot> := [];
    for i := 0 to |biots|
      invariant matches == Matching(biots[..i], name)
    {
      assert biots[..i + 1][..i] == biots[..i];
      if biots[i].name == name {
        matches := matches + [biots[i]];
      }
    }
    assert biots[..|biots|] == biots;
    if |matches| == 1 {
      return Found(matches[0]);
    }
    if |matches| == 0 {
      return NotFound;
    }
    return Ambiguous(IdsOf(matches));
  }

  /** Choosing among all readable Biots in ascending order gives the right answer. */
  lemma ChoiceIsRight(biots: seq<Biot>, readable: set<Biot>, name: string)
    requires AscendingIds(biots) && forall b :: b in biots <==> b in readable
    ensures RightAnswer(Chosen(Matching(biots, name)), readable, name)
  {
    MatchingIs(biots, name);
    MatchingIds(Matching(biots, name), readable, name);
  }

  function IdsOf(biots: seq<Biot>): seq<string> {
    seq(|biots|, i requires 0 <= i < |biots| => biots[i].id)
  }

  lemma MatchingIds(matches: seq<Biot>, readable: set<Biot>, name: string)
    requires AscendingIds(matches)
    requires forall b :: b in matches <==> b in readable && b.name == name
    ensures Ascending(IdsOf(matches))
    ensures forall id :: id in IdsOf(matches) <==> exists b <- readable :: b.id == id && b.name == name
  {
    forall id
      ensures id in IdsOf(matches) <==> exists b <- readable :: b.id == id && b.name == name
    {
      if b :| b in readable && b.id == id && b.name == name {
        assert b in matches;
        var i :| 0 <= i < |matches| && matches[i] == b;
        assert IdsOf(matches)[i] == id;
      }
      if id in IdsOf(matches) {
        var i :| 0 <= i < |matches| && IdsOf(matches)[i] == id;
        assert matches[i] in matches;
      }
    }
  }

  lemma ListsAll(biots: seq<Biot>, readable: set<Biot>, world: World, requests: nat)
    requires forall t: nat :: world(t) == readable
    requires forall b <- readable, c <- readable :: b.id == c.id ==> b == c
    requires ListedAll(biots, world, requests)
    ensures forall b :: b in biots <==> b in readable
  {
    forall b <- readable
      ensures b in biots
    {
      assert Throughout(world, requests, b.id);
    }
  }

  lemma {:induction false} MatchingIs(biots: seq<Biot>, name: string)
    requires AscendingIds(biots)
    ensures AscendingIds(Matching(biots, name))
    ensures forall b :: b in Matching(biots, name) <==> b in biots && b.name == name
  {
    if biots != [] {
      var front, last := biots[..|biots| - 1], biots[|biots| - 1];
      MatchingIs(front, name);
      assert biots == front + [last];
      var matches := Matching(front, name);
      forall i | 0 <= i < |matches|
        ensures Less(matches[i].id, last.id)
      {
        assert matches[i] in front;
      }
    }
  }
}
