/** firefly/client.go and firefly/store.go against the server model of firefly/fireflytest: walking
    the pages of a listing, and a half-open window over an interface that is closed at both ends. */
module Paging {
  import opened Sums
  import opened Budget

  const MAX_PAGES := 100
  const DEFAULT_PAGE_SIZE := 100

  // ----- The client's walk -----

  /** What a server answers for a page: the entries and how many pages there are, zero if it does
      not say. No answer is a failed request. */
  type Fetch<T> = nat -> Option<(seq<T>, int)>

  /** The entries from a page on, as far as the walk may go. */
  function Walk<T>(fetch: Fetch<T>, page: nat): Option<seq<T>>
    decreases MAX_PAGES + 1 - page
  {
    if page > MAX_PAGES then None
    else
      match fetch(page)
      case None => None
      case Some((data, pages)) =>
        if (if pages > 0 then page >= pages else data == []) then Some(data)
        else
          match Walk(fetch, page + 1)
          case None => None
          case Some(rest) => Some(data + rest)
  }

  /** How many pages the whole walk asks for. */
  function Requests<T>(fetch: Fetch<T>, page: nat): nat
    decreases MAX_PAGES + 1 - page
  {
    if page > MAX_PAGES then 0
    else
      match fetch(page)
      case None => 1
      case Some((data, pages)) =>
        if (if pages > 0 then page >= pages else data == []) then 1 else 1 + Requests(fetch, page + 1)
  }

  function Prepend<T>(out: seq<T>, r: Option<seq<T>>): Option<seq<T>> {
    match r
    case None => None
    case Some(rest) => Some(out + rest)
  }

  /** Walks the pages of a listing. Whatever the server answers, no more than MAX_PAGES are asked for;
      time is how many there is time for. */
  method GetPaged<T(==)>(fetch: Fetch<T>, time: nat) returns (r: Option<seq<T>>, requests: nat, cancelled: bool)
    ensures requests <= MAX_PAGES
    ensures cancelled <==> time < Requests(fetch, 1)
    ensures requests == if cancelled then time else Requests(fetch, 1)
    ensures r == if cancelled then None else Walk(fetch, 1)
  {
    hide Walk, Prepend, Requests;
    var out: seq<T>, page := [], 1;
    requests, cancelled := 0, false;
    WalkTurn(fetch, [], 1);
    while true
      invariant 1 <= page <= MAX_PAGES + 1 && requests == page - 1 <= time && !cancelled
      invariant Walk(fetch, 1) == Prepend(out, Walk(fetch, page))
      invariant Requests(fetch, 1) == requests + Requests(fetch, page)
      decreases MAX_PAGES + 1 - page
    {
      WalkTurn(fetch, out, page);
      RequestsTurn(fetch, page);
      if page > MAX_PAGES {
        return None, requests, cancelled;
      }
      if requests >= time {
        return None, requests, true;
      }
      var reply := fetch(page);
      requests := requests + 1;
      if reply.None? {
        return None, requests, cancelled;
      }
      var (data, pages) := reply.value;
      out := out + data;
      if pages > 0 {
        if page >= pages {
          return Some(out), requests, cancelled;
        }
        page := page + 1;
        continue;
      }
      if |data| == 0 {
        return Some(out), requests, cancelled;
      }
      page := page + 1;
    }
  }

  lemma {:induction false} RequestsTurn<T>(fetch: Fetch<T>, page: nat)
    ensures page > MAX_PAGES ==> Requests(fetch, page) == 0
    ensures page <= MAX_PAGES ==>
              Requests(fetch, page) == 1 + (
                if fetch(page).None? then 0
                else
                  var (data, pages) := fetch(page).value;
                  if (if pages > 0 then page >= pages else data == []) then 0 else Requests(fetch, page + 1))
  {
  }

  /** One turn of the walk. */
  lemma {:induction false} WalkTurn<T>(fetch: Fetch<T>, out: seq<T>, page: nat)
    ensures Prepend([], Walk(fetch, page)) == Walk(fetch, page)
    ensures page > MAX_PAGES || fetch(page).None? ==> Prepend(out, Walk(fetch, page)) == None
    ensures page <= MAX_PAGES && fetch(page).Some? ==>
              (var (data, pages) := fetch(page).value;
               Prepend(out, Walk(fetch, page))
               == if (if pages > 0 then page >= pages else data == []) then Some(out + data)
                  else Prepend(out + data, Walk(fetch, page + 1)))
  {
    if Walk(fetch, page).Some? {
      assert [] + Walk(fetch, page).value == Walk(fetch, page).value;
    }
    if page <= MAX_PAGES && fetch(page).Some? && Walk(fetch, page + 1).Some? {
      var data := fetch(page).value.0;
      assert out + (data + Walk(fetch, page + 1).value) == out + data + Walk(fetch, page + 1).value;
    }
  }

  // ----- The server's pages -----

  /** The pages of a listing; even an empty one has a page. */
  function TotalPages(total: nat, perPage: nat): (pages: nat)
    requires perPage > 0
    ensures pages >= 1
  {
    var pages := (total + perPage - 1) / perPage;
    if pages == 0 then 1 else pages
  }

  function Min(a: int, b: int): int { if a < b then a else b }

  /** Where a page starts in a listing of the given length. */
  function PageStart(total: nat, current: nat, perPage: nat): (start: nat)
    requires current >= 1
    ensures start <= total
  {
    Min((current - 1) * perPage, total)
  }

  method Paginate<T>(items: seq<T>, current: nat, perPage: nat) returns (slice: seq<T>, pages: nat)
    requires current >= 1 && perPage > 0
    ensures slice == PageOf(items, current, perPage) && pages == TotalPages(|items|, perPage)
  {
    var total := |items|;
    pages := (total + perPage - 1) / perPage;
    if pages == 0 {
      pages := 1;
    }
    var start := (current - 1) * perPage;
    if start > total {
      start := total;
    }
    var end := start + perPage;
    if end > total {
      end := total;
    }
    PageEnds(total, current, perPage);
    slice := items[start..end];
  }

  /** One page: from its start to the start of the next. */
  function PageOf<T>(items: seq<T>, current: nat, perPage: nat): seq<T>
    requires current >= 1
  {
    PageEnds(|items|, current, perPage);
    items[PageStart(|items|, current, perPage)..PageStart(|items|, current + 1, perPage)]
  }

  lemma PageEnds(total: nat, current: nat, perPage: nat)
    requires current >= 1
    ensures PageStart(total, current + 1, perPage) == Min(PageStart(total, current, perPage) + perPage, total)
    ensures PageStart(total, current, perPage) <= PageStart(total, current + 1, perPage)
  {
    assert current * perPage == (current - 1) * perPage + perPage;
  }

  /** Past the last page nothing is left, and before it something is. */
  lemma LastPage(total: nat, page: nat, perPage: nat)
    requires page >= 1 && perPage > 0
    ensures page >= TotalPages(total, perPage) <==> page * perPage >= total
  {
    var n := total + perPage - 1;
    var q := n / perPage;
    assert q * perPage <= n < q * perPage + perPage;
    if page >= q {
      assert page * perPage >= q * perPage by { MulMonotone(q, page, perPage); }
    } else {
      assert (page + 1) * perPage <= q * perPage by { MulMonotone(page + 1, q, perPage); }
      assert (page + 1) * perPage == page * perPage + perPage;
    }
  }

  lemma MulMonotone(a: nat, b: nat, c: nat)
    requires a <= b
    ensures a * c <= b * c
  {
  }

  /** The fixture's answers for a fixed listing: every page of it, with their number. */
  function PagesOf<T>(items: seq<T>, perPage: nat): Fetch<T>
    requires perPage > 0
  {
    (page: nat) => if page == 0 then None else Some((PageOf(items, page, perPage), TotalPages(|items|, perPage)))
  }

  lemma {:induction false} WalkFrom<T>(items: seq<T>, perPage: nat, page: nat)
    requires perPage > 0 && 1 <= page <= TotalPages(|items|, perPage)
    ensures Walk(PagesOf(items, perPage), page)
         == if TotalPages(|items|, perPage) <= MAX_PAGES then Some(items[PageStart(|items|, page, perPage)..]) else None
    decreases TotalPages(|items|, perPage) - page
  {
    hide TotalPages, PageStart;
    var total, pages := |items|, TotalPages(|items|, perPage);
    PageEnds(total, page, perPage);
    LastPage(total, page, perPage);
    NextStart(total, page, perPage);
    if page >= pages {
      assert PageOf(items, page, perPage) == items[PageStart(total, page, perPage)..];
    } else {
      WalkFrom(items, perPage, page + 1);
      var start, next := PageStart(total, page, perPage), PageStart(total, page + 1, perPage);
      assert items[start..next] + items[next..] == items[start..];
    }
  }

  lemma NextStart(total: nat, page: nat, perPage: nat)
    requires page >= 1
    ensures PageStart(total, page + 1, perPage) == Min(page * perPage, total)
    ensures PageStart(total, 1, perPage) == 0
  {
  }

  /** The walk over the fixture returns the listing, each entry once and in order, exactly when at
      most MAX_PAGES pages are needed. */
  lemma WalkIsListing<T>(items: seq<T>, perPage: nat)
    requires perPage > 0
    ensures Walk(PagesOf(items, perPage), 1) == if |items| <= MAX_PAGES * perPage then Some(items) else None
  {
    WalkFrom(items, perPage, 1);
    LastPage(|items|, MAX_PAGES, perPage);
    NextStart(|items|, 1, perPage);
    assert items[0..] == items;
  }

  lemma {:induction false} RequestsFrom<T>(items: seq<T>, perPage: nat, page: nat)
    requires perPage > 0 && 1 <= page <= TotalPages(|items|, perPage) && page <= MAX_PAGES + 1
    ensures Requests(PagesOf(items, perPage), page) == Min(TotalPages(|items|, perPage), MAX_PAGES) + 1 - page
    decreases TotalPages(|items|, perPage) - page
  {
    hide TotalPages, PageOf;
    if page < TotalPages(|items|, perPage) && page <= MAX_PAGES {
      RequestsFrom(items, perPage, page + 1);
    }
  }

  /** The same answers from a server that does not say how many pages there are. */
  function UncountedPagesOf<T>(items: seq<T>, perPage: nat): Fetch<T> {
    (page: nat) => if page == 0 then None else Some((PageOf(items, page, perPage), 0))
  }

  lemma StartsWithin(total: nat, page: nat, perPage: nat)
    requires 1 <= page <= MAX_PAGES
    ensures PageStart(total, page, perPage) >= total ==> total <= (MAX_PAGES - 1) * perPage
    ensures page == MAX_PAGES && PageStart(total, page, perPage) < total ==> total > (MAX_PAGES - 1) * perPage
  {
    MulMonotone(page - 1, MAX_PAGES - 1, perPage);
  }

  lemma {:induction false} UncountedWalkFrom<T>(items: seq<T>, perPage: nat, page: nat)
    requires perPage > 0 && 1 <= page <= MAX_PAGES + 1 && (page >= 2 ==> PageStart(|items|, page - 1, perPage) < |items|)
    ensures Walk(UncountedPagesOf(items, perPage), page)
         == if |items| <= (MAX_PAGES - 1) * perPage then Some(items[PageStart(|items|, page, perPage)..]) else None
    decreases MAX_PAGES + 1 - page
  {
    hide PageStart;
    var total := |items|;
    PageEnds(total, page, perPage);
    if page > MAX_PAGES {
      StartsWithin(total, MAX_PAGES, perPage);
    } else {
      var start, next := PageStart(total, page, perPage), PageStart(total, page + 1, perPage);
      StartsWithin(total, page, perPage);
      if start < total {
        UncountedWalkFrom(items, perPage, page + 1);
        assert items[start..next] + items[next..] == items[start..];
      } else {
        assert PageOf(items, page, perPage) == [] && items[start..] == [];
      }
    }
  }

  /** Without a page count the walk only ends at an empty page, so one page fewer can be listed. */
  lemma UncountedWalkIsListing<T>(items: seq<T>, perPage: nat)
    requires perPage > 0
    ensures Walk(UncountedPagesOf(items, perPage), 1)
         == if |items| <= (MAX_PAGES - 1) * perPage then Some(items) else None
  {
    UncountedWalkFrom(items, perPage, 1);
    NextStart(|items|, 1, perPage);
    assert items[0..] == items;
  }

  // ----- The server's window -----

  datatype Split = Split(source: string, destination: string, day: Day)

  /** A group of the server; it always holds at least one split. */
  datatype Group = Group(id: string, splits: seq<Split>)

  predicate Touches(g: Group, account: string) {
    exists k :: 0 <= k < |g.splits| && (g.splits[k].source == account || g.splits[k].destination == account)
  }

  method GroupTouchesAccount(g: Group, account: string) returns (yes: bool)
    ensures yes == Touches(g, account)
  {
    var k := 0;
    while k < |g.splits|
      invariant 0 <= k <= |g.splits|
      invariant forall j :: 0 <= j < k ==> g.splits[j].source != account && g.splits[j].destination != account
    {
      if g.splits[k].source == account || g.splits[k].destination == account {
        return true;
      }
      k := k + 1;
    }
    yes := false;
  }

  ghost predicate AllSplit(groups: seq<Group>) {
    forall g :: g in groups ==> g.splits != []
  }

  /** The groups an account's listing matches, closed at both ends. */
  function Matching(groups: seq<Group>, account: string, from: Day, to: Day): seq<Group>
    requires forall g :: g in groups ==> g.splits != []
  {
    if groups == [] then []
    else
      var g := groups[|groups| - 1];
      Matching(groups[..|groups| - 1], account, from, to)
      + if Touches(g, account) && from <= g.splits[0].day <= to then [g] else []
  }

  lemma MatchingNone(account: string, from: Day, to: Day)
    ensures Matching([], account, from, to) == []
  {
  }

  lemma MatchingSnoc(groups: seq<Group>, g: Group, account: string, from: Day, to: Day)
    requires AllSplit(groups) && g.splits != []
    ensures var m := Matching(groups, account, from, to);
            Matching(groups + [g], account, from, to) == if Touches(g, account) && from <= g.splits[0].day <= to then m + [g] else m
  {
    assert (groups + [g])[..|groups|] == groups;
  }

  /** The listing of two servers' groups after each other is that of the first and then that of the second;
      no group is listed more often than it is there. */
  lemma {:induction false} MatchingInOrder(a: seq<Group>, b: seq<Group>, account: string, from: Day, to: Day)
    requires AllSplit(a) && AllSplit(b)
    ensures Matching(a + b, account, from, to) == Matching(a, account, from, to) + Matching(b, account, from, to)
    ensures |Matching(b, account, from, to)| <= |b|
    decreases |b|
  {
    hide Touches, Matching;
    if b == [] {
      assert a + b == a;
      MatchingNone(account, from, to);
    } else {
      var init, g := b[..|b| - 1], b[|b| - 1];
      MatchingInOrder(a, init, account, from, to);
      assert a + b == a + init + [g] && b == init + [g];
      MatchingSnoc(a + init, g, account, from, to);
      MatchingSnoc(init, g, account, from, to);
    }
  }

  /** A group is listed exactly if the server has it, some split has the account on either side, and the
      first one is dated in the closed range. */
  lemma {:induction false} MatchingAre(groups: seq<Group>, account: string, from: Day, to: Day, g: Group)
    requires AllSplit(groups)
    ensures g in Matching(groups, account, from, to) <==>
            && g in groups && from <= g.splits[0].day <= to
            && exists s :: s in g.splits && (s.source == account || s.destination == account)
    decreases |groups|
  {
    if groups != [] {
      var init, last := groups[..|groups| - 1], groups[|groups| - 1];
      MatchingAre(init, account, from, to, g);
      assert groups == init + [last];
    }
  }

  /** The size a request's pages have: what it asks for, no more than the server's own. */
  function PageSize(limit: int, perPage: nat): (size: nat)
    requires perPage > 0
    ensures 0 < size <= perPage && (1 <= limit <= perPage ==> size == limit) && (limit < 1 || limit > perPage ==> size == perPage)
  {
    Min(if limit < 1 then perPage else limit, perPage)
  }

  class Server {
    var groups: seq<Group>
    var perPage: nat

    ghost predicate Valid()
      reads this
    {
      perPage > 0 && AllSplit(groups)
    }

    constructor (perPage: nat)
      requires perPage > 0
      ensures Valid() && groups == [] && this.perPage == perPage
    {
      groups, this.perPage := [], perPage;
    }

    /** One page of an account's listing; a range that does not end after it starts is refused. */
    method HandleAccountTransactions(account: string, from: Day, to: Day, page: int, limit: int)
      returns (r: Option<(seq<Group>, int)>)
      requires Valid()
      ensures to <= from ==> r == None
      ensures from < to ==>
                r == PagesOf(Matching(groups, account, from, to), PageSize(limit, perPage))(if page < 1 then 1 else page)
    {
      if to <= from {
        return None;
      }
      var matching: seq<Group> := [];
      var i := 0;
      while i < |groups|
        invariant 0 <= i <= |groups| && matching == Matching(groups[..i], account, from, to)
      {
        assert groups[..i + 1][..i] == groups[..i];
        var touched := GroupTouchesAccount(groups[i], account);
        if touched && !(groups[i].splits[0].day < from) && !(groups[i].splits[0].day > to) {
          matching := matching + [groups[i]];
        }
        i := i + 1;
      }
      assert groups[..i] == groups;
      var current := if page < 1 then 1 else page;
      var size := if limit < 1 then perPage else limit;
      if size > perPage {
        size := perPage;
      }
      var slice, pages := Paginate(matching, current, size);
      r := Some((slice, pages));
    }
  }

  // ----- The client's window -----

  /** The budget row a single-split group stands for, or none if it cannot be read; the conversion
      itself is not looked into beyond the day it carries. */
  type Convert = Group -> Option<Transaction>

  ghost predicate KeepsDay(convert: Convert) {
    forall g :: convert(g).Some? && |g.splits| == 1 ==> convert(g).value.date == g.splits[0].day
  }

  /** A row the window is to return. */
  predicate Wanted(g: Group, account: string, from: Day, to: Day) {
    |g.splits| == 1 && Touches(g, account) && from <= g.splits[0].day < to
  }

  /** The rows of the wanted groups, in the server's order. */
  function Rows(groups: seq<Group>, convert: Convert, account: string, from: Day, to: Day): seq<Transaction> {
    if groups == [] then []
    else
      var g := groups[|groups| - 1];
      Rows(groups[..|groups| - 1], convert, account, from, to)
      + if Wanted(g, account, from, to) && convert(g).Some? then [convert(g).value] else []
  }

  /** The range asked for covers the half-open one and is never one the server refuses; a single
      day is widened by the day after it. */
  function AskedEnd(from: Day, to: Day): (end: Day)
    requires from < to
    ensures from < end && to - 1 <= end
    ensures end < to || to == from + 1
  {
    if to - 1 <= from then from + 1 else to - 1
  }

  /** Reads the listing's groups into rows, dropping what the widening let in. Every single-split
      group of the account has to be readable, one outside the window included. */
  method ReadRows(raws: seq<Group>, convert: Convert, account: string, from: Day, to: Day, widened: bool)
    returns (r: Option<seq<Transaction>>)
    requires KeepsDay(convert)
    requires forall g :: g in raws && !widened && |g.splits| == 1 ==> from <= g.splits[0].day < to
    ensures r.Some? <==> forall g :: g in raws && |g.splits| == 1 && Touches(g, account) ==> convert(g).Some?
    ensures r.Some? ==> r.value == Rows(raws, convert, account, from, to)
  {
    var out: seq<Transaction> := [];
    var i := 0;
    while i < |raws|
      invariant 0 <= i <= |raws| && out == Rows(raws[..i], convert, account, from, to)
      invariant forall k :: 0 <= k < i && |raws[k].splits| == 1 && Touches(raws[k], account) ==> convert(raws[k]).Some?
    {
      hide Touches;
      var g := raws[i];
      assert raws[..i + 1][..i] == raws[..i];
      i := i + 1;
      if |g.splits| != 1 {
        continue;
      }
      var touched := GroupTouchesAccount(g, account);
      if !touched {
        continue;
      }
      var t := convert(g);
      if t.None? {
        return None;
      }
      if widened && (t.value.date < from || !(t.value.date < to)) {
        continue;
      }
      out := out + [t.value];
    }
    assert raws[..i] == raws;
    r := Some(out);
  }

  lemma RowsSnoc(groups: seq<Group>, g: Group, convert: Convert, account: string, from: Day, to: Day)
    ensures Rows(groups + [g], convert, account, from, to)
         == Rows(groups, convert, account, from, to)
            + if Wanted(g, account, from, to) && convert(g).Some? then [convert(g).value] else []
  {
    assert (groups + [g])[..|groups|] == groups;
  }

  /** A row is returned exactly if it is what some group reads as that has one split, with the account on
      either side of it, dated from the first day of the window on and before its end. */
  lemma {:induction false} RowsAre(groups: seq<Group>, convert: Convert, account: string, from: Day, to: Day, t: Transaction)
    ensures t in Rows(groups, convert, account, from, to) <==>
            exists g :: g in groups && |g.splits| == 1 && (g.splits[0].source == account || g.splits[0].destination == account)
                        && from <= g.splits[0].day < to && convert(g) == Some(t)
    decreases |groups|
  {
    if groups != [] {
      var init, g := groups[..|groups| - 1], groups[|groups| - 1];
      RowsAre(init, convert, account, from, to, t);
      assert groups == init + [g];
      assert |g.splits| == 1 ==> (Touches(g, account) <==> g.splits[0].source == account || g.splits[0].destination == account);
    }
  }

  /** The rows of two listings after each other are those of the first and then those of the second, at
      most one a group. */
  lemma {:induction false} RowsInOrder(a: seq<Group>, b: seq<Group>, convert: Convert, account: string, from: Day, to: Day)
    ensures Rows(a + b, convert, account, from, to) == Rows(a, convert, account, from, to) + Rows(b, convert, account, from, to)
    ensures |Rows(b, convert, account, from, to)| <= |b|
    decreases |b|
  {
    hide Wanted;
    if b == [] {
      assert a + b == a;
    } else {
      RowsInOrder(a, b[..|b| - 1], convert, account, from, to);
      assert (a + b)[..|a| + |b| - 1] == a + b[..|b| - 1];
    }
  }

  /** The rows of the wider listing that lie in the window are those of all groups that do. */
  lemma {:induction false} RowsOfMatching(groups: seq<Group>, convert: Convert, account: string, from: Day, to: Day, end: Day)
    requires AllSplit(groups) && to - 1 <= end
    ensures Rows(Matching(groups, account, from, end), convert, account, from, to) == Rows(groups, convert, account, from, to)
    decreases |groups|
  {
    hide Touches;
    if groups != [] {
      var init, g := groups[..|groups| - 1], groups[|groups| - 1];
      RowsOfMatching(init, convert, account, from, to, end);
      var m := Matching(init, account, from, end);
      RowsSnoc(m, g, convert, account, from, to);
      if !(Touches(g, account) && from <= g.splits[0].day <= end) {
        assert !Wanted(g, account, from, to) && Matching(groups, account, from, end) == m;
      }
    }
  }

  lemma {:induction false} MatchingMembers(groups: seq<Group>, account: string, from: Day, end: Day)
    requires AllSplit(groups)
    ensures forall g :: g in Matching(groups, account, from, end) <==> g in groups && Touches(g, account) && from <= g.splits[0].day <= end
    decreases |groups|
  {
    hide Touches;
    if groups != [] {
      var init, g := groups[..|groups| - 1], groups[|groups| - 1];
      MatchingMembers(init, account, from, end);
      assert groups == init + [g];
    }
  }

  /** The pages of the listing the window is read from, as many as may be walked. */
  function PagesAsked(groups: seq<Group>, perPage: nat, account: string, from: Day, to: Day): nat
    requires perPage > 0 && from < to && forall g :: g in groups ==> g.splits != []
  {
    var asked := Matching(groups, account, from, AskedEnd(from, to));
    Min(TotalPages(|asked|, PageSize(DEFAULT_PAGE_SIZE, perPage)), MAX_PAGES)
  }

  /** The rows of an account dated in [from, to): exactly the single-split groups touching it, each
      once, in the server's order, whenever the listing fits the pages that may be walked. */
  method ListTransactions(server: Server, convert: Convert, account: string, from: Day, to: Day, time: nat)
    returns (r: Option<seq<Transaction>>, cancelled: bool)
    requires server.Valid() && KeepsDay(convert)
    ensures r.Some? ==> r.value == Rows(server.groups, convert, account, from, to)
    ensures to <= from ==> r == Some([])
    ensures cancelled <==> from < to && time < PagesAsked(server.groups, server.perPage, account, from, to)
    ensures from < to && !cancelled ==>
              var asked := Matching(server.groups, account, from, AskedEnd(from, to));
              (r.Some? <==> && |asked| <= MAX_PAGES * PageSize(DEFAULT_PAGE_SIZE, server.perPage)
                            && forall g :: g in asked && |g.splits| == 1 ==> convert(g).Some?)
  {
    hide Touches;
    cancelled := false;
    var groups := server.groups;
    if to <= from {
      EmptyWindow(groups, convert, account, from, to);
      return Some([]), false;
    }
    var end := to - 1;
    var widened := end <= from;
    if widened {
      end := from + 1;
    }
    assert end == AskedEnd(from, to);
    ghost var asked := Matching(groups, account, from, end);
    RowsOfMatching(groups, convert, account, from, to, end);
    MatchingMembers(groups, account, from, end);
    var size := PageSize(DEFAULT_PAGE_SIZE, server.perPage);
    WalkIsListing(asked, size);
    RequestsFrom(asked, size, 1);
    var raws, requests, cut := GetPaged(PagesOf(Matching(groups, account, from, end), size), time);
    if raws.None? {
      return None, cut;
    }
    r := ReadRows(raws.value, convert, account, from, to, widened);
  }

  lemma {:induction false} EmptyWindow(groups: seq<Group>, convert: Convert, account: string, from: Day, to: Day)
    requires to <= from
    ensures Rows(groups, convert, account, from, to) == []
    decreases |groups|
  {
    if groups != [] {
      EmptyWindow(groups[..|groups| - 1], convert, account, from, to);
    }
  }
}
