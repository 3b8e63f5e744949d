/** The derived views of the admin console (client/src/features/admin/AdminPage.jsx): the
    status badge, the search and status filter over the active tab, the total revenue and
    the three revenue breakdowns (by day, by cab type, top five routes). The tabs themselves
    are those of `ClientBookings`, whose three functions the console carries an identical
    copy of (AdminPage.jsx:27-49, 191-197). Turning a date string into its UTC calendar day
    (`new Date(s).toISOString().slice(0, 10)`) is the parameter `isoDay`. */
module AdminPage {
  import opened Wrappers
  import Text
  import Seqs
  import opened ClientBookings
  import opened Grouping

  // ---------------------------------------------------------------- status badge

  const BadgeBase := "px-2 py-1 rounded-full text-xs font-semibold"

  /** The Tailwind colour of each status; anything else (PENDING, absent, unknown) is amber. */
  function BadgeColour(status: Option<string>): string
  {
    if status == Some("CONFIRMED") then "emerald"
    else if status == Some("COMPLETED") then "indigo"
    else if status == Some("CANCELLED") then "rose"
    else "amber"
  }

  /** `statusBadge`. */
  function StatusBadge(status: Option<string>): string
  {
    var c := BadgeColour(status);
    BadgeBase + " bg-" + c + "-100 text-" + c + "-700"
  }

  /** Confirmed, completed and cancelled bookings get three badges different from each other
      and from the default one, which every other status gets. */
  lemma StatusBadgesDistinct(other: Option<string>)
    requires other != Some("CONFIRMED") && other != Some("COMPLETED") && other != Some("CANCELLED")
    ensures var confirmed, completed, cancelled := StatusBadge(Some("CONFIRMED")), StatusBadge(Some("COMPLETED")), StatusBadge(Some("CANCELLED"));
      && StatusBadge(other) == StatusBadge(Some("PENDING"))
      && confirmed != completed && confirmed != cancelled && completed != cancelled
      && StatusBadge(other) !in {confirmed, completed, cancelled}
  {
    var at := |BadgeBase| + 4;
    assert StatusBadge(Some("CONFIRMED"))[at] == 'e';
    assert StatusBadge(Some("COMPLETED"))[at] == 'i';
    assert StatusBadge(Some("CANCELLED"))[at] == 'r';
    assert StatusBadge(other)[at] == 'a';
  }

  // ---------------------------------------------------------------- search and status filter

  const AllStatuses := "ALL"

  /** The searched fields, in order, with the absent ones dropped (`filter(Boolean)`). */
  function SearchFields(b: ClientBooking): seq<string>
  {
    Seqs.Filter([b.pickupAddress, b.dropoffAddress, b.route, b.cabType, b.carModel, b.id], NonEmpty)
  }

  predicate NonEmpty(s: string)
  {
    s != ""
  }

  /** The lower-cased, space-joined search fields. */
  function Haystack(b: ClientBooking): string
  {
    Text.Lower(Text.Join(SearchFields(b), " "))
  }

  predicate MatchesQuery(b: ClientBooking, query: string)
  {
    query == "" || Text.Contains(Haystack(b), Text.Lower(query))
  }

  predicate MatchesStatus(b: ClientBooking, statusFilter: string)
  {
    statusFilter == AllStatuses || b.status == Some(statusFilter)
  }

  function Matches(query: string, statusFilter: string): ClientBooking -> bool
  {
    b => MatchesQuery(b, query) && MatchesStatus(b, statusFilter)
  }

  /** `filteredBookings`: the active tab, filtered by query and status. */
  function FilteredBookings(bookings: seq<ClientBooking>, clk: Clock, activeTab: Tab, query: string, statusFilter: string)
    : seq<ClientBooking>
  {
    Seqs.Filter(InTab(bookings, activeTab, clk), Matches(query, statusFilter))
  }

  /** The filtered list keeps the order of the tab and drops only bookings from it. */
  lemma FilteredIsSubsequence(bookings: seq<ClientBooking>, clk: Clock, activeTab: Tab, query: string, statusFilter: string)
    ensures Seqs.IsSubsequence(FilteredBookings(bookings, clk, activeTab, query, statusFilter), InTab(bookings, activeTab, clk))
  {
    Seqs.FilterIsSubsequence(InTab(bookings, activeTab, clk), Matches(query, statusFilter));
  }

  /** No query and the status filter `ALL`: the whole tab. */
  lemma UnfilteredShowsTab(bookings: seq<ClientBooking>, clk: Clock, activeTab: Tab)
    ensures FilteredBookings(bookings, clk, activeTab, "", AllStatuses) == InTab(bookings, activeTab, clk)
  {
    Seqs.FilterAll(InTab(bookings, activeTab, clk), Matches("", AllStatuses));
  }

  /** A shown booking is in the active tab, has the filtered status unless the filter is
      `ALL`, and its haystack contains the lower-cased query unless the query is empty; every
      booking of the tab that passes both is shown. */
  lemma FilteredMembers(bookings: seq<ClientBooking>, clk: Clock, activeTab: Tab, query: string, statusFilter: string)
    ensures var shown := FilteredBookings(bookings, clk, activeTab, query, statusFilter);
      && (forall b :: b in shown ==>
            && b in bookings && ClassifyBooking(b, clk) == activeTab
            && (statusFilter != AllStatuses ==> b.status == Some(statusFilter))
            && (query != "" ==> Text.Contains(Haystack(b), Text.Lower(query))))
      && (forall b :: b in InTab(bookings, activeTab, clk) && MatchesQuery(b, query) && MatchesStatus(b, statusFilter)
            ==> b in shown)
  {
    TabMembers(bookings, activeTab, clk);
    var tab := InTab(bookings, activeTab, clk);
    forall b | b in tab && MatchesQuery(b, query) && MatchesStatus(b, statusFilter)
      ensures b in FilteredBookings(bookings, clk, activeTab, query, statusFilter)
    {
      var i :| 0 <= i < |tab| && tab[i] == b;
      assert Matches(query, statusFilter)(tab[i]);
    }
  }

  /** A query that occurs in one of the searched fields finds the booking, whatever its case. */
  lemma FieldOccurrenceMatches(b: ClientBooking, query: string, k: nat)
    requires k < |SearchFields(b)| && Text.Contains(SearchFields(b)[k], query)
    ensures MatchesQuery(b, query)
  {
    Text.JoinContainsPart(SearchFields(b), " ", k, query);
    Text.LowerContains(Text.Join(SearchFields(b), " "), query);
  }

  // ---------------------------------------------------------------- revenue

  /** `b.fare?.totalAmount || 0`. */
  function Fare(b: ClientBooking): int
  {
    b.totalAmount.GetOr(0)
  }

  /** `revenue`: the fares added up in list order. */
  function Revenue(bs: seq<ClientBooking>): int
  {
    if bs == [] then 0 else Revenue(bs[..|bs| - 1]) + Fare(bs[|bs| - 1])
  }

  lemma RevenueAppend(bs: seq<ClientBooking>, b: ClientBooking)
    ensures Revenue(bs + [b]) == Revenue(bs) + Fare(b)
  {
    assert (bs + [b])[..|bs|] == bs;
  }

  /** Bookings without a fare add nothing: the revenue is that of the bookings with one. */
  lemma {:induction false} MissingFaresAddNothing(bs: seq<ClientBooking>)
    ensures Revenue(bs) == Revenue(Seqs.Filter(bs, HasFare))
  {
    if bs != [] {
      var init, last := bs[..|bs| - 1], bs[|bs| - 1];
      MissingFaresAddNothing(init);
      Seqs.InitLast(bs);
      Seqs.FilterAppend(init, last, HasFare);
      var kept, all := Seqs.Filter(init, HasFare), Seqs.Filter(bs, HasFare);
      assert all == Seqs.Filter(init + [last], HasFare);
      assert Revenue(bs) == Revenue(init) + Fare(last);
      if HasFare(last) {
        assert all == kept + [last];
        RevenueAppend(kept, last);
      } else {
        assert all == kept;
      }
    }
  }

  predicate HasFare(b: ClientBooking)
  {
    b.totalAmount.Some?
  }

  /** With no negative fare (the booking record's lower bound), the revenue is not negative. */
  lemma {:induction false} RevenueNonNegative(bs: seq<ClientBooking>)
    requires forall i :: 0 <= i < |bs| ==> Fare(bs[i]) >= 0
    ensures Revenue(bs) >= 0
  {
    if bs != [] {
      RevenueNonNegative(bs[..|bs| - 1]);
    }
  }

  // ---------------------------------------------------------------- breakdowns

  const UnknownKey := "Unknown"

  /** `booking.selection?.cabType || 'Unknown'`. */
  function CabKey(b: ClientBooking): string
  {
    if b.cabType == "" then UnknownKey else b.cabType
  }

  /** `booking.selection?.route || 'Unknown'`. */
  function RouteKey(b: ClientBooking): string
  {
    if b.route == "" then UnknownKey else b.route
  }

  /** The UTC day of the pickup date, or of the creation instant when there is no pickup
      date; `Unknown` when that does not parse. */
  function DayKey(b: ClientBooking, isoDay: string -> Option<string>): string
  {
    var source := if b.pickupDate != "" then b.pickupDate else b.createdAt;
    isoDay(source).GetOr(UnknownKey)
  }

  function DayKeyOf(isoDay: string -> Option<string>): ClientBooking -> string
  {
    b => DayKey(b, isoDay)
  }

  /** Each booking's key and fare, in list order. */
  function Amounts(bs: seq<ClientBooking>, key: ClientBooking -> string): seq<Amount>
  {
    seq(|bs|, i requires 0 <= i < |bs| => Amount(key(bs[i]), Fare(bs[i])))
  }

  /** Each booking's key, in list order. */
  function BookingKeys(bs: seq<ClientBooking>, key: ClientBooking -> string): seq<string>
  {
    seq(|bs|, i requires 0 <= i < |bs| => key(bs[i]))
  }

  function KeysOf(bs: seq<ClientBooking>, key: ClientBooking -> string): set<string>
  {
    set i | 0 <= i < |bs| :: key(bs[i])
  }

  function WithKey(bs: seq<ClientBooking>, key: ClientBooking -> string, k: string): seq<ClientBooking>
  {
    Seqs.Filter(bs, (b: ClientBooking) => key(b) == k)
  }

  /** Every entry holds the whole revenue of the bookings under its key. */
  predicate FullTotals(rows: seq<Entry>, bs: seq<ClientBooking>, key: ClientBooking -> string)
  {
    forall i :: 0 <= i < |rows| ==> rows[i].total == Revenue(WithKey(bs, key, rows[i].key))
  }

  lemma {:induction false} AmountsSum(bs: seq<ClientBooking>, key: ClientBooking -> string)
    ensures SumAmounts(Amounts(bs, key)) == Revenue(bs)
  {
    if bs != [] {
      AmountsSum(bs[..|bs| - 1], key);
      assert Amounts(bs, key)[..|bs| - 1] == Amounts(bs[..|bs| - 1], key);
    }
  }

  lemma {:induction false} AmountsFor(bs: seq<ClientBooking>, key: ClientBooking -> string, k: string)
    ensures SumFor(Amounts(bs, key), k) == Revenue(WithKey(bs, key, k))
  {
    if bs != [] {
      var init, last := bs[..|bs| - 1], bs[|bs| - 1];
      AmountsFor(init, key, k);
      assert Amounts(bs, key)[..|bs| - 1] == Amounts(init, key);
      assert SumFor(Amounts(bs, key), k) == SumFor(Amounts(init, key), k) + (if key(last) == k then Fare(last) else 0);
      Seqs.InitLast(bs);
      Seqs.FilterAppend(init, last, (b: ClientBooking) => key(b) == k);
      var kept, all := WithKey(init, key, k), WithKey(bs, key, k);
      assert all == Seqs.Filter(init + [last], (b: ClientBooking) => key(b) == k);
      if key(last) == k {
        assert all == kept + [last];
        RevenueAppend(kept, last);
      } else {
        assert all == kept;
      }
    }
  }

  lemma AmountsKeys(bs: seq<ClientBooking>, key: ClientBooking -> string)
    ensures AmountKeys(Amounts(bs, key)) == KeysOf(bs, key)
  {
    var a := Amounts(bs, key);
    forall k | k in KeysOf(bs, key) ensures k in AmountKeys(a) {
      var i :| 0 <= i < |bs| && key(bs[i]) == k;
      assert a[i].key == k;
    }
  }

  /** The `Map` filled from the bookings under `key`: one entry per key, in the order the
      keys first occur, each with the full revenue of its key, adding up to the whole
      revenue. */
  method RevenueBy(bookings: seq<ClientBooking>, key: ClientBooking -> string) returns (entries: seq<Entry>)
    ensures entries == Totals(Amounts(bookings, key))
    ensures KeySeq(entries) == FirstSeen(BookingKeys(bookings, key))
    ensures DistinctKeys(entries) && EntryKeys(entries) == KeysOf(bookings, key)
    ensures FullTotals(entries, bookings, key)
    ensures SumTotals(entries) == Revenue(bookings)
  {
    var amounts := Amounts(bookings, key);
    entries := AccumulateTotals(amounts);
    TotalsInFirstSeenOrder(amounts);
    assert AmountKeySeq(amounts) == BookingKeys(bookings, key);
    AmountsSum(bookings, key);
    AmountsKeys(bookings, key);
    forall i | 0 <= i < |entries| ensures entries[i].total == Revenue(WithKey(bookings, key, entries[i].key)) {
      AmountsFor(bookings, key, entries[i].key);
    }
  }

  /** `revenueByCab`: per cab type in first-seen order. */
  method RevenueByCab(bookings: seq<ClientBooking>) returns (rows: seq<Entry>)
    ensures KeySeq(rows) == FirstSeen(BookingKeys(bookings, CabKey))
    ensures DistinctKeys(rows) && EntryKeys(rows) == KeysOf(bookings, CabKey)
    ensures FullTotals(rows, bookings, CabKey)
    ensures SumTotals(rows) == Revenue(bookings)
  {
    rows := RevenueBy(bookings, CabKey);
  }

  /** Sorting keeps the entries, so the facts of the `Map` carry over. */
  lemma SortKeepsTotals(o: Order, entries: seq<Entry>, bs: seq<ClientBooking>, key: ClientBooking -> string)
    requires DistinctKeys(entries) && FullTotals(entries, bs, key)
    ensures var rows := SortBy(o, entries);
      && SortedBy(o, rows) && DistinctKeys(rows) && EntryKeys(rows) == EntryKeys(entries)
      && FullTotals(rows, bs, key) && SumTotals(rows) == SumTotals(entries)
  {
    var rows := SortBy(o, entries);
    SortBySorted(o, entries);
    SortByPermutes(o, entries);
    SortByKeepsKeysDistinct(o, entries);
    PermutationKeys(rows, entries);
    PermutationKeys(entries, rows);
    forall i | 0 <= i < |rows| ensures rows[i].total == Revenue(WithKey(bs, key, rows[i].key)) {
      assert rows[i] in multiset(entries);
      var j :| 0 <= j < |entries| && entries[j] == rows[i];
    }
  }

  /** `revenueByDay`: one row per day, in strictly ascending day order, adding up to the
      revenue. */
  method RevenueByDay(bookings: seq<ClientBooking>, isoDay: string -> Option<string>) returns (rows: seq<Entry>)
    ensures forall i, j :: 0 <= i < j < |rows| ==> KeyLess(rows[i].key, rows[j].key)
    ensures DistinctKeys(rows) && EntryKeys(rows) == KeysOf(bookings, DayKeyOf(isoDay))
    ensures FullTotals(rows, bookings, DayKeyOf(isoDay))
    ensures SumTotals(rows) == Revenue(bookings)
  {
    var entries := RevenueBy(bookings, DayKeyOf(isoDay));
    rows := SortBy(ByKeyAscending, entries);
    SortKeepsTotals(ByKeyAscending, entries, bookings, DayKeyOf(isoDay));
    AscendingKeys(rows);
  }

  const TopRoutes := 5

  /** `revenueByRoute`: at most five routes, by non-increasing revenue, each with its full
      revenue; all routes when there are fewer than five, and no route left out earns more
      than one shown. */
  method RevenueByRoute(bookings: seq<ClientBooking>) returns (rows: seq<Entry>)
    ensures |rows| <= TopRoutes
    ensures forall i, j :: 0 <= i < j < |rows| ==> rows[i].total >= rows[j].total
    ensures DistinctKeys(rows) && EntryKeys(rows) <= KeysOf(bookings, RouteKey)
    ensures |rows| < TopRoutes ==> EntryKeys(rows) == KeysOf(bookings, RouteKey)
    ensures FullTotals(rows, bookings, RouteKey)
    ensures forall k, i :: k in KeysOf(bookings, RouteKey) && k !in EntryKeys(rows) && 0 <= i < |rows|
              ==> Revenue(WithKey(bookings, RouteKey, k)) <= rows[i].total
  {
    var entries := RevenueBy(bookings, RouteKey);
    var sorted := SortBy(ByTotalDescending, entries);
    SortKeepsTotals(ByTotalDescending, entries, bookings, RouteKey);
    rows := Seqs.Take(sorted, TopRoutes);
    PrefixKeys(sorted, |rows|);
    assert FullTotals(rows, bookings, RouteKey);
    TopPrefix(sorted, |rows|, bookings, RouteKey);
  }

  /** The first `n` entries of a list sorted by descending total: their totals do not
      increase, and no key behind them has a larger total than any of them. */
  lemma TopPrefix(sorted: seq<Entry>, n: nat, bs: seq<ClientBooking>, key: ClientBooking -> string)
    requires n <= |sorted| && SortedBy(ByTotalDescending, sorted) && FullTotals(sorted, bs, key)
    ensures forall i, j :: 0 <= i < j < n ==> sorted[..n][i].total >= sorted[..n][j].total
    ensures forall k, i :: k in EntryKeys(sorted) && k !in EntryKeys(sorted[..n]) && 0 <= i < n
              ==> Revenue(WithKey(bs, key, k)) <= sorted[..n][i].total
  {
    forall i, j | 0 <= i < j < n ensures sorted[..n][i].total >= sorted[..n][j].total {
      assert !Precedes(ByTotalDescending, sorted[j], sorted[i]);
    }
    forall k, i | k in EntryKeys(sorted) && k !in EntryKeys(sorted[..n]) && 0 <= i < n
      ensures Revenue(WithKey(bs, key, k)) <= sorted[..n][i].total
    {
      var p :| 0 <= p < |sorted| && sorted[p].key == k;
      assert !Precedes(ByTotalDescending, sorted[p], sorted[i]);
    }
  }

  /** A prefix of a list with distinct keys has distinct keys, all of them from the list. */
  lemma PrefixKeys(s: seq<Entry>, n: nat)
    requires n <= |s| && DistinctKeys(s)
    ensures DistinctKeys(s[..n]) && EntryKeys(s[..n]) <= EntryKeys(s)
    ensures n == |s| ==> EntryKeys(s[..n]) == EntryKeys(s)
  {
    assert forall i :: 0 <= i < n ==> s[..n][i] == s[i];
    if n == |s| {
      assert s[..n] == s;
    }
  }
}
