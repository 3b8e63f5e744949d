/** The booking list of the client (client/src/features/booking/BookingPage.jsx): a booking
    as the client receives it, the parse of its pickup instant, its tab (present, planned
    or past) and the grouping of a list into the three tabs. The admin console
    (client/src/features/admin/AdminPage.jsx:27-49 and 191-197) carries an identical copy
    of these three functions and uses this same model. Parsing a date string (`new Date`)
    and the local calendar day of an instant (`toDateString`) are the parameters of a
    `Clock`, with the current instant. */
module ClientBookings {
  import opened Wrappers
  import Seqs

  /** A booking as returned by the API. An absent string field is `""` (both are falsy);
      an absent status or fare amount is `None`. */
  datatype ClientBooking = ClientBooking(
    id: string,
    status: Option<string>,
    pickupAddress: string,
    dropoffAddress: string,
    pickupDate: string,
    pickupTime: string,
    route: string,
    cabType: string,
    carModel: string,
    totalAmount: Option<int>,
    createdAt: string)

  /** `parse(s)` is the instant in milliseconds of `new Date(s)`, `None` when invalid;
      `dayOf(t)` identifies the local calendar day of instant `t`; `now` is `new Date()`. */
  datatype Clock = Clock(parse: string -> Option<int>, dayOf: int -> int, now: int)

  datatype Tab = Present | Planned | Past

  const DefaultPickupTime := "00:00"

  function PickupTimeOr(b: ClientBooking): (t: string)
    ensures b.pickupTime == "" ==> t == DefaultPickupTime
    ensures b.pickupTime != "" ==> t == b.pickupTime
  {
    if b.pickupTime == "" then DefaultPickupTime else b.pickupTime
  }

  /** `parsePickupDateTime`: the date with its time (default `00:00`), falling back to the
      date alone. */
  function ParsePickupDateTime(b: ClientBooking, parse: string -> Option<int>): (r: Option<int>)
    ensures r.None? <==> b.pickupDate == ""
                         || (parse(b.pickupDate + "T" + PickupTimeOr(b)).None? && parse(b.pickupDate).None?)
    ensures r.Some? && parse(b.pickupDate + "T" + PickupTimeOr(b)).Some? ==> r == parse(b.pickupDate + "T" + PickupTimeOr(b))
    ensures r.Some? && parse(b.pickupDate + "T" + PickupTimeOr(b)).None? ==> r == parse(b.pickupDate)
  {
    if b.pickupDate == "" then None
    else
      var combined := parse(b.pickupDate + "T" + PickupTimeOr(b));
      if combined.None? then parse(b.pickupDate) else combined
  }

  predicate IsTerminal(b: ClientBooking)
  {
    b.status == Some("COMPLETED") || b.status == Some("CANCELLED")
  }

  /** `classifyBooking`. */
  function ClassifyBooking(b: ClientBooking, clk: Clock): Tab
  {
    if IsTerminal(b) then Past
    else
      var p := ParsePickupDateTime(b, clk.parse);
      if p.None? then Planned
      else if clk.dayOf(p.value) == clk.dayOf(clk.now) then Present
      else if p.value > clk.now then Planned
      else Past
  }

  /** What each tab means: completed or cancelled bookings are past whatever their date;
      otherwise a booking is present on its pickup's calendar day, past once that day and
      instant are behind, and planned when its pickup is later or does not parse. */
  lemma TabMeaning(b: ClientBooking, clk: Clock)
    ensures var p := ParsePickupDateTime(b, clk.parse);
      && (ClassifyBooking(b, clk) == Present <==> !IsTerminal(b) && p.Some? && clk.dayOf(p.value) == clk.dayOf(clk.now))
      && (ClassifyBooking(b, clk) == Past <==>
            IsTerminal(b) || (p.Some? && clk.dayOf(p.value) != clk.dayOf(clk.now) && p.value <= clk.now))
      && (ClassifyBooking(b, clk) == Planned <==>
            !IsTerminal(b) && (p.None? || (clk.dayOf(p.value) != clk.dayOf(clk.now) && p.value > clk.now)))
  {
  }

  /** A booking without a pickup date is planned unless it is finished. */
  lemma NoDateIsPlanned(b: ClientBooking, clk: Clock)
    requires b.pickupDate == "" && !IsTerminal(b)
    ensures ClassifyBooking(b, clk) == Planned
  {
  }

  /** The bookings of `bs` in tab `t`, in list order: what `grouped[t]` holds. */
  function InTab(bs: seq<ClientBooking>, t: Tab, clk: Clock): (r: seq<ClientBooking>)
    ensures |r| <= |bs|
  {
    if bs == [] then []
    else
      var last := bs[|bs| - 1];
      InTab(bs[..|bs| - 1], t, clk) + (if ClassifyBooking(last, clk) == t then [last] else [])
  }

  /** `grouped`: each booking is pushed onto the list of its tab. */
  method Grouped(bookings: seq<ClientBooking>, clk: Clock)
    returns (present: seq<ClientBooking>, planned: seq<ClientBooking>, past: seq<ClientBooking>)
    ensures present == InTab(bookings, Present, clk)
    ensures planned == InTab(bookings, Planned, clk)
    ensures past == InTab(bookings, Past, clk)
    ensures |present| + |planned| + |past| == |bookings|
    ensures multiset(present) + multiset(planned) + multiset(past) == multiset(bookings)
  {
    present, planned, past := [], [], [];
    var i := 0;
    while i < |bookings|
      invariant 0 <= i <= |bookings|
      invariant present == InTab(bookings[..i], Present, clk)
      invariant planned == InTab(bookings[..i], Planned, clk)
      invariant past == InTab(bookings[..i], Past, clk)
    {
      var booking := bookings[i];
      assert bookings[..i + 1][..i] == bookings[..i];
      var tab := ClassifyBooking(booking, clk);
      if tab == Present {
        present := present + [booking];
      } else if tab == Planned {
        planned := planned + [booking];
      } else {
        past := past + [booking];
      }
      i := i + 1;
    }
    assert bookings[..i] == bookings;
    TabsCount(bookings, clk);
    TabsPartition(bookings, clk);
  }

  /** The three tabs together are as long as the list. */
  lemma {:induction false} TabsCount(bs: seq<ClientBooking>, clk: Clock)
    ensures |InTab(bs, Present, clk)| + |InTab(bs, Planned, clk)| + |InTab(bs, Past, clk)| == |bs|
  {
    if bs != [] {
      TabsCount(bs[..|bs| - 1], clk);
    }
  }

  /** The three tabs partition the list: together they hold every booking exactly once. */
  lemma {:induction false} TabsPartition(bs: seq<ClientBooking>, clk: Clock)
    ensures multiset(InTab(bs, Present, clk)) + multiset(InTab(bs, Planned, clk)) + multiset(InTab(bs, Past, clk))
            == multiset(bs)
  {
    if bs != [] {
      var init := bs[..|bs| - 1];
      var last := bs[|bs| - 1];
      TabsPartition(init, clk);
      Seqs.InitLast(bs);
      var t := ClassifyBooking(last, clk);
      var present, planned, past := InTab(init, Present, clk), InTab(init, Planned, clk), InTab(init, Past, clk);
      if t == Present {
        assert InTab(bs, Present, clk) == present + [last];
        assert InTab(bs, Planned, clk) == planned && InTab(bs, Past, clk) == past;
        assert multiset(present + [last]) == multiset(present) + multiset{last};
      } else if t == Planned {
        assert InTab(bs, Planned, clk) == planned + [last];
        assert InTab(bs, Present, clk) == present && InTab(bs, Past, clk) == past;
        assert multiset(planned + [last]) == multiset(planned) + multiset{last};
      } else {
        assert InTab(bs, Past, clk) == past + [last];
        assert InTab(bs, Present, clk) == present && InTab(bs, Planned, clk) == planned;
        assert multiset(past + [last]) == multiset(past) + multiset{last};
      }
    }
  }

  /** Every booking in a tab belongs there, and every booking is in its own tab. */
  lemma {:induction false} TabMembers(bs: seq<ClientBooking>, t: Tab, clk: Clock)
    ensures forall x :: x in InTab(bs, t, clk) ==> x in bs && ClassifyBooking(x, clk) == t
    ensures forall i :: 0 <= i < |bs| && ClassifyBooking(bs[i], clk) == t ==> bs[i] in InTab(bs, t, clk)
  {
    if bs != [] {
      var init := bs[..|bs| - 1];
      TabMembers(init, t, clk);
      forall i | 0 <= i < |bs| && ClassifyBooking(bs[i], clk) == t
        ensures bs[i] in InTab(bs, t, clk)
      {
        if i < |bs| - 1 {
          assert bs[i] == init[i];
        }
      }
    }
  }

  /** Each tab keeps the list order: it is a subsequence of the list. */
  lemma {:induction false} TabPreservesOrder(bs: seq<ClientBooking>, t: Tab, clk: Clock)
    ensures Seqs.IsSubsequence(InTab(bs, t, clk), bs)
  {
    if bs != [] {
      var init := bs[..|bs| - 1];
      var last := bs[|bs| - 1];
      TabPreservesOrder(init, t, clk);
      assert bs == init + [last];
      if ClassifyBooking(last, clk) == t {
        Seqs.SubsequenceAppend(InTab(init, t, clk), init, last);
      } else {
        Seqs.SubsequenceExtend(InTab(init, t, clk), init, last);
        assert InTab(bs, t, clk) == InTab(init, t, clk);
      }
    }
  }
}
