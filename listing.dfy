/** `GET /api/events`: every selected event together with its attendees, and a
    `booked` figure recounted from the live bookings instead of read from the
    stored counter. */
module Listing {
  import opened Records

  /** A booking as the listing fetches it: `.select('event name countryCode phone')`
      (the id comes along, the creation time does not). */
  datatype Attendee = Attendee(id: BookingId, event: EventId, name: string, countryCode: string, phone: string)

  /** One entry of the response: the event's fields, with `booked` replaced by
      the recount, and its `attendees`. */
  datatype EventListing = EventListing(event: Event, attendees: seq<Attendee>)

  /** The fields `.select` keeps of one booking. */
  function Select(b: Booking): Attendee
  {
    Attendee(b.id, b.event, b.name, b.countryCode, b.phone)
  }

  function SelectAll(bs: seq<Booking>): seq<Attendee>
  {
    seq(|bs|, i requires 0 <= i < |bs| => Select(bs[i]))
  }

  /** `Booking.find({ event: { $in: ids } })`: the bookings of the listed events, in store order. */
  function InEvents(bs: seq<Booking>, ids: set<EventId>): (r: seq<Booking>)
    ensures forall b :: b in r ==> b in bs && b.event in ids
  {
    if bs == [] then []
    else (if bs[0].event in ids then [bs[0]] else []) + InEvents(bs[1..], ids)
  }

  /** `acc[key] || []` */
  function Lookup(acc: map<EventId, seq<Attendee>>, key: EventId): seq<Attendee>
  {
    if key in acc then acc[key] else []
  }

  /** The `reduce` that groups the fetched bookings by event: left to right, each
      booking is pushed onto its event's list. */
  function GroupByEvent(fetched: seq<Attendee>): (r: map<EventId, seq<Attendee>>)
    ensures forall k :: 0 <= k < |fetched| ==> fetched[k].event in r
    ensures forall e, k :: e in r && 0 <= k < |r[e]| ==> r[e][k].event == e
  {
    if fetched == [] then map[]
    else
      var acc := GroupByEvent(fetched[..|fetched| - 1]);
      var a := fetched[|fetched| - 1];
      acc[a.event := Lookup(acc, a.event) + [a]]
  }

  /** Fetching one more booking pushes it onto its own event's group only. */
  lemma GroupByEventSnoc(init: seq<Booking>, last: Booking)
    ensures var acc := GroupByEvent(SelectAll(init));
      GroupByEvent(SelectAll(init + [last])) == acc[last.event := Lookup(acc, last.event) + [Select(last)]]
  {
    var fetched := SelectAll(init + [last]);
    assert fetched[..|fetched| - 1] == SelectAll(init);
    assert fetched[|fetched| - 1] == Select(last);
  }

  /** Projecting a sequence with one more booking projects that booking last. */
  lemma SelectAllSnoc(bs: seq<Booking>, last: Booking)
    ensures SelectAll(bs + [last]) == SelectAll(bs) + [Select(last)]
  {
  }

  /** One more fetched booking keeps the group of `e` equal to the selected bookings of `e`. */
  lemma GroupStep(init: seq<Booking>, last: Booking, e: EventId)
    requires Lookup(GroupByEvent(SelectAll(init)), e) == SelectAll(BookingsFor(init, e))
    ensures Lookup(GroupByEvent(SelectAll(init + [last])), e) == SelectAll(BookingsFor(init + [last], e))
  {
    var acc := GroupByEvent(SelectAll(init));
    GroupByEventSnoc(init, last);
    assert Lookup(GroupByEvent(SelectAll(init + [last])), e)
        == if last.event == e then Lookup(acc, e) + [Select(last)] else Lookup(acc, e);
    BookingsForConcat(init, [last], e);
    assert [last][1..] == [];
    assert BookingsFor([last], e) == if last.event == e then [last] else [];
    SelectAllSnoc(BookingsFor(init, e), last);
  }

  /** The group of event `e` is exactly the selected bookings of `e`, in store order. */
  lemma {:induction false} GroupIsBookingsFor(bs: seq<Booking>, e: EventId)
    ensures Lookup(GroupByEvent(SelectAll(bs)), e) == SelectAll(BookingsFor(bs, e))
  {
    if bs != [] {
      var init, last := bs[..|bs| - 1], bs[|bs| - 1];
      assert bs == init + [last];
      GroupIsBookingsFor(init, e);
      GroupStep(init, last, e);
    }
  }

  /** Fetching only the bookings of the listed events loses none of a listed event's. */
  lemma {:induction false} InEventsKeepsListed(bs: seq<Booking>, ids: set<EventId>, e: EventId)
    requires e in ids
    ensures BookingsFor(InEvents(bs, ids), e) == BookingsFor(bs, e)
  {
    if bs != [] {
      InEventsKeepsListed(bs[1..], ids, e);
      BookingsForConcat(if bs[0].event in ids then [bs[0]] else [], InEvents(bs[1..], ids), e);
      if bs[0].event in ids {
        assert [bs[0]][1..] == [];
      }
    }
  }

  /** Every listed event's group, built from the `$in` query, is its selected live bookings. */
  lemma GroupsOfListed(bs: seq<Booking>, ids: set<EventId>)
    ensures forall e :: e in ids ==>
      Lookup(GroupByEvent(SelectAll(InEvents(bs, ids))), e) == SelectAll(BookingsFor(bs, e))
  {
    forall e | e in ids
      ensures Lookup(GroupByEvent(SelectAll(InEvents(bs, ids))), e) == SelectAll(BookingsFor(bs, e))
    {
      GroupIsBookingsFor(InEvents(bs, ids), e);
      InEventsKeepsListed(bs, ids, e);
    }
  }

  /** `req.query.instructor ? { instructor } : {}` */
  predicate Matches(ev: Event, instructor: Option<InstructorId>)
  {
    instructor.None? || ev.instructor == instructor.value
  }

  /** The listing, keyed by event id. */
  function ListEvents(events: map<EventId, Event>, bookings: seq<Booking>,
                      instructor: Option<InstructorId>): (r: map<EventId, EventListing>)
    ensures r.Keys == set id | id in events && Matches(events[id], instructor)
    ensures forall id :: id in r ==>
      && r[id].attendees == SelectAll(BookingsFor(bookings, id))
      && r[id].event == events[id].(booked := LiveCount(bookings, id))
  {
    var ids := set id | id in events && Matches(events[id], instructor);
    var grouped := GroupByEvent(SelectAll(InEvents(bookings, ids)));
    GroupsOfListed(bookings, ids);
    map id | id in ids :: EventListing(events[id].(booked := |Lookup(grouped, id)|), Lookup(grouped, id))
  }

  /** The listing does not depend on any stored counter: overwriting one leaves it as it was. */
  lemma ListingIgnoresStoredCounter(events: map<EventId, Event>, bookings: seq<Booking>,
                                    instructor: Option<InstructorId>, id: EventId, k: int)
    requires id in events
    ensures ListEvents(events[id := events[id].(booked := k)], bookings, instructor)
         == ListEvents(events, bookings, instructor)
  {
    var changed := events[id := events[id].(booked := k)];
    var a := ListEvents(changed, bookings, instructor);
    var b := ListEvents(events, bookings, instructor);
    forall e | e in changed ensures Matches(changed[e], instructor) == Matches(events[e], instructor) {
    }
    assert a.Keys == b.Keys;
    forall e | e in a ensures a[e] == b[e] {
      assert a[e].event == changed[e].(booked := LiveCount(bookings, e));
    }
  }

  /** When every stored counter equals its live count, the listing reports the
      stored events unchanged. */
  lemma ListingAgreesWithMatchingCounters(events: map<EventId, Event>, bookings: seq<Booking>,
                                          instructor: Option<InstructorId>)
    requires CountersMatch(events, bookings)
    ensures forall id :: id in ListEvents(events, bookings, instructor) ==>
      ListEvents(events, bookings, instructor)[id].event == events[id]
  {
  }
}
