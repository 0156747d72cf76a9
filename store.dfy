/** The seat bookkeeping of `POST /api/bookings` and `DELETE /api/bookings/:id`,
    over an in-memory store of events and bookings. */
module BookingStore {
  import opened Records

  /** Outcome of `POST /api/bookings`: 200 with the updated event, 400
      "Name, country code & phone required", 404 "Event not found", 400 "Full". */
  datatype CreateOutcome = Created(event: Event) | MissingAttendee | EventNotFound | Full

  /** Outcome of `DELETE /api/bookings/:id`: 200 "Booking deleted successfully"
      or 404 "Booking not found". */
  datatype DeleteOutcome = Deleted | BookingNotFound

  /** The event with one more seat taken (`(ev.booked || 0) + 1`). */
  function Reserved(ev: Event): (r: Event)
    ensures r.booked == ev.booked + 1
    ensures r.(booked := ev.booked) == ev
  {
    ev.(booked := ev.booked + 1)
  }

  /** The event with one seat given back, never below zero (`Math.max(0, booked - 1)`). */
  function Released(ev: Event): (r: Event)
    ensures r.booked >= 0
    ensures ev.booked >= 1 ==> r.booked == ev.booked - 1
    ensures ev.booked <= 1 ==> r.booked == 0
    ensures r.(booked := ev.booked) == ev
  {
    ev.(booked := if ev.booked - 1 > 0 then ev.booked - 1 else 0)
  }

  /** The events after a cancellation of a booking of `id`: its counter is
      released if the event still exists, and nothing happens otherwise. */
  function ReleaseIn(events: map<EventId, Event>, id: EventId): (r: map<EventId, Event>)
    ensures r.Keys == events.Keys
    ensures forall e :: e in events && e != id ==> r[e] == events[e]
    ensures id in events ==> r[id] == Released(events[id])
  {
    if id in events then events[id := Released(events[id])] else events
  }

  /** Giving a seat back keeps every counter within its capacity. */
  lemma ReleaseKeepsCapacity(events: map<EventId, Event>, id: EventId)
    requires WithinCapacity(events)
    ensures WithinCapacity(ReleaseIn(events, id))
  {
  }

  /** Giving back a held seat and taking it again restores the events. */
  lemma ReleaseThenReserve(events: map<EventId, Event>, e: EventId)
    requires e in events && events[e].booked >= 1
    ensures var mid := ReleaseIn(events, e); mid[e := Reserved(mid[e])] == events
  {
    var mid := ReleaseIn(events, e);
    assert Reserved(mid[e]) == events[e];
    var after := mid[e := Reserved(mid[e])];
    assert forall k :: k in after <==> k in events;
    assert forall k :: k in after ==> after[k] == events[k];
  }

  /** A seat taken for a new booking `b` keeps every counter equal to the live count. */
  lemma BookingKeepsCountersInStep(events: map<EventId, Event>, bs: seq<Booking>, b: Booking)
    requires CountersMatch(events, bs)
    requires b.event in events
    ensures CountersMatch(events[b.event := Reserved(events[b.event])], bs + [b])
  {
    forall id | id in events
      ensures LiveCount(bs + [b], id) == LiveCount(bs, id) + (if b.event == id then 1 else 0)
    {
      BookingsForConcat(bs, [b], id);
      assert [b][1..] == [];
    }
  }

  /** Cancelling booking `i` keeps every counter equal to the live count: the
      cancelled booking's own seat is counted, so the floor at zero never bites. */
  lemma CancellationKeepsCountersInStep(events: map<EventId, Event>, bs: seq<Booking>, i: nat)
    requires CountersMatch(events, bs)
    requires i < |bs|
    ensures CountersMatch(ReleaseIn(events, bs[i].event), RemoveAt(bs, i))
  {
    forall id | id in events
      ensures LiveCount(RemoveAt(bs, i), id) == LiveCount(bs, id) - (if bs[i].event == id then 1 else 0)
    {
      LiveCountAfterRemove(bs, i, id);
    }
    BookingIsCounted(bs, i);
  }

  /** The booking collection and the events it references, as one sequential store. */
  class Store {
    var events: map<EventId, Event>
    var bookings: seq<Booking>
    var nextId: BookingId   // the id the next booking gets (ObjectIds are fresh)

    ghost predicate Valid()
      reads this
    {
      IdsBelow(bookings, nextId) && DistinctIds(bookings)
    }

    /** A store holding `events` and no bookings yet. */
    constructor (events: map<EventId, Event>)
      ensures Valid()
      ensures this.events == events && bookings == []
    {
      this.events := events;
      bookings := [];
      nextId := 0;
    }

    /** `POST /api/bookings`: the attendee fields are checked before the event is
        looked up; a full event is refused; otherwise the booking is created and
        then the event's counter is incremented. */
    method CreateBooking(eventId: EventId, name: Option<string>, countryCode: Option<string>,
                         phone: Option<string>, now: int) returns (r: CreateOutcome)
      requires Valid()
      modifies this
      ensures Valid()
      ensures r == MissingAttendee <==> Falsy(name) || Falsy(countryCode) || Falsy(phone)
      ensures r == EventNotFound <==>
        !Falsy(name) && !Falsy(countryCode) && !Falsy(phone) && eventId !in old(events)
      ensures r == Full <==>
        && !Falsy(name) && !Falsy(countryCode) && !Falsy(phone) && eventId in old(events)
        && old(events)[eventId].booked >= old(events)[eventId].maxSeats
      ensures !r.Created? ==> unchanged(this)
      ensures r.Created? ==>
        && eventId in old(events)
        && old(events)[eventId].booked < old(events)[eventId].maxSeats
        && r.event == Reserved(old(events)[eventId])
        && events == old(events)[eventId := r.event]
        && bookings == old(bookings) + [Booking(old(nextId), eventId, name.value, countryCode.value, phone.value, now)]
      ensures old(WithinCapacity(events)) ==> WithinCapacity(events)
      ensures old(CountersMatch(events, bookings)) ==> CountersMatch(events, bookings)
    {
      if Falsy(name) || Falsy(countryCode) || Falsy(phone) {
        return MissingAttendee;
      }
      if eventId !in events {
        return EventNotFound;
      }
      var ev := events[eventId];
      if ev.booked >= ev.maxSeats {
        return Full;
      }
      var b := Booking(nextId, eventId, name.value, countryCode.value, phone.value, now);
      if CountersMatch(events, bookings) {
        BookingKeepsCountersInStep(events, bookings, b);
      }
      bookings := bookings + [b];
      nextId := nextId + 1;
      ev := ev.(booked := ev.booked + 1);
      events := events[eventId := ev];
      r := Created(ev);
    }

    /** `DELETE /api/bookings/:id`: an unknown booking is refused; otherwise its
        event's counter is released (a missing event is tolerated) and the
        booking is removed. */
    method DeleteBooking(id: BookingId) returns (r: DeleteOutcome)
      requires Valid()
      modifies this
      ensures Valid()
      ensures r == BookingNotFound <==> forall j :: 0 <= j < |old(bookings)| ==> old(bookings)[j].id != id
      ensures r == BookingNotFound ==> unchanged(this)
      ensures r == Deleted ==>
        && var i := IndexOf(old(bookings), id).value;
        && bookings == RemoveAt(old(bookings), i)
        && events == ReleaseIn(old(events), old(bookings)[i].event)
        && nextId == old(nextId)
      ensures forall j :: 0 <= j < |bookings| ==> bookings[j].id != id
      ensures old(WithinCapacity(events)) ==> WithinCapacity(events)
      ensures old(CountersMatch(events, bookings)) ==> CountersMatch(events, bookings)
    {
      var found := IndexOf(bookings, id);
      if found.None? {
        return BookingNotFound;
      }
      var i := found.value;
      var booking := bookings[i];
      RemoveAtKeepsIds(bookings, i, nextId);
      if WithinCapacity(events) {
        ReleaseKeepsCapacity(events, booking.event);
      }
      if CountersMatch(events, bookings) {
        CancellationKeepsCountersInStep(events, bookings, i);
      }
      ghost var before := events;
      if booking.event in events {
        var ev := events[booking.event];
        events := events[booking.event := Released(ev)];
      }
      assert events == ReleaseIn(before, booking.event);
      bookings := RemoveAt(bookings, i);
      r := Deleted;
    }
  }

  /** Cancelling a booking of an existing event and then booking that event
      again always succeeds, and leaves every counter as it was: a
      cancellation frees exactly the seat it held. */
  method CancellationFreesSeat(store: Store, id: BookingId, name: string, countryCode: string,
                               phone: string, now: int)
      returns (cancelled: DeleteOutcome, rebooked: CreateOutcome)
    requires store.Valid() && WithinCapacity(store.events) && CountersMatch(store.events, store.bookings)
    requires IndexOf(store.bookings, id).Some?
    requires store.bookings[IndexOf(store.bookings, id).value].event in store.events
    requires name != "" && countryCode != "" && phone != ""
    modifies store
    ensures cancelled == Deleted && rebooked.Created?
    ensures store.events == old(store.events)
    ensures |store.bookings| == |old(store.bookings)|
  {
    var e := store.bookings[IndexOf(store.bookings, id).value].event;
    ghost var before := store.events;
    ghost var held := before[e];
    BookingIsCounted(store.bookings, IndexOf(store.bookings, id).value);
    assert 1 <= held.booked <= held.maxSeats;
    cancelled := store.DeleteBooking(id);
    ghost var between := store.events;
    assert between == before[e := Released(held)];
    rebooked := store.CreateBooking(e, Some(name), Some(countryCode), Some(phone), now);
    assert store.events == between[e := Reserved(between[e])];
    ReleaseThenReserve(before, e);
  }

  /** The walk-through of an event with two seats: two bookings succeed, the
      third is refused as full, a cancellation frees one seat and the next
      booking gets it. */
  method CapacityScenario(e: EventId, ev: Event)
    requires ev.maxSeats == 2 && ev.booked == 0
  {
    var store := new Store(map[e := ev]);
    assert CountersMatch(store.events, store.bookings);
    var a := store.CreateBooking(e, Some("A"), Some("+961"), Some("111"), 1);
    assert a.Created? && store.events[e].booked == 1;
    var b := store.CreateBooking(e, Some("B"), Some("+961"), Some("222"), 2);
    assert b.Created? && store.events[e].booked == 2;
    var c := store.CreateBooking(e, Some("C"), Some("+961"), Some("333"), 3);
    assert c == Full && store.events[e].booked == 2;
    var first := store.bookings[0].id;
    assert IndexOf(store.bookings, first) == Some(0);
    var cancelled, d := CancellationFreesSeat(store, first, "D", "+961", "444", 4);
    assert cancelled == Deleted && d.Created? && store.events[e].booked == 2;
  }
}
