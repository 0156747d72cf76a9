/** Record shapes of the booking service (the Mongoose schemas under models/)
    and the relation between events and the bookings that reference them. */
module Records {

  datatype Option<+T> = None | Some(value: T)

  // Document identifiers (MongoDB ObjectIds); only their equality matters.
  type EventId = nat
  type BookingId = nat
  type InstructorId = nat

  /** An event document. `booked` is the stored seat counter; a new document
      gets 0 for it. `date` stands for the stored Date as a timestamp. */
  datatype Event = Event(
    title: string,
    date: int,
    time: string,
    duration: int,
    instructor: InstructorId,
    maxSeats: int,
    booked: int)

  /** A booking document: the attendee's details and the event it holds a seat of. */
  datatype Booking = Booking(
    id: BookingId,
    event: EventId,
    name: string,
    countryCode: string,
    phone: string,
    createdAt: int)

  /** JavaScript falsiness of an optional string field of a request body:
      missing, null or the empty string. */
  predicate Falsy(field: Option<string>)
  {
    field.None? || field.value == ""
  }

  /** The live bookings of event `e`, in store order. */
  function BookingsFor(bs: seq<Booking>, e: EventId): (r: seq<Booking>)
    ensures |r| <= |bs|
    ensures forall k :: 0 <= k < |r| ==> r[k].event == e
  {
    if bs == [] then []
    else (if bs[0].event == e then [bs[0]] else []) + BookingsFor(bs[1..], e)
  }

  /** Every booking is among the bookings of its own event. */
  lemma {:induction false} BookingIsCounted(bs: seq<Booking>, i: nat)
    requires i < |bs|
    ensures bs[i] in BookingsFor(bs, bs[i].event)
  {
    if i > 0 {
      BookingIsCounted(bs[1..], i - 1);
      assert bs[1..][i - 1] == bs[i];
    }
  }

  /** The bookings of `e` are exactly the bookings in `bs` that reference `e`. */
  lemma {:induction false} BookingsForMembers(bs: seq<Booking>, e: EventId)
    ensures forall b :: b in BookingsFor(bs, e) <==> b in bs && b.event == e
  {
    if bs != [] {
      BookingsForMembers(bs[1..], e);
      assert bs == [bs[0]] + bs[1..];
    }
  }

  /** The number of seats of event `e` held by live bookings. */
  function LiveCount(bs: seq<Booking>, e: EventId): nat
  {
    |BookingsFor(bs, e)|
  }

  /** Selecting the bookings of an event commutes with concatenation. */
  lemma {:induction false} BookingsForConcat(a: seq<Booking>, b: seq<Booking>, e: EventId)
    ensures BookingsFor(a + b, e) == BookingsFor(a, e) + BookingsFor(b, e)
  {
    if a == [] {
      assert a + b == b;
    } else {
      assert (a + b)[0] == a[0];
      assert (a + b)[1..] == a[1..] + b;
      BookingsForConcat(a[1..], b, e);
    }
  }

  /** `bs` with its `i`-th booking taken out, the others in their order. */
  function RemoveAt(bs: seq<Booking>, i: nat): (r: seq<Booking>)
    requires i < |bs|
    ensures |r| == |bs| - 1
    ensures forall k :: 0 <= k < i ==> r[k] == bs[k]
    ensures forall k :: i <= k < |r| ==> r[k] == bs[k + 1]
  {
    bs[..i] + bs[i + 1..]
  }

  /** Taking out booking `i` keeps the ids distinct and below `bound`, and leaves
      no booking with its id. */
  lemma RemoveAtKeepsIds(bs: seq<Booking>, i: nat, bound: nat)
    requires i < |bs| && DistinctIds(bs) && IdsBelow(bs, bound)
    ensures DistinctIds(RemoveAt(bs, i)) && IdsBelow(RemoveAt(bs, i), bound)
    ensures forall k :: 0 <= k < |RemoveAt(bs, i)| ==> RemoveAt(bs, i)[k].id != bs[i].id
  {
    var r := RemoveAt(bs, i);
    forall k | 0 <= k < |r| ensures r[k].id != bs[i].id && r[k].id < bound {
      if k < i { assert r[k] == bs[k]; } else { assert r[k] == bs[k + 1]; }
    }
    forall k, l | 0 <= k < l < |r| ensures r[k].id != r[l].id {
      var k' := if k < i then k else k + 1;
      var l' := if l < i then l else l + 1;
      assert r[k] == bs[k'] && r[l] == bs[l'] && k' < l';
    }
  }

  /** Taking out booking `i` frees exactly one seat of its own event and none of any other. */
  lemma LiveCountAfterRemove(bs: seq<Booking>, i: nat, e: EventId)
    requires i < |bs|
    ensures LiveCount(RemoveAt(bs, i), e) == LiveCount(bs, e) - (if bs[i].event == e then 1 else 0)
  {
    assert bs == bs[..i] + [bs[i]] + bs[i + 1..];
    BookingsForConcat(bs[..i] + [bs[i]], bs[i + 1..], e);
    BookingsForConcat(bs[..i], [bs[i]], e);
    BookingsForConcat(bs[..i], bs[i + 1..], e);
    assert [bs[i]][1..] == [];
  }

  /** The position of the first booking with id `id`, if any (what `findById` finds). */
  function IndexOf(bs: seq<Booking>, id: BookingId): (r: Option<nat>)
    ensures r.Some? ==> r.value < |bs| && bs[r.value].id == id
    ensures r.Some? ==> forall j :: 0 <= j < r.value ==> bs[j].id != id
    ensures r.None? <==> forall j :: 0 <= j < |bs| ==> bs[j].id != id
  {
    if bs == [] then None
    else if bs[0].id == id then Some(0)
    else match IndexOf(bs[1..], id)
      case None => None
      case Some(k) => Some(k + 1)
  }

  /** No two bookings share an id. */
  predicate DistinctIds(bs: seq<Booking>)
  {
    forall i, j :: 0 <= i < j < |bs| ==> bs[i].id != bs[j].id
  }

  /** Every booking id is below `bound`. */
  predicate IdsBelow(bs: seq<Booking>, bound: nat)
  {
    forall i :: 0 <= i < |bs| ==> bs[i].id < bound
  }

  /** Every event's stored counter lies between 0 and its capacity. */
  predicate WithinCapacity(events: map<EventId, Event>)
  {
    forall id :: id in events ==> 0 <= events[id].booked <= events[id].maxSeats
  }

  /** Every event's stored counter equals the number of live bookings that reference it. */
  predicate CountersMatch(events: map<EventId, Event>, bs: seq<Booking>)
  {
    forall id :: id in events ==> events[id].booked == LiveCount(bs, id)
  }
}
