# Seat bookings of the event-booking server, in Dafny

This project models the booking core of an Express/MongoDB server. Organisers publish
events that have a capacity (`maxSeats`) and a stored seat counter (`booked`). Attendees
reserve seats by creating bookings and free them by deleting bookings. The model covers:

- the record shapes of `Event` and `Booking` (`records.dfy`, module `Records`);
- `POST /api/bookings` and `DELETE /api/bookings/:id`, as methods of a class `Store`
  holding a map of events, a sequence of bookings and the next booking id
  (`store.dfy`, module `BookingStore`);
- the `GET /api/events` listing. This is a pure function over the events and the
  booking sequence. It groups the fetched bookings by event as the source's `reduce`
  does, and it recounts `booked` from the live bookings (`listing.dfy`, module `Listing`);
- `validateEventData`, the ordered chain of checks in front of `POST /api/events`,
  including JavaScript's `trim` and the `HH:MM` pattern (`validation.dfy`, module
  `EventValidation`);
- the CORS origin decision (`cors.dfy`, module `Cors`).

Two store invariants are stated as predicates over events and bookings:

- `WithinCapacity`: every counter satisfies `0 <= booked <= maxSeats`.
- `CountersMatch`: every counter equals the number of live bookings that reference its event.

Both store operations preserve both invariants. Every failure path leaves the store
unchanged. The listing's `booked` is the live count, whatever the stored counters say.

`BookingStore.CapacityScenario` is a client of the store's contracts. It walks through
an event with two seats: two bookings succeed, the third is refused as `Full`, a
cancellation frees one seat, and the next booking gets that seat.

The booking handler reads the event's counter and compares it to `maxSeats`, then stores
the booking, then saves the incremented counter, as separate steps. A failure while
storing the booking happens before any seat is taken. If the booking is stored and saving
the counter then fails, nothing rolls the booking back, and the counter stays one below
the live count. The model runs each handler as one sequential step. The cancellation
handler releases the seat first and then deletes the booking; the model keeps that
order. Run sequentially, releasing first and deleting first end in the same state.

## Model

| member | source | states |
|---|---|---|
| Records.Falsy | server.js:221 | a plain definition of JavaScript's `!field` on an optional string: the field is missing or the empty string |
| Records.BookingsFor | server.js:145-149 | the reference definition of an event's live bookings, in store order, against which the grouping (server.js:145-149) and the recount (server.js:155) are proved: every booking it takes references that event, and there are no more of them than bookings in the store |
| Records.BookingsForMembers | server.js:145-149 | about the reference definition `BookingsFor` that the grouping and the recount are proved against: a booking is among an event's bookings exactly when it is in the store and references that event |
| Records.BookingIsCounted | server.js:145-149 | about the reference definition `BookingsFor` that the grouping and the recount are proved against: every booking is among the bookings taken for its own event |
| Records.BookingsForConcat | server.js:145-149 | about the reference definition `BookingsFor` that the grouping and the recount are proved against: taking an event's bookings from a concatenation gives the two parts' bookings, in order |
| Records.IndexOf | server.js:190-193 | `findById` finds the first booking with the id, and finds none exactly when no booking has the id |
| Records.RemoveAt | server.js:201 | deleting a booking removes that one entry and keeps the others in their order |
| Records.RemoveAtKeepsIds | server.js:201 | after the deletion the ids are still distinct and bounded, and no booking has the deleted id |
| Records.LiveCountAfterRemove | server.js:195-201 | deleting a booking lowers its own event's live count by one and leaves every other event's count alone |
| BookingStore.Reserved | server.js:239 | taking a seat raises the counter by exactly one and changes no other field |
| BookingStore.Released | server.js:197 | giving a seat back lowers a positive counter by one, never goes below zero, and changes no other field |
| BookingStore.ReleaseIn | server.js:195-199 | a cancellation releases a seat only on the booking's event if it still exists, and otherwise changes nothing |
| BookingStore.ReleaseKeepsCapacity | server.js:195-199 | releasing a seat keeps every counter within `0..maxSeats` |
| BookingStore.ReleaseThenReserve | server.js:188-247 | giving back a held seat and booking it again restores the events exactly |
| BookingStore.BookingKeepsCountersInStep | server.js:230-240 | a new booking plus the incremented counter keeps every counter equal to its live count |
| BookingStore.CancellationKeepsCountersInStep | server.js:195-201 | a deleted booking plus the released counter keeps every counter equal to its live count, so the zero floor never applies |
| BookingStore.Store.CreateBooking | server.js:219-247 | missing attendee fields are refused before the lookup; an unknown event gives NotFound and a full event (`booked >= maxSeats`) gives Full, both leaving the store unchanged; otherwise exactly one booking of that event is appended and only that event's counter rises by one; both invariants are preserved |
| BookingStore.Store.DeleteBooking | server.js:188-207 | an unknown id gives NotFound and changes nothing; otherwise exactly that booking is removed and its event's counter is released with a floor at zero; a missing event is tolerated; other events are untouched; both invariants are preserved |
| BookingStore.CancellationFreesSeat | server.js:188-247 | in a consistent store, cancelling a booking of an event that is in the store and booking that event again always succeeds and leaves every counter as it was |
| EventValidation.IsJsWhitespace | server.js:81 | a plain definition of the characters `.trim()` strips: the ECMAScript WhiteSpace and LineTerminator code points |
| EventValidation.TrimStart | server.js:81 | the result is a suffix of the input; everything cut off is whitespace; the result does not start with whitespace |
| EventValidation.TrimEnd | server.js:81 | the result is a prefix of the input; everything cut off is whitespace; the result does not end with whitespace |
| EventValidation.Trim | server.js:81 | `trim` returns a contiguous part of the input that neither starts nor ends with whitespace, and everything it cuts off on either side is whitespace |
| EventValidation.TrimEmptyIffBlank | server.js:81 | a string trims to the empty string exactly when every character is JavaScript whitespace |
| EventValidation.NoTitle | server.js:81 | `!title?.trim()` holds exactly when the title is missing or consists of whitespace only |
| EventValidation.IsClockTime | server.js:83 | a plain definition of the anchored pattern `^\d{2}:\d{2}$`: exactly five characters, two digits, a colon, two digits; a matching string holds nothing but digits and the colon |
| EventValidation.FirstFailing | server.js:78-89 | the index returned is that of the first failing check: all earlier checks pass |
| EventValidation.ValidateEventData | server.js:78-89 | the body passes exactly when the title has a non-whitespace character, the date is valid, the time is two digits, a colon and two digits, 15 <= duration <= 240, an instructor is given and maxSeats >= 1 |
| EventValidation.ValidateReportsFirstFailure | server.js:81-86 | the rejection reported is the one of the first failing check in source order, and none is reported when all checks pass |
| EventValidation.Rejection.Message | server.js:81-86 | a plain definition of the six 400 messages, one per rejection, in the order the checks run |
| Listing.InEvents | server.js:139-140 | the `$in` query returns only bookings of the listed events |
| Listing.Select | server.js:141 | a plain definition of `.select('event name countryCode phone')` with the default `_id`: the booking without its creation time |
| Listing.SelectAll | server.js:140-142 | a plain definition of the projection applied to every fetched booking, in order |
| Listing.Lookup | server.js:146 | a plain definition of `acc[key] \|\| []`: the group stored under the key, or the empty list when there is none |
| Listing.GroupByEvent | server.js:145-149 | every fetched booking's event gets a group, and every entry of a group references that group's event |
| Listing.GroupByEventSnoc | server.js:145-149 | one more fetched booking is pushed onto the end of its own event's group and no other group changes |
| Listing.GroupIsBookingsFor | server.js:145-149 | the `reduce` grouping puts, under each event id, exactly that event's bookings in store order |
| Listing.InEventsKeepsListed | server.js:139-142 | restricting the query to the listed events loses none of a listed event's bookings |
| Listing.GroupsOfListed | server.js:139-156 | every listed event's group is exactly its live bookings, projected to the selected fields |
| Listing.Matches | server.js:133 | a plain definition of the filter `req.query.instructor ? { instructor } : {}`: no filter matches every event, otherwise the instructor must be the requested one |
| Listing.ListEvents | server.js:131-162 | the listing has exactly the events that match the instructor filter; each entry's attendees are exactly that event's live bookings; its `booked` is their number (0 when there are none); all other fields are the stored event's |
| Listing.ListingIgnoresStoredCounter | server.js:152-156 | overwriting an event's stored counter does not change the listing |
| Listing.ListingAgreesWithMatchingCounters | server.js:152-156 | when the stored counters match the live counts, the listing reports the stored events unchanged |
| Cors.Includes | server.js:28 | the allowlist scan finds an origin exactly when it is in the list |
| Cors.DecideOrigin | server.js:21-34 | a request with no origin or from an allowed origin passes; any other is refused with "Origin not allowed by CORS" |

## Left out

- MongoDB and Express: the connection, `find`/`populate`/`lean`/`sort`/`save`, the middleware wiring, request logging, the error, 404 and 405 handlers, and `app.listen`. The store is an in-memory map of events and a sequence of bookings.
- Concurrency: the race between the capacity check and the increment (server.js:228-240) is not modelled. Each handler runs as one sequential step, so two requests can never both pass the check for the last seat here.
- Partial failures of awaited store calls are not modelled, for example a booking created while `ev.save()` throws, or a counter decremented while the delete fails. The source has no compensation for them, and none is modelled.
- Date validity (`new Date(date).getTime()` not NaN) is the abstract boolean `dateValid`, because it depends on JavaScript's date parser.
- Numbers are integers. JavaScript's non-integer, NaN or other falsy values of `duration`, `maxSeats` and `booked` are not modelled. A missing number is `None`.
- Request fields of the wrong JavaScript type are not modelled: a numeric title or time makes `trim`/`match` throw, and a numeric phone is turned into a string by `toString()`. String fields are `Option<string>`.
- A malformed event or booking id makes Mongoose throw a cast error (a 500). This is not modelled; ids are natural numbers. Fresh ObjectIds are modelled by a counter `nextId`.
- `.populate('instructor')` is not modelled; an event keeps its instructor id.
- The listing is a map keyed by event id, so the order in which the store returns events is not modelled.
- Fetched bookings are taken in insertion order (store order). `Booking.find({ event: { $in: eventIds } })` (server.js:140) has no `.sort`, so MongoDB does not promise any order; the model fixes the natural order, and each event's attendee list follows it.
- The booking's `updatedAt` timestamp is not modelled. `createdAt` is the `now` argument of `CreateBooking`.
- `POST /api/events` is not modelled beyond its guard `validateEventData`. `Event.create(req.body)` stores whatever else the body carries, including a `booked` value.
- The instructor routes (server.js:92-128) are not modelled, nor are `GET /api/events/:id` and `GET /api/events/:id/bookings`. They are lookups with no bookkeeping.
- The CORS options (methods, headers, credentials, status 204 for preflight) are not modelled, only the origin decision.
