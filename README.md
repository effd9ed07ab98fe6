# Luma events and registrants export — a Dafny model

`luma-all-events-and-registrants.js` is a one-shot export script. It pages
through the signed-in user's past events and then future events on Luma.
It keeps the past events that start after 20 April 2024 and gives every
event an `event_url`. It then downloads each event's guest list as CSV, one
event at a time, and tags every guest row with the event's name and URL.
From this it produces three reports: the events, all registrations, and the
unique guests (one row per email, first occurrence wins). The reports are
stamped with the date as `M-D-YYYY`.

This project models the data pipeline inside that script. The network, the
clock and the host's date parser are inputs:

- a paging run is a sequence of `Response`s, one per request, in request order;
- the guest download is a function from an event's `api_id` to a `Download`;
- `new Date(start_at)` is a function from a property value to an `Instant`;
- the date stamp takes `(month0, day, year)` as given by the `Date` getters.

Modules, one per stage of the pipeline:

- `Records` (records.dfy): JavaScript property values. A property is a string or
  `undefined`. A plain object is a map from property names to values.
- `Lists` (lists.dfy): repeated `acc = acc.concat(part)` as `Flatten`, and its length.
- `Events` (events.dfy): the past-event cutoff filter and the `event_url` mapping.
- `Paging` (paging.dfy): what one paging run accumulates from its responses.
- `Guests` (guests.dfy): `fetchGuests` and the sequential loop in `fetchGuestsForEvents`.
- `UniqueGuests` (unique_guests.dfy): the de-duplicating `reduce`.
- `DateStamp` (datestamp.dfy): the `M-D-YYYY` stamp and the report file names.
- `Exporter` (exporter.dfy): class `Run`. Its field `allEvents` is the script's
  module-level event list. Its methods are the two paging functions and the whole run.

Points where the model follows the code rather than a plain reading of the
script's intent:

- A guest download has two kinds of failure. If the request or the body read
  throws, `fetchGuests` catches it and the event contributes no rows. If the
  CSV stream emits an error, the promise is rejected. That promise is returned
  from inside the `try` without `await`, so the `catch` never sees the rejection.
  The loop in `fetchGuestsForEvents` then stops, and no registrations or unique
  guests are produced. The model keeps this split (`RequestFailed` versus
  `ParseFailed`), so not every per-event error is non-fatal.
- The events mapping rebuilds every entry as `{ event: ... }`. Any other
  top-level property of an entry is dropped (`WithEventUrl` returns empty `others`).
- Past events are mapped twice: once after the past pages, and again with the
  future pages. `RemapAfterAppend` shows the second mapping changes nothing for them.
- Page counts add up only before filtering. The final list holds the filtered
  past events, so its length is not the sum of all page sizes.
- The strict equality on `email` treats two rows without an `email` property as
  equal (`undefined === undefined`). Only the first such row is kept.
- A URL is built from a missing `url` as `https://lu.ma/undefined`, which is
  what the template literal produces.

## Model

| member | source | states |
|---|---|---|
| `Lists.FlattenLength` | luma-all-events-and-registrants.js:145 | the accumulated list's length is the sum of the lengths of the parts concatenated onto it |
| `Lists.FlattenAppend` | luma-all-events-and-registrants.js:137-146 | accumulating two runs of parts one after the other equals joining the two accumulations |
| `Events.StartsAfterCutoff` | luma-all-events-and-registrants.js:94 | an entry passes only when its start parses to a time strictly after 1713571200000 ms (2024-04-20T00:00Z); an unparsable start never passes (see `FilterPastExcludes`) |
| `Events.FilterPast` | luma-all-events-and-registrants.js:92-95 | the filtered list is never longer than the input |
| `Events.FilterPastMembers` | luma-all-events-and-registrants.js:92-95 | an entry is in the filtered list exactly when it is in the input and its start time is strictly after the cutoff |
| `Events.FilterPastExcludes` | luma-all-events-and-registrants.js:94 | an entry whose start is invalid (NaN) or on or before 2024-04-20T00:00Z is never kept |
| `Events.FilterPastAppend` | luma-all-events-and-registrants.js:92-95 | the filter distributes over concatenation, so the kept entries stay in their original relative order |
| `Events.EventUrl` | luma-all-events-and-registrants.js:100 | the URL is `https://lu.ma/` followed by the event's `url`, or by `undefined` when it has none (used by `WithEventUrl`) |
| `Events.WithEventUrl` | luma-all-events-and-registrants.js:96-103 | the event object gains `event_url` = `https://lu.ma/` + its `url`; every other event property keeps its value and no property is lost; the entry's other top-level properties are dropped |
| `Events.WithEventUrlIdempotent` | luma-all-events-and-registrants.js:52-59 | deriving `event_url` for an entry that already has it gives the same entry |
| `Events.MapEventUrls` | luma-all-events-and-registrants.js:52-59 | the mapped list has the input's length; each position carries the event URL of the input event at that position and its other properties unchanged |
| `Events.MapEventUrlsIdempotent` | luma-all-events-and-registrants.js:52-59 | mapping twice equals mapping once |
| `Events.MapEventUrlsAppend` | luma-all-events-and-registrants.js:52-59 | the mapping distributes over concatenation and keeps order |
| `Events.RemapAfterAppend` | luma-all-events-and-registrants.js:86-105 | mapping the mapped past events together with the future events equals mapping each part once |
| `Events.EventObjects` | luma-all-events-and-registrants.js:114 | the events report has one row per entry, in order, and row i is entry i's event object |
| `Paging.Paginate` | luma-all-events-and-registrants.js:86-89 | every accumulated entry comes from some successfully fetched page, and a completed run began with a successful response; the stop and halt cases are characterised by `PaginateStopsAt`, `PaginateCompleteHasStop` and `PaginateHaltsAt` |
| `Paging.PaginateStopsAt` | luma-all-events-and-registrants.js:86-89 | when page n is the first without `has_more` and a non-empty `next_cursor`, the run completes with the entries of pages 0..n concatenated in fetch order, and their count is the sum of those page sizes |
| `Paging.PaginateCompleteHasStop` | luma-all-events-and-registrants.js:46-49 | a run completes only at a page that stops, after pages that all asked for more |
| `Paging.PaginateHaltsAt` | luma-all-events-and-registrants.js:108-110 | a failed request before any stopping page halts the run, and nothing after it happens |
| `Exporter.Run.constructor` | luma-all-events-and-registrants.js:28 | the event list starts empty |
| `Exporter.Run.AccumulatePages` | luma-all-events-and-registrants.js:46-49 | the loop appends exactly the run's entries to `allEvents` and reports whether the run completed |
| `Exporter.Run.FetchPastEvents` | luma-all-events-and-registrants.js:70-111 | after a completed run, `allEvents` is the mapped, cutoff-filtered list of the old events plus the fetched entries; after a halted run, it is the old events plus what was fetched |
| `Exporter.Run.FetchFutureEvents` | luma-all-events-and-registrants.js:30-68 | after a completed run, `allEvents` is the mapped list of the old events plus the fetched entries, unfiltered |
| `Exporter.Run.Export` | luma-all-events-and-registrants.js:45-110 | reports exist exactly when both paging runs complete; the final events are the filtered past events and then the future events, each mapped once; registrations are the collected guests and unique guests their de-duplication |
| `Guests.Tag` | luma-all-events-and-registrants.js:217-218 | the tagged row has `event_name` and `event_url` set to the event's, keeps every other property's value, and gains exactly those two keys |
| `Guests.GuestsOf` | luma-all-events-and-registrants.js:192-230 | the fetch rejects exactly when the CSV stream errors; a failed request resolves to no rows; a parsed download resolves to as many rows as were parsed, each tagged with the event's name and URL (the method `FetchGuests` computes it) |
| `Guests.FetchGuests` | luma-all-events-and-registrants.js:192-230 | a failed request resolves to no rows; a stream error rejects; otherwise one row per parsed row, in order, each with `event_name` and `event_url` set to the event's and every other property unchanged |
| `Guests.FetchGuestsForEvents` | luma-all-events-and-registrants.js:137-146 | the loop yields the per-event row lists concatenated in event order, or nothing once some fetch rejects |
| `Guests.CollectGuestsAppend` | luma-all-events-and-registrants.js:137-146 | the guests of two runs of events are those of the first followed by those of the second; a rejection in either loses all |
| `Guests.CollectGuestsSkipsFailed` | luma-all-events-and-registrants.js:226-228 | an event whose request failed contributes no rows and later events are still collected, as if the event were absent |
| `Guests.CollectGuests` | luma-all-events-and-registrants.js:137-146 | the collection fails exactly when some event's fetch rejects; otherwise the number of collected rows is the sum of the per-event row counts (order and skipping: `CollectGuestsAppend`, `CollectGuestsSkipsFailed`) |
| `UniqueGuests.FindByEmail` | luma-all-events-and-registrants.js:168 | finds nothing exactly when no kept row has that email; what it finds is a kept row with that email |
| `UniqueGuests.Dedupe` | luma-all-events-and-registrants.js:167-174 | the fold, with the reducer of lines 168-173 written inline, never yields more unique guests than registrations; what it keeps is characterised by `DedupeDistinct`, `DedupeEmails`, `KeptPositions` and `KeptExactlyFirst` |
| `UniqueGuests.DedupeDistinct` | luma-all-events-and-registrants.js:167-174 | no two unique guests share an email |
| `UniqueGuests.DedupeEmails` | luma-all-events-and-registrants.js:167-174 | the unique guests carry exactly the set of emails of the registrations |
| `UniqueGuests.KeptPositions` | luma-all-events-and-registrants.js:167-174 | the unique guests are the input rows at strictly increasing positions, so they form a subsequence of the registrations |
| `UniqueGuests.KeptExactlyFirst` | luma-all-events-and-registrants.js:167-174 | a position is kept exactly when its row is the first with its email |
| `UniqueGuests.DedupeOfDistinct` | luma-all-events-and-registrants.js:167-174 | rows whose emails are already distinct pass through unchanged |
| `UniqueGuests.DedupeIdempotent` | luma-all-events-and-registrants.js:167-174 | de-duplicating the unique guests again changes nothing |
| `UniqueGuests.DedupeExample` | luma-all-events-and-registrants.js:167-174 | rows with emails a, a, b give the first a-row and the b-row, in that order |
| `UniqueGuests.DedupeCaseSensitive` | luma-all-events-and-registrants.js:168 | emails differing only in letter case are two guests |
| `DateStamp.NatText` | luma-all-events-and-registrants.js:19-21 | a number is written as a non-empty string of decimal digits without a leading zero |
| `DateStamp.NatTextValue` | luma-all-events-and-registrants.js:19-21 | reading the written digits back gives the number |
| `DateStamp.IntTextRoundTrip` | luma-all-events-and-registrants.js:19-21 | every integer, negative ones with their sign, reads back from its text |
| `DateStamp.FormattedDate` | luma-all-events-and-registrants.js:19-21 | for a non-negative month index the stamp starts with the text of month index + 1, up to its first dash; the full round trip is `StampRoundTrip` |
| `DateStamp.StampRoundTrip` | luma-all-events-and-registrants.js:19-21 | for any month index 0..11 and day 1..31, splitting the stamp at its dashes gives back month index + 1, the day and the year, with no padding needed |
| `DateStamp.StampExample` | luma-all-events-and-registrants.js:19-22 | April 20 2024 (month index 3) stamps `4-20-2024` |
| `DateStamp.ReportFileNames` | luma-all-events-and-registrants.js:118 | the events, registrations and unique-guests files of one run have three different names, so no report overwrites another (lines 156 and 180 give the other two names) |
| `DateStamp.ReportFileNamesExample` | luma-all-events-and-registrants.js:155-181 | a run on April 20 2024 writes `events-4-20-2024.csv`, `registrations-4-20-2024.csv` and `unique-guests-4-20-2024.csv` |

## Left out

- HTTP requests, the cookie header and reading the session key from the environment are not modelled. Page responses and guest downloads are inputs.
- CSV parsing and CSV writing are library code and are not part of this model. A guest row is an abstract object, and a report is the array handed to the writer.
- Creating the output directory and writing the files are filesystem I/O. Only the file names and contents are modelled.
- The progress bar and console logging are UI only and are left out.
- Date parsing is host behaviour and is not modelled. The parsed start time is an input function that may return Invalid. The cutoff is the time value of `new Date("2024-04-20")`, midnight UTC.
- Property values are strings or `undefined`. JSON numbers, booleans, `null` and nested objects in event fields are not told apart, so a `null` URL is not written as `https://lu.ma/null`.
- A response without `entries`, and an entry without an `event` object, are not modelled. The script would append `undefined` for the first and throw for the second.
- Paging.Paginate: when the response sequence runs out before a stopping page, this is treated as a request that never answers: the run does not go on. A cursor that repeats forever cannot be expressed.
- Timing and ordering of asynchronous work are not modelled. This covers the events report being written while guests are still being fetched, and whether the process exits on an unhandled rejection. The model gives what each report contains.
- The HTTP status of a guest download is not checked by the script, so an error body is parsed as CSV. The model folds this into whatever rows `Parsed` holds.
