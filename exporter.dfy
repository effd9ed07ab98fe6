/** The whole run: the module-level `allEvents` list, the two paginated
    fetches that grow it, and the three report contents. */
module Exporter {
  import opened Records
  import opened Events
  import opened Paging
  import opened Guests
  import opened UniqueGuests

  /** The arrays handed to the CSV writer: the events report, and the
      registrations and unique guests (absent when guest collection was
      aborted by a rejected fetch). */
  datatype Reports = Reports(
    events: seq<Record>,
    registrations: Option<seq<Record>>,
    uniqueGuests: Option<seq<Record>>)

  class Run {
    /** The event list that every page is concatenated onto. */
    var allEvents: seq<Entry>

    constructor ()
      ensures allEvents == []
    {
      allEvents := [];
    }

    /** Concatenates each page's entries onto `allEvents` while the page says
        `has_more` with a non-empty `next_cursor`; stops after the first page
        that does not, or at a failed request. */
    method AccumulatePages(responses: seq<Response>) returns (complete: bool)
      modifies this
      ensures complete == Paginate(responses).Complete?
      ensures allEvents == old(allEvents) + Paginate(responses).entries
    {
      var i := 0;
      while i < |responses|
        invariant 0 <= i <= |responses|
        invariant Paginate(responses[i..]).Complete? == Paginate(responses).Complete?
        invariant allEvents + Paginate(responses[i..]).entries == old(allEvents) + Paginate(responses).entries
      {
        var response := responses[i];
        assert responses[i..][0] == response && responses[i..][1..] == responses[i + 1..];
        match response
        case FetchError =>
          return false;
        case Page(entries, hasMore, nextCursor) =>
          allEvents := allEvents + entries;
          if !(hasMore && nextCursor != "") {
            return true;
          }
          i := i + 1;
      }
      complete := false;
    }

    /** `fetchPastEvents`: page through past events, then keep those after
        the cutoff and derive their `event_url`. */
    method FetchPastEvents(responses: seq<Response>, startOf: Value -> Instant) returns (complete: bool)
      modifies this
      ensures complete == Paginate(responses).Complete?
      ensures complete ==>
        allEvents == MapEventUrls(FilterPast(old(allEvents) + Paginate(responses).entries, startOf))
      ensures !complete ==> allEvents == old(allEvents) + Paginate(responses).entries
    {
      complete := AccumulatePages(responses);
      if complete {
        allEvents := MapEventUrls(FilterPast(allEvents, startOf));
      }
    }

    /** `fetchFutureEvents`: page through future events onto the list, then
        derive `event_url` for every event in it. */
    method FetchFutureEvents(responses: seq<Response>) returns (complete: bool)
      modifies this
      ensures complete == Paginate(responses).Complete?
      ensures complete ==> allEvents == MapEventUrls(old(allEvents) + Paginate(responses).entries)
      ensures !complete ==> allEvents == old(allEvents) + Paginate(responses).entries
    {
      complete := AccumulatePages(responses);
      if complete {
        allEvents := MapEventUrls(allEvents);
      }
    }

    /** `init()` and everything it sets off: past events, then future
        events, then the guests of every event. Nothing is reported unless
        both paging runs complete. The final event list is the filtered
        past events followed by all future events, each mapped once. */
    method Export(past: seq<Response>, future: seq<Response>, startOf: Value -> Instant,
                  download: Value -> Download)
      returns (reports: Option<Reports>)
      modifies this
      ensures reports.Some? <==> Paginate(past).Complete? && Paginate(future).Complete?
      ensures reports.Some? ==>
        allEvents == MapEventUrls(FilterPast(old(allEvents) + Paginate(past).entries, startOf))
                     + MapEventUrls(Paginate(future).entries)
      ensures reports.Some? ==> reports.value.events == EventObjects(allEvents)
      ensures reports.Some? ==> reports.value.registrations == CollectGuests(allEvents, download)
      ensures reports.Some? ==>
        reports.value.uniqueGuests ==
          if reports.value.registrations.Some? then Some(Dedupe(reports.value.registrations.value)) else None
    {
      var pastDone := FetchPastEvents(past, startOf);
      if !pastDone {
        return None;
      }
      var futureDone := FetchFutureEvents(future);
      if !futureDone {
        return None;
      }
      RemapAfterAppend(FilterPast(old(allEvents) + Paginate(past).entries, startOf), Paginate(future).entries);
      var guests := FetchGuestsForEvents(allEvents, download);
      var unique := if guests.Some? then Some(Dedupe(guests.value)) else None;
      reports := Some(Reports(EventObjects(allEvents), guests, unique));
    }
  }
}
