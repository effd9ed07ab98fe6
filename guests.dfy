/** Guest retrieval: `fetchGuests` for one event and the sequential loop of
    `fetchGuestsForEvents` over all events. */
module Guests {
  import opened Records
  import opened Lists
  import opened Events

  /** What asking for one event's guest CSV gives. `RequestFailed`: the
      request or reading its body threw, which `fetchGuests` catches.
      `ParseFailed`: the CSV stream emitted an error, which rejects the
      promise that `fetchGuests` returns outside its `try`. */
  datatype Download = Parsed(rows: seq<Record>) | RequestFailed | ParseFailed

  /** How the promise returned by `fetchGuests` settles. */
  datatype GuestResult = Resolved(rows: seq<Record>) | Rejected

  /** `row.event_name = eventName; row.event_url = eventURL;` */
  function Tag(row: Record, name: Value, url: Value): (r: Record)
    ensures Prop(r, "event_name") == name && Prop(r, "event_url") == url
    ensures r.Keys == row.Keys + {"event_name", "event_url"}
    ensures forall k :: k != "event_name" && k != "event_url" ==> Prop(r, k) == Prop(row, k)
  {
    row["event_name" := name]["event_url" := url]
  }

  /** The settled value of `fetchGuests` for one event; `download` stands
      for the request and the CSV parser. */
  function GuestsOf(apiId: Value, name: Value, url: Value, download: Value -> Download): (r: GuestResult)
    ensures r.Rejected? <==> download(apiId).ParseFailed?
    ensures download(apiId).RequestFailed? ==> r == Resolved([])
    ensures download(apiId).Parsed? ==> r.Resolved? && |r.rows| == |download(apiId).rows|
    ensures r.Resolved? ==> forall g :: g in r.rows ==>
      Prop(g, "event_name") == name && Prop(g, "event_url") == url
  {
    match download(apiId)
    case Parsed(raw) => Resolved(seq(|raw|, i requires 0 <= i < |raw| => Tag(raw[i], name, url)))
    case RequestFailed => Resolved([])
    case ParseFailed => Rejected
  }

  /** Downloads one event's guests and tags every parsed row with the
      event's name and URL, pushing the rows in parse order. */
  method FetchGuests(apiId: Value, name: Value, url: Value, download: Value -> Download)
    returns (result: GuestResult)
    ensures result == GuestsOf(apiId, name, url, download)
    ensures result.Rejected? <==> download(apiId).ParseFailed?
    ensures download(apiId).RequestFailed? ==> result == Resolved([])
    ensures download(apiId).Parsed? ==>
      result.Resolved? && |result.rows| == |download(apiId).rows|
    ensures download(apiId).Parsed? ==> forall i :: 0 <= i < |download(apiId).rows| ==>
      var row, raw := result.rows[i], download(apiId).rows[i];
      Prop(row, "event_name") == name && Prop(row, "event_url") == url &&
      row.Keys == raw.Keys + {"event_name", "event_url"} &&
      (forall k :: k != "event_name" && k != "event_url" ==> Prop(row, k) == Prop(raw, k))
  {
    match download(apiId)
    case RequestFailed =>
      result := Resolved([]);
    case ParseFailed =>
      result := Rejected;
    case Parsed(raw) =>
      var results: seq<Record> := [];
      for i := 0 to |raw|
        invariant |results| == i
        invariant forall j :: 0 <= j < i ==> results[j] == Tag(raw[j], name, url)
      {
        var row := raw[i];
        row := row["event_name" := name];
        row := row["event_url" := url];
        results := results + [row];
      }
      result := Resolved(results);
  }

  function ApiId(e: Entry): Value { Prop(e.event, "api_id") }
  function Name(e: Entry): Value { Prop(e.event, "name") }
  function Url(e: Entry): Value { Prop(e.event, "event_url") }

  /** The rows one event adds to `allGuests`. */
  function RowsOf(e: Entry, download: Value -> Download): seq<Record>
  {
    match GuestsOf(ApiId(e), Name(e), Url(e), download)
    case Resolved(rows) => rows
    case Rejected => []
  }

  function PerEvent(events: seq<Entry>, download: Value -> Download): seq<seq<Record>>
  {
    seq(|events|, i requires 0 <= i < |events| => RowsOf(events[i], download))
  }

  /** Some event's guest CSV fails to parse, so the loop stops there. */
  predicate AnyRejected(events: seq<Entry>, download: Value -> Download)
  {
    exists i :: 0 <= i < |events| && download(ApiId(events[i])).ParseFailed?
  }

  /** What `fetchGuestsForEvents` ends up with in `allGuests`: nothing at all
      once a fetch rejects, else every event's rows joined in event order. */
  function CollectGuests(events: seq<Entry>, download: Value -> Download): (r: Option<seq<Record>>)
    ensures r.None? <==> AnyRejected(events, download)
    ensures r.Some? ==> |r.value| == TotalLength(PerEvent(events, download))
  {
    FlattenLength(PerEvent(events, download));
    if AnyRejected(events, download) then None else Some(Flatten(PerEvent(events, download)))
  }

  /** The sequential loop: one event at a time, concatenating its guests. */
  method FetchGuestsForEvents(events: seq<Entry>, download: Value -> Download)
    returns (allGuests: Option<seq<Record>>)
    ensures allGuests == CollectGuests(events, download)
  {
    var acc: seq<Record> := [];
    for i := 0 to |events|
      invariant acc == Flatten(PerEvent(events[..i], download))
      invariant !AnyRejected(events[..i], download)
    {
      var guests := FetchGuests(ApiId(events[i]), Name(events[i]), Url(events[i]), download);
      CollectStep(events, i, download);
      if guests.Rejected? {
        return None;
      }
      acc := acc + guests.rows;
    }
    assert events[..|events|] == events;
    allGuests := Some(acc);
  }

  /** One more iteration of the loop: the next event's rows go at the end. */
  lemma CollectStep(events: seq<Entry>, i: nat, download: Value -> Download)
    requires i < |events|
    ensures Flatten(PerEvent(events[..i + 1], download)) ==
      Flatten(PerEvent(events[..i], download)) + RowsOf(events[i], download)
    ensures AnyRejected(events[..i + 1], download) <==>
      AnyRejected(events[..i], download) || download(ApiId(events[i])).ParseFailed?
  {
    var before, now := events[..i], events[..i + 1];
    assert now == before + [events[i]];
    assert PerEvent(now, download) == PerEvent(before, download) + [RowsOf(events[i], download)];
    assert PerEvent(now, download)[..i] == PerEvent(before, download);
    if AnyRejected(now, download) && !download(ApiId(events[i])).ParseFailed? {
      var j :| 0 <= j < |now| && download(ApiId(now[j])).ParseFailed?;
      assert now[j] == before[j];
    }
  }

  /** Guests are collected per event in order: the guests of `a + b` are
      those of `a` followed by those of `b`, and a rejection anywhere
      loses them all. */
  lemma CollectGuestsAppend(a: seq<Entry>, b: seq<Entry>, download: Value -> Download)
    ensures CollectGuests(a + b, download) ==
      if CollectGuests(a, download).Some? && CollectGuests(b, download).Some?
      then Some(CollectGuests(a, download).value + CollectGuests(b, download).value)
      else None
  {
    PerEventAppend(a, b, download);
    FlattenAppend(PerEvent(a, download), PerEvent(b, download));
    AnyRejectedAppend(a, b, download);
  }

  lemma PerEventAppend(a: seq<Entry>, b: seq<Entry>, download: Value -> Download)
    ensures PerEvent(a + b, download) == PerEvent(a, download) + PerEvent(b, download)
  {
  }

  lemma AnyRejectedAppend(a: seq<Entry>, b: seq<Entry>, download: Value -> Download)
    ensures AnyRejected(a + b, download) <==> AnyRejected(a, download) || AnyRejected(b, download)
  {
    if AnyRejected(a, download) {
      var i :| 0 <= i < |a| && download(ApiId(a[i])).ParseFailed?;
      assert (a + b)[i] == a[i];
    } else if AnyRejected(b, download) {
      var i :| 0 <= i < |b| && download(ApiId(b[i])).ParseFailed?;
      assert (a + b)[|a| + i] == b[i];
    }
  }

  /** An event whose request failed adds no rows, and the events after it
      are still collected: the result is as if it were not in the list. */
  lemma CollectGuestsSkipsFailed(events: seq<Entry>, k: nat, download: Value -> Download)
    requires k < |events| && download(ApiId(events[k])).RequestFailed?
    ensures CollectGuests(events, download) == CollectGuests(events[..k] + events[k + 1..], download)
  {
    var before, after := events[..k], events[k + 1..];
    assert events == before + [events[k]] + after;
    CollectGuestsAppend(before + [events[k]], after, download);
    CollectGuestsAppend(before, [events[k]], download);
    CollectGuestsAppend(before, after, download);
    assert PerEvent([events[k]], download) == [[]];
    assert Flatten<Record>([[]]) == [];
    assert !AnyRejected([events[k]], download);
    assert CollectGuests([events[k]], download) == Some([]);
    if CollectGuests(before, download).Some? {
      var v := CollectGuests(before, download).value;
      assert v + [] == v;
    }
  }
}
