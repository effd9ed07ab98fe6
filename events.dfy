/** The event list transformations: the past-event cutoff filter and the
    `event_url` derivation. */
module Events {
  import opened Records

  /** One element of a page's `entries`: the nested `event` object and the
      entry's other top-level properties. */
  datatype Entry = Entry(event: Record, others: Record)

  /** The time value of a `Date`: a millisecond count, or Invalid for the
      NaN time value of a date that could not be parsed. */
  datatype Instant = Invalid | At(ms: int)

  /** `new Date("2024-04-20")`: a date-only ISO string is read as midnight UTC. */
  const Cutoff: Instant := At(1713571200000)

  /** `a > b` on two dates: false as soon as either time value is NaN. */
  predicate Later(a: Instant, b: Instant)
  {
    a.At? && b.At? && a.ms > b.ms
  }

  /** The filter test: `new Date(event.event.start_at) > new Date("2024-04-20")`,
      where `startOf` stands for the host's date parser. */
  predicate StartsAfterCutoff(e: Entry, startOf: Value -> Instant)
    ensures StartsAfterCutoff(e, startOf) ==>
      startOf(Prop(e.event, "start_at")).At? && startOf(Prop(e.event, "start_at")).ms > 1713571200000
    ensures startOf(Prop(e.event, "start_at")).Invalid? ==> !StartsAfterCutoff(e, startOf)
  {
    Later(startOf(Prop(e.event, "start_at")), Cutoff)
  }

  function FilterPast(es: seq<Entry>, startOf: Value -> Instant): (r: seq<Entry>)
    ensures |r| <= |es|
  {
    if es == [] then []
    else (if StartsAfterCutoff(es[0], startOf) then [es[0]] else []) + FilterPast(es[1..], startOf)
  }

  /** The filter keeps exactly the entries that start after the cutoff. */
  lemma {:induction false} FilterPastMembers(es: seq<Entry>, startOf: Value -> Instant)
    ensures forall e :: e in FilterPast(es, startOf) <==> e in es && StartsAfterCutoff(e, startOf)
  {
    if es != [] {
      FilterPastMembers(es[1..], startOf);
      assert es == [es[0]] + es[1..];
    }
  }

  /** An entry starting on or before the cutoff, or with an unparsable
      start, never survives the filter. */
  lemma FilterPastExcludes(es: seq<Entry>, startOf: Value -> Instant, e: Entry)
    requires startOf(Prop(e.event, "start_at")).Invalid?
          || startOf(Prop(e.event, "start_at")).ms <= Cutoff.ms
    ensures e !in FilterPast(es, startOf)
  {
    FilterPastMembers(es, startOf);
  }

  /** The filter works entry by entry, so it keeps the relative order. */
  lemma {:induction false} FilterPastAppend(a: seq<Entry>, b: seq<Entry>, startOf: Value -> Instant)
    ensures FilterPast(a + b, startOf) == FilterPast(a, startOf) + FilterPast(b, startOf)
  {
    if a == [] {
      assert a + b == b;
    } else {
      var head := if StartsAfterCutoff(a[0], startOf) then [a[0]] else [];
      assert (a + b)[0] == a[0];
      assert (a + b)[1..] == a[1..] + b;
      calc {
        FilterPast(a + b, startOf);
        head + FilterPast(a[1..] + b, startOf);
        { FilterPastAppend(a[1..], b, startOf); }
        head + (FilterPast(a[1..], startOf) + FilterPast(b, startOf));
        (head + FilterPast(a[1..], startOf)) + FilterPast(b, startOf);
      }
    }
  }

  /** `https://lu.ma/${event.event.url}`. */
  function EventUrl(e: Entry): (u: string)
    ensures |u| >= 14 && u[..14] == "https://lu.ma/"
    ensures Prop(e.event, "url").Str? ==> u[14..] == Prop(e.event, "url").s
    ensures Prop(e.event, "url").Undefined? ==> u[14..] == "undefined"
  {
    "https://lu.ma/" + Text(Prop(e.event, "url"))
  }

  /** `{ event: { ...event.event, event_url: ... } }`: the event object gains
      (or has overwritten) `event_url`; the entry's other top-level
      properties are not carried over. */
  function WithEventUrl(e: Entry): (r: Entry)
    ensures r.others == map[]
    ensures r.event.Keys == e.event.Keys + {"event_url"}
    ensures Prop(r.event, "event_url") == Str("https://lu.ma/" + Text(Prop(e.event, "url")))
    ensures forall k :: k != "event_url" ==> Prop(r.event, k) == Prop(e.event, k)
  {
    Entry(e.event["event_url" := Str(EventUrl(e))], map[])
  }

  lemma WithEventUrlIdempotent(e: Entry)
    ensures WithEventUrl(WithEventUrl(e)) == WithEventUrl(e)
  {
    var once := WithEventUrl(e);
    assert Prop(once.event, "url") == Prop(e.event, "url");
    assert once.event["event_url" := Str(EventUrl(once))] == once.event;
  }

  function MapEventUrls(es: seq<Entry>): (r: seq<Entry>)
    ensures |r| == |es|
    ensures forall i :: 0 <= i < |es| ==>
      Prop(r[i].event, "event_url") == Str(EventUrl(es[i])) &&
      r[i].event.Keys == es[i].event.Keys + {"event_url"}
    ensures forall i, k :: 0 <= i < |es| && k != "event_url" ==>
      Prop(r[i].event, k) == Prop(es[i].event, k)
    ensures forall i :: 0 <= i < |es| ==> r[i].others == map[]
  {
    seq(|es|, i requires 0 <= i < |es| => WithEventUrl(es[i]))
  }

  /** Mapping a list that was already mapped changes nothing. */
  lemma MapEventUrlsIdempotent(es: seq<Entry>)
    ensures MapEventUrls(MapEventUrls(es)) == MapEventUrls(es)
  {
    var once := MapEventUrls(es);
    forall i | 0 <= i < |es|
      ensures MapEventUrls(once)[i] == once[i]
    {
      WithEventUrlIdempotent(es[i]);
    }
  }

  lemma MapEventUrlsAppend(a: seq<Entry>, b: seq<Entry>)
    ensures MapEventUrls(a + b) == MapEventUrls(a) + MapEventUrls(b)
  {
  }

  /** The past events are mapped once after the past pages and once more
      together with the future pages: that equals mapping each part once. */
  lemma RemapAfterAppend(past: seq<Entry>, future: seq<Entry>)
    ensures MapEventUrls(MapEventUrls(past) + future) == MapEventUrls(past) + MapEventUrls(future)
  {
    MapEventUrlsAppend(MapEventUrls(past), future);
    MapEventUrlsIdempotent(past);
  }

  /** `events.map((event) => event.event)`: the objects written to the events report. */
  function EventObjects(es: seq<Entry>): (r: seq<Record>)
    ensures |r| == |es|
    ensures forall i :: 0 <= i < |es| ==> r[i] == es[i].event
  {
    seq(|es|, i requires 0 <= i < |es| => es[i].event)
  }
}
