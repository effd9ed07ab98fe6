/** Cursor pagination over `GET /home/get-events`: the responses a run
    receives, in request order, and what the accumulator gathers from them. */
module Paging {
  import opened Lists
  import opened Events

  /** One answer to a page request: the parsed body, or a failed request or
      body parse (which the caller's `catch` only logs). A missing or null
      `next_cursor` is written as the empty string. */
  datatype Response =
    | Page(entries: seq<Entry>, hasMore: bool, nextCursor: string)
    | FetchError

  /** `data.has_more && data.next_cursor`: another page is requested. */
  predicate Continues(r: Response)
  {
    r.Page? && r.hasMore && r.nextCursor != ""
  }

  /** A paging run either reaches a last page (and the pipeline goes on) or
      stops at a failed request, after which nothing else happens. */
  datatype PageRun = Complete(entries: seq<Entry>) | Halted(entries: seq<Entry>)
  {
    function Prepend(es: seq<Entry>): PageRun
    {
      match this
      case Complete(rest) => Complete(es + rest)
      case Halted(rest) => Halted(es + rest)
    }
  }

  /** The run over the responses to successive requests. Running out of
      responses is a request that never answers: the run does not go on. */
  function Paginate(rs: seq<Response>): (r: PageRun)
    ensures forall e :: e in r.entries ==>
      exists i :: 0 <= i < |rs| && rs[i].Page? && e in rs[i].entries
    ensures r.Complete? ==> rs != [] && rs[0].Page?
  {
    if rs == [] then Halted([])
    else match rs[0]
      case FetchError => Halted([])
      case Page(es, _, _) =>
        if Continues(rs[0]) then Paginate(rs[1..]).Prepend(es) else Complete(es)
  }

  /** The first `n` responses are pages that ask for more. */
  predicate ContinuesThrough(rs: seq<Response>, n: nat)
    requires n <= |rs|
  {
    forall i :: 0 <= i < n ==> Continues(rs[i])
  }

  /** The `entries` of each response (none for a failed one). */
  function PageEntries(rs: seq<Response>): seq<seq<Entry>>
  {
    seq(|rs|, i requires 0 <= i < |rs| => if rs[i].Page? then rs[i].entries else [])
  }

  /** When page `n` is the first that stops, the run completes with every
      page's entries up to and including page `n`, in fetch order; their
      number is the sum of the page sizes. */
  lemma {:induction false} PaginateStopsAt(rs: seq<Response>, n: nat)
    requires n < |rs| && ContinuesThrough(rs, n)
    requires rs[n].Page? && !Continues(rs[n])
    ensures Paginate(rs) == Complete(Flatten(PageEntries(rs[..n + 1])))
    ensures |Paginate(rs).entries| == TotalLength(PageEntries(rs[..n + 1]))
  {
    if n == 0 {
      assert PageEntries(rs[..1]) == [rs[0].entries];
      FlattenCons(rs[0].entries, []);
    } else {
      PaginateStopsAt(rs[1..], n - 1);
      assert PageEntries(rs[..n + 1]) == [rs[0].entries] + PageEntries(rs[1..][..n]);
      FlattenCons(rs[0].entries, PageEntries(rs[1..][..n]));
    }
    FlattenLength(PageEntries(rs[..n + 1]));
  }

  /** A run completes only by reaching a page that stops after pages that
      all continued. */
  lemma {:induction false} PaginateCompleteHasStop(rs: seq<Response>)
    requires Paginate(rs).Complete?
    ensures exists n :: 0 <= n < |rs| && ContinuesThrough(rs, n) && rs[n].Page? && !Continues(rs[n])
  {
    if !Continues(rs[0]) {
      assert ContinuesThrough(rs, 0);
    } else {
      PaginateCompleteHasStop(rs[1..]);
      var m :| 0 <= m < |rs[1..]| && ContinuesThrough(rs[1..], m) && rs[1..][m].Page? && !Continues(rs[1..][m]);
      assert ContinuesThrough(rs, m + 1);
    }
  }

  /** A failed request before any stopping page halts the run. */
  lemma {:induction false} PaginateHaltsAt(rs: seq<Response>, n: nat)
    requires n < |rs| && ContinuesThrough(rs, n) && rs[n].FetchError?
    ensures Paginate(rs).Halted?
  {
    if n > 0 {
      PaginateHaltsAt(rs[1..], n - 1);
    }
  }
}
