/**
 * The event queries: the listing with its optional filters, the search with
 * a keyword over title and description and a date window, the related
 * events shown beside one event, and the lookup by slug. Each query is a
 * filter over the events table followed by an ascending order on start time.
 */
module EventsService {
  import opened Common
  import opened Seqs
  import opened TextMatch

  /** The filter value the listing form sends to mean "no filter". */
  const ALL := "Tất cả"
  const TRUE_TEXT := "true"

  /**
   * A row of the events table; times are instants on one clock.
   * `ticketTypeCount` is the number of ticket types the event owns.
   */
  datatype Event = Event(
    id: string,
    slug: string,
    title: string,
    description: Option<string>,
    isOnline: bool,
    location: Option<string>,
    startTime: int,
    endTime: int,
    ticketTypeCount: nat)

  /** The listing's query string; every value is text as it arrived. */
  datatype ListQuery = ListQuery(q: Option<string>, location: Option<string>, isOnline: Option<string>,
                                 startDate: Option<string>)

  /** The search's parameters: is_online already parsed, the dates still text. */
  datatype SearchParams = SearchParams(q: Option<string>, location: Option<string>, isOnline: Option<bool>,
                                       startDate: Option<string>, endDate: Option<string>)

  function StartKey(e: Event): int
  {
    e.startTime
  }

  /** A nullable text column ILIKE '%term%': a NULL column never matches. */
  predicate ColumnContains(column: Option<string>, term: string)
  {
    column.Some? && ILike(column.value, Containing(term))
  }

  /** The location filter of the listing and the search: skipped when absent, empty or "Tất cả". */
  predicate LocationFilter(e: Event, location: Option<string>)
  {
    Truthy(location) && location != Some(ALL) ==> ColumnContains(e.location, location.value)
  }

  /**
   * The listing's WHERE clause: q on the title, the location, and is_online
   * compared with the text "true" whenever it is present and not "Tất cả".
   * start_date is read but adds no condition.
   */
  predicate ListMatches(e: Event, query: ListQuery)
  {
    && (Truthy(query.q) ==> ILike(e.title, Containing(query.q.value)))
    && LocationFilter(e, query.location)
    && (query.isOnline.Some? && query.isOnline != Some(ALL) ==> e.isOnline == (query.isOnline == Some(TRUE_TEXT)))
  }

  /** The events listing: the matching events, earliest first. */
  function FindAll(events: seq<Event>, query: ListQuery): (r: seq<Event>)
    ensures forall e :: e in r <==> e in events && ListMatches(e, query)
    ensures SortedBy(r, StartKey)
    ensures multiset(r) <= multiset(events)
  {
    var matching := Filter(events, (e: Event) => ListMatches(e, query));
    var r := SortBy(matching, StartKey);
    SameMembers(r, matching);
    r
  }

  lemma SameMembers(a: seq<Event>, b: seq<Event>)
    requires multiset(a) == multiset(b)
    ensures forall e :: e in a <==> e in b
  {
    forall e ensures e in a <==> e in b {
      assert e in a <==> e in multiset(a);
      assert e in b <==> e in multiset(b);
    }
  }

  /**
   * The search's WHERE clause. `cast` is PostgreSQL's reading of a date text
   * as an instant; both bounds are inclusive, and "Tất cả" disables only the
   * lower one.
   */
  predicate SearchMatches(e: Event, params: SearchParams, cast: string -> int)
  {
    && (Truthy(params.q) ==>
          ILike(e.title, Containing(params.q.value)) || ColumnContains(e.description, params.q.value))
    && LocationFilter(e, params.location)
    && (params.isOnline.Some? ==> e.isOnline == params.isOnline.value)
    && (Truthy(params.startDate) && params.startDate != Some(ALL) ==> e.startTime >= cast(params.startDate.value))
    && (Truthy(params.endDate) ==> e.startTime <= cast(params.endDate.value))
  }

  /** The search: the matching events, earliest first. */
  function Search(events: seq<Event>, params: SearchParams, cast: string -> int): (r: seq<Event>)
    ensures forall e :: e in r <==> e in events && SearchMatches(e, params, cast)
    ensures SortedBy(r, StartKey)
    ensures multiset(r) <= multiset(events)
  {
    var matching := Filter(events, (e: Event) => SearchMatches(e, params, cast));
    var r := SortBy(matching, StartKey);
    SameMembers(r, matching);
    r
  }

  /** The first event stored under an id. */
  function FindById(events: seq<Event>, id: string): (r: Option<Event>)
    ensures r.Some? ==> r.value in events && r.value.id == id
    ensures r.None? <==> forall e :: e in events ==> e.id != id
  {
    if events == [] then None
    else if events[0].id == id then Some(events[0])
    else
      assert events == [events[0]] + events[1..];
      FindById(events[1..], id)
  }

  /** The related-events condition for the event `current`, at clock reading `now`. */
  predicate RelatedTo(e: Event, current: Event, now: int)
  {
    && e.id != current.id
    && e.startTime > now
    && (Truthy(current.location) ==> ColumnContains(e.location, current.location.value))
  }

  /**
   * Events related to `eventId`: none when the id is unknown; otherwise
   * other events that start after `now`, at the same location when the
   * event has one, earliest first, at most `limit` of them; a limit of 0
   * sends no LIMIT, so every such event comes back.
   */
  function FindRelated(events: seq<Event>, eventId: string, limit: nat, now: int): (r: seq<Event>)
    ensures FindById(events, eventId).None? ==> r == []
    ensures multiset(r) <= multiset(events)
    ensures limit > 0 ==> |r| <= limit
    ensures limit == 0 && FindById(events, eventId).Some? ==>
              forall e :: e in events && RelatedTo(e, FindById(events, eventId).value, now) ==> e in r
    ensures forall e :: e in r ==> e in events && e.id != eventId && e.startTime > now
    ensures FindById(events, eventId).Some? ==> forall e :: e in r ==> RelatedTo(e, FindById(events, eventId).value, now)
    ensures SortedBy(r, StartKey)
  {
    match FindById(events, eventId)
    case None => []
    case Some(current) =>
      var matching := Filter(events, (e: Event) => RelatedTo(e, current, now));
      var r := Earliest(matching, limit);
      assert forall e :: e in r ==> e in matching;
      assert limit == 0 ==> forall e :: e in matching ==> e in r by {
        if limit == 0 {
          forall e | e in matching ensures e in r {
            assert e in multiset(matching);
          }
        }
      }
      r
  }

  /** The rows an event yields in a LEFT JOIN with its ticket types: one per ticket type, or one when it has none. */
  function JoinRows(e: Event): (n: nat)
    ensures 1 <= n && e.ticketTypeCount <= n
  {
    if e.ticketTypeCount == 0 then 1 else e.ticketTypeCount
  }

  /** The joined rows of a list of events. */
  function Rows(s: seq<Event>): (n: nat)
    ensures |s| <= n
  {
    if s == [] then 0 else JoinRows(s[0]) + Rows(s[1..])
  }

  /**
   * The events a SQL LIMIT on joined rows lets through: the rows of the
   * events are read in order until `limit` rows have been read, and every
   * event with at least one row read comes back once.
   */
  function RowLimitedPrefix(s: seq<Event>, limit: nat): (r: seq<Event>)
    ensures |r| <= |s| && r == s[..|r|]
    ensures |r| <= limit
    ensures Rows(s) <= limit ==> r == s
  {
    if s == [] || limit == 0 then []
    else
      var rest := if limit <= JoinRows(s[0]) then 0 else limit - JoinRows(s[0]);
      [s[0]] + RowLimitedPrefix(s[1..], rest)
  }

  /** Events are left out only once the limit has been reached by the rows of those shown. */
  lemma {:induction false} PrefixStopsAtLimit(s: seq<Event>, limit: nat)
    ensures var r := RowLimitedPrefix(s, limit);
            |r| < |s| ==> limit <= Rows(r)
  {
    if s != [] && limit != 0 {
      var rest := if limit <= JoinRows(s[0]) then 0 else limit - JoinRows(s[0]);
      var tail := RowLimitedPrefix(s[1..], rest);
      PrefixStopsAtLimit(s[1..], rest);
      assert ([s[0]] + tail)[1..] == tail;
    }
  }

  /** Every event shown had at least one of its rows read before the limit. */
  lemma {:induction false} PrefixRowsBelowLimit(s: seq<Event>, limit: nat, k: nat)
    requires k < |RowLimitedPrefix(s, limit)|
    ensures Rows(s[..k]) < limit
  {
    var rest := if limit <= JoinRows(s[0]) then 0 else limit - JoinRows(s[0]);
    if k > 0 {
      PrefixRowsBelowLimit(s[1..], rest, k - 1);
      assert s[..k][1..] == s[1..][..k - 1];
    }
  }

  /** An early event with several ticket types uses up several rows of the limit. */
  lemma RowLimitCountsTicketTypes(a: Event, b: Event, c: Event, d: Event, e: Event)
    requires a.ticketTypeCount == 3
    requires b.ticketTypeCount == 1 && c.ticketTypeCount == 1 && d.ticketTypeCount == 1 && e.ticketTypeCount == 1
    ensures RowLimitedPrefix([a, b, c, d, e], 4) == [a, b]
  {
    assert [a, b, c, d, e][1..] == [b, c, d, e];
    assert [b, c, d, e][1..] == [c, d, e];
  }

  /**
   * ORDER BY start_time LIMIT n over the events joined with their ticket
   * types, hydrated back into events: the earliest events, at most n of them.
   * The query builder writes no LIMIT for n = 0, so then all events come back.
   */
  function Earliest(s: seq<Event>, limit: nat): (r: seq<Event>)
    ensures limit > 0 ==> |r| <= limit
    ensures limit == 0 ==> multiset(r) == multiset(s)
    ensures multiset(r) <= multiset(s)
    ensures forall e :: e in r ==> e in s
    ensures SortedBy(r, StartKey)
  {
    var sorted := SortBy(s, StartKey);
    var r := if limit == 0 then sorted else RowLimitedPrefix(sorted, limit);
    assert multiset(r) <= multiset(sorted) by {
      if limit > 0 {
        assert sorted == r + sorted[|r|..];
        assert multiset(sorted) == multiset(r) + multiset(sorted[|r|..]);
      }
    }
    forall e | e in r ensures e in s {
      var i :| 0 <= i < |r| && r[i] == e;
      assert sorted[i] == e;
      assert e in multiset(sorted);
    }
    r
  }

  /**
   * The related list is the earliest qualifying events: a qualifying event
   * left out means the joined-row limit was reached, and it starts no
   * earlier than the last event shown.
   */
  lemma {:induction false} RelatedAreEarliest(events: seq<Event>, eventId: string, limit: nat, now: int, e: Event)
    requires FindById(events, eventId).Some?
    requires e in events && RelatedTo(e, FindById(events, eventId).value, now)
    requires e !in FindRelated(events, eventId, limit, now)
    ensures var r := FindRelated(events, eventId, limit, now);
            limit <= Rows(r) && (limit > 0 ==> r != [] && r[|r| - 1].startTime <= e.startTime)
  {
    var current := FindById(events, eventId).value;
    var matching := Filter(events, (x: Event) => RelatedTo(x, current, now));
    var sorted := SortBy(matching, StartKey);
    var r := FindRelated(events, eventId, limit, now);
    if limit > 0 {
      assert r == RowLimitedPrefix(sorted, limit);
      assert e in matching;
      assert e in multiset(sorted);
      var j :| 0 <= j < |sorted| && sorted[j] == e;
      assert |r| <= j;
      PrefixStopsAtLimit(sorted, limit);
      assert r[|r| - 1] == sorted[|r| - 1];
    }
  }

  const NOT_FOUND_PREFIX := "Sự kiện \""
  const NOT_FOUND_SUFFIX := "\" không tồn tại"

  /** The first event with the slug; NotFound, quoting the slug, when there is none. */
  function FindOneBySlug(events: seq<Event>, slug: string): (r: Result<Event>)
    ensures r.Ok? ==> r.value in events && r.value.slug == slug
    ensures r.Err? <==> forall e :: e in events ==> e.slug != slug
    ensures r.Err? ==> r.error == NotFound(NOT_FOUND_PREFIX + slug + NOT_FOUND_SUFFIX)
  {
    if events == [] then Err(NotFound(NOT_FOUND_PREFIX + slug + NOT_FOUND_SUFFIX))
    else if events[0].slug == slug then Ok(events[0])
    else
      assert events == [events[0]] + events[1..];
      FindOneBySlug(events[1..], slug)
  }

  /** A keyword without LIKE wildcards keeps exactly the listed events whose title contains it, ignoring ASCII case. */
  lemma ListKeywordInTitle(events: seq<Event>, query: ListQuery, e: Event)
    requires Truthy(query.q) && Literal(query.q.value)
    requires e in events && LocationFilter(e, query.location)
    requires query.isOnline.None?
    ensures e in FindAll(events, query) <==> IsSubstring(LowerAscii(query.q.value), LowerAscii(e.title))
  {
    ILikeContaining(e.title, query.q.value);
  }

  /** A search keyword without wildcards matches an event whose title or description contains it. */
  lemma SearchKeywordInTitleOrDescription(e: Event, params: SearchParams, cast: string -> int)
    requires Truthy(params.q) && Literal(params.q.value)
    requires SearchMatches(e, params, cast)
    ensures var w := LowerAscii(params.q.value);
            IsSubstring(w, LowerAscii(e.title)) ||
            (e.description.Some? && IsSubstring(w, LowerAscii(e.description.value)))
  {
    ILikeContaining(e.title, params.q.value);
    if e.description.Some? {
      ILikeContaining(e.description.value, params.q.value);
    }
  }

  /** The listing's start_date has no effect on its result. */
  lemma ListIgnoresStartDate(events: seq<Event>, query: ListQuery, startDate: Option<string>)
    ensures FindAll(events, query) == FindAll(events, query.(startDate := startDate))
  {
    var other := query.(startDate := startDate);
    assert other.q == query.q && other.location == query.location && other.isOnline == query.isOnline;
    FilterSamePredicate(events, (e: Event) => ListMatches(e, query), (e: Event) => ListMatches(e, other));
    assert Filter(events, (e: Event) => ListMatches(e, query)) == Filter(events, (e: Event) => ListMatches(e, other));
  }

  /** A location that is absent, empty or "Tất cả" is the same as no location filter. */
  lemma ListLocationAllIsNoFilter(events: seq<Event>, query: ListQuery)
    requires !Truthy(query.location) || query.location == Some(ALL)
    ensures FindAll(events, query) == FindAll(events, query.(location := None))
  {
    var other := query.(location := None);
    assert other.q == query.q && other.isOnline == query.isOnline;
    forall e | e in events ensures LocationFilter(e, query.location) && LocationFilter(e, other.location) {
    }
    FilterSamePredicate(events, (e: Event) => ListMatches(e, query), (e: Event) => ListMatches(e, other));
    assert Filter(events, (e: Event) => ListMatches(e, query)) == Filter(events, (e: Event) => ListMatches(e, other));
  }

  /** A present is_online other than "Tất cả" keeps online events for "true" and offline ones for any other text. */
  lemma ListOnlineFilter(events: seq<Event>, query: ListQuery, e: Event)
    requires query.isOnline.Some? && query.isOnline != Some(ALL)
    requires e in FindAll(events, query)
    ensures e.isOnline <==> query.isOnline == Some(TRUE_TEXT)
  {
  }
}
