/**
 * The search page's requests: which query parameters it sends to the search
 * endpoint, what a submitted search puts in the address, and the card
 * gradient picked from an event id.
 */
module SearchPage {
  import opened Common

  const Q_KEY := "q"
  const LOCATION_KEY := "location"
  const IS_ONLINE_KEY := "is_online"
  const START_DATE_KEY := "start_date"

  /** A value of the page address's query: absent, one text, or a repeated key's texts. */
  datatype QueryValue = Absent | Single(text: string) | Many(texts: seq<string>)

  /** The address query as the page reads it. */
  datatype UrlQuery = UrlQuery(q: QueryValue, location: QueryValue, isOnline: QueryValue, startDate: QueryValue)

  /** The search box and the three filters; each is text, empty when unset. */
  datatype SearchValues = SearchValues(q: string, location: string, isOnline: string, startDate: string)

  /** `stateValue || (typeof url === 'string' ? url : '')` */
  function Effective(stateValue: string, url: QueryValue): (v: string)
    ensures stateValue != "" ==> v == stateValue
    ensures stateValue == "" && url.Single? ==> v == url.text
    ensures stateValue == "" && !url.Single? ==> v == ""
  {
    if stateValue != "" then stateValue else if url.Single? then url.text else ""
  }

  /** The value the page uses for each field: what the form holds, or else the address's text. */
  function EffectiveValues(state: SearchValues, url: UrlQuery): SearchValues
  {
    SearchValues(Effective(state.q, url.q), Effective(state.location, url.location),
                 Effective(state.isOnline, url.isOnline), Effective(state.startDate, url.startDate))
  }

  /** The request parameters for some values: one entry per non-empty value, under its query key. */
  function NonEmptyEntries(v: SearchValues): (params: map<string, string>)
    ensures Q_KEY in params <==> v.q != ""
    ensures LOCATION_KEY in params <==> v.location != ""
    ensures IS_ONLINE_KEY in params <==> v.isOnline != ""
    ensures START_DATE_KEY in params <==> v.startDate != ""
    ensures params.Keys <= {Q_KEY, LOCATION_KEY, IS_ONLINE_KEY, START_DATE_KEY}
    ensures forall k :: k in params ==> params[k] != ""
    ensures Q_KEY in params ==> params[Q_KEY] == v.q
    ensures LOCATION_KEY in params ==> params[LOCATION_KEY] == v.location
    ensures IS_ONLINE_KEY in params ==> params[IS_ONLINE_KEY] == v.isOnline
    ensures START_DATE_KEY in params ==> params[START_DATE_KEY] == v.startDate
  {
    WithNonEmpty(WithNonEmpty(WithNonEmpty(WithNonEmpty(map[], Q_KEY, v.q), LOCATION_KEY, v.location),
                              IS_ONLINE_KEY, v.isOnline), START_DATE_KEY, v.startDate)
  }

  /** `if (value) params[key] = value` */
  function WithNonEmpty(params: map<string, string>, key: string, value: string): (r: map<string, string>)
    ensures value == "" ==> r == params
    ensures value != "" ==> r == params[key := value]
  {
    if value != "" then params[key := value] else params
  }

  /**
   * Assembles the search request's parameters the way the page does, one
   * conditional assignment per field: each field's effective value, sent only
   * when it is not empty.
   */
  method FetchParams(state: SearchValues, url: UrlQuery) returns (params: map<string, string>)
    ensures params == NonEmptyEntries(EffectiveValues(state, url))
  {
    var queryValue := Effective(state.q, url.q);
    var locationValue := Effective(state.location, url.location);
    var isOnlineValue := Effective(state.isOnline, url.isOnline);
    var startDateValue := Effective(state.startDate, url.startDate);
    params := map[];
    if queryValue != "" {
      params := params[Q_KEY := queryValue];
    }
    if locationValue != "" {
      params := params[LOCATION_KEY := locationValue];
    }
    if isOnlineValue != "" {
      params := params[IS_ONLINE_KEY := isOnlineValue];
    }
    if startDateValue != "" {
      params := params[START_DATE_KEY := startDateValue];
    }
  }

  /** The address query a submitted search navigates to: the box and all three filters, empty ones too. */
  function SearchPayload(state: SearchValues): (query: map<string, string>)
    ensures query.Keys == {Q_KEY, LOCATION_KEY, IS_ONLINE_KEY, START_DATE_KEY}
    ensures query[Q_KEY] == state.q && query[LOCATION_KEY] == state.location
    ensures query[IS_ONLINE_KEY] == state.isOnline && query[START_DATE_KEY] == state.startDate
  {
    map[Q_KEY := state.q, LOCATION_KEY := state.location, IS_ONLINE_KEY := state.isOnline,
        START_DATE_KEY := state.startDate]
  }

  /** How the page reads back an address query it navigated to: each key as a single text. */
  function ReadUrl(query: map<string, string>): UrlQuery
  {
    UrlQuery(SingleOrAbsent(query, Q_KEY), SingleOrAbsent(query, LOCATION_KEY),
             SingleOrAbsent(query, IS_ONLINE_KEY), SingleOrAbsent(query, START_DATE_KEY))
  }

  function SingleOrAbsent(query: map<string, string>, key: string): QueryValue
  {
    if key in query then Single(query[key]) else Absent
  }

  /**
   * A submitted search round-trips: with the form unchanged, the request made
   * for the address it navigates to carries exactly the form's non-empty fields.
   */
  lemma SubmittedSearchRequestsForm(state: SearchValues)
    ensures EffectiveValues(state, ReadUrl(SearchPayload(state))) == state
    ensures NonEmptyEntries(EffectiveValues(state, ReadUrl(SearchPayload(state)))) == NonEmptyEntries(state)
  {
    var url := ReadUrl(SearchPayload(state));
    assert url.q == Single(state.q) && url.location == Single(state.location);
    assert url.isOnline == Single(state.isOnline) && url.startDate == Single(state.startDate);
  }

  /** A field the form leaves empty falls back to the address, but only to a single text. */
  lemma EmptyFormFollowsAddress(url: UrlQuery)
    ensures var v := EffectiveValues(SearchValues("", "", "", ""), url);
            && (v.q != "" <==> url.q.Single? && url.q.text != "")
            && (v.location != "" <==> url.location.Single? && url.location.text != "")
            && (v.isOnline != "" <==> url.isOnline.Single? && url.isOnline.text != "")
            && (v.startDate != "" <==> url.startDate.Single? && url.startDate.text != "")
  {
  }

  const GRADIENTS := ["from-pink-500 to-rose-500", "from-blue-400 to-indigo-500",
                      "from-emerald-400 to-cyan-500", "from-orange-400 to-red-500",
                      "from-purple-500 to-violet-500"]

  /** JavaScript's charCodeAt(0) for a text starting with c: the first UTF-16 code unit of c. */
  function FirstCodeUnit(c: char): (u: nat)
    ensures u < 0x1_0000
    ensures (c as int) < 0x1_0000 ==> u == c as int
    ensures (c as int) >= 0x1_0000 ==> 0xD800 <= u < 0xDC00
  {
    var n := c as int;
    if n < 0x1_0000 then n else 0xD800 + (n - 0x1_0000) / 0x400
  }

  /** The card gradient for an event id; for the empty id the list is indexed with NaN, giving no value. */
  function GetGradient(id: string): (g: Option<string>)
    ensures g.None? <==> id == []
    ensures g.Some? ==> g.value in GRADIENTS
  {
    if id == [] then None else Some(GRADIENTS[FirstCodeUnit(id[0]) % |GRADIENTS|])
  }

  /** Ids sharing their first character share their gradient. */
  lemma GradientByFirstChar(a: string, b: string)
    requires a != [] && b != [] && a[0] == b[0]
    ensures GetGradient(a) == GetGradient(b)
  {
  }

  /** For an id starting with a character of the Basic Multilingual Plane, the gradient is its code modulo 5. */
  lemma GradientOfBasicChar(id: string)
    requires id != [] && (id[0] as int) < 0x1_0000
    ensures GetGradient(id) == Some(GRADIENTS[(id[0] as int) % 5])
  {
  }
}
