/**
 * Building the URL a request is sent to (`buildFullURL`): resolve the request
 * URL (against `baseURL` unless it is absolute), then append the query pairs
 * of `params` after whatever query the URL already had. The pairs come from a
 * `URLSearchParams` as is, else from the caller's serializer, else from the
 * default serializer. Any fault becomes a URL_BUILD_ERROR.
 */
module UrlBuilder {
  import opened Wrappers
  import opened Types

  /** The case-sensitive prefix test `isAbsoluteURL`. */
  predicate IsAbsoluteURL(url: string) {
    "https://" <= url || "http://" <= url
  }

  /** `URLSearchParams.set`: replace the first pair named `key`, drop the later ones, or append. */
  function SearchParamsSet(ps: seq<Pair>, key: string, value: string): seq<Pair> {
    if ps == [] then [(key, value)]
    else if ps[0].0 == key then [(key, value)] + RemoveKey(ps[1..], key)
    else [ps[0]] + SearchParamsSet(ps[1..], key, value)
  }

  function RemoveKey(ps: seq<Pair>, key: string): seq<Pair> {
    if ps == [] then []
    else if ps[0].0 == key then RemoveKey(ps[1..], key)
    else [ps[0]] + RemoveKey(ps[1..], key)
  }

  /** One `append(key, String(v))` per array element that is neither null nor undefined. */
  function AppendItems(ps: seq<Pair>, key: string, items: seq<Option<string>>): seq<Pair>
    decreases |items|
  {
    if items == [] then ps
    else AppendItems(if items[0].Some? then ps + [(key, items[0].value)] else ps, key, items[1..])
  }

  /** The default serializer's step for one record entry. */
  function SerializeEntry(ps: seq<Pair>, key: string, value: ParamValue): seq<Pair> {
    match value
    case Nullish => ps
    case List(items) => AppendItems(ps, key, items)
    case Scalar(text) => SearchParamsSet(ps, key, text)
  }

  /** `defaultSerializeParams`: the entries visited in order, starting from no pairs. */
  function DefaultSerializeParams(entries: seq<(string, ParamValue)>): seq<Pair>
    decreases |entries|
  {
    if entries == [] then []
    else
      var last := entries[|entries| - 1];
      SerializeEntry(DefaultSerializeParams(entries[..|entries| - 1]), last.0, last.1)
  }

  /** The strings of the elements that are neither null nor undefined, in order. */
  function NonNullish(items: seq<Option<string>>): seq<string> {
    if items == [] then []
    else (if items[0].Some? then [items[0].value] else []) + NonNullish(items[1..])
  }

  /** The values one record entry contributes to the query. */
  function EntryValues(value: ParamValue): seq<string> {
    match value
    case Nullish => []
    case List(items) => NonNullish(items)
    case Scalar(text) => [text]
  }

  /** The values of the pairs named `key`, in order. */
  function ValuesFor(ps: seq<Pair>, key: string): seq<string> {
    if ps == [] then []
    else (if ps[0].0 == key then [ps[0].1] else []) + ValuesFor(ps[1..], key)
  }

  /** A record's keys are distinct, as the own property names of one object are. */
  predicate DistinctKeys(entries: seq<(string, ParamValue)>) {
    forall i, j :: 0 <= i < j < |entries| ==> entries[i].0 != entries[j].0
  }

  /** The value of the entry carrying key `k`, if there is one. */
  function EntryFor(entries: seq<(string, ParamValue)>, k: string): Option<ParamValue>
    decreases |entries|
  {
    if entries == [] then None
    else if entries[|entries| - 1].0 == k then Some(entries[|entries| - 1].1)
    else EntryFor(entries[..|entries| - 1], k)
  }

  lemma {:induction false} ValuesForConcat(a: seq<Pair>, b: seq<Pair>, key: string)
    ensures ValuesFor(a + b, key) == ValuesFor(a, key) + ValuesFor(b, key)
    decreases |a|
  {
    if a == [] {
      assert a + b == b;
    } else {
      assert (a + b)[0] == a[0];
      assert (a + b)[1..] == a[1..] + b;
      ValuesForConcat(a[1..], b, key);
    }
  }

  /** Setting a key no pair carries yet appends exactly one pair. */
  lemma {:induction false} SetNewKeyAppends(ps: seq<Pair>, key: string, value: string)
    requires ValuesFor(ps, key) == []
    ensures SearchParamsSet(ps, key, value) == ps + [(key, value)]
    decreases |ps|
  {
    if ps != [] {
      SetNewKeyAppends(ps[1..], key, value);
      assert ps == [ps[0]] + ps[1..];
    }
  }

  /** Appending the elements of an array adds one pair per present element, under its key. */
  lemma {:induction false} AppendItemsValues(ps: seq<Pair>, key: string, items: seq<Option<string>>, k: string)
    ensures ValuesFor(AppendItems(ps, key, items), k) ==
      ValuesFor(ps, k) + (if k == key then NonNullish(items) else [])
    decreases |items|
  {
    if items != [] {
      var ps' := if items[0].Some? then ps + [(key, items[0].value)] else ps;
      AppendItemsValues(ps', key, items[1..], k);
      if items[0].Some? {
        ValuesForConcat(ps, [(key, items[0].value)], k);
        assert ValuesFor([(key, items[0].value)], k) == (if k == key then [items[0].value] else []) + ValuesFor([], k);
      }
    }
  }

  /** A key that no entry before the last carries is not found among them. */
  lemma {:induction false} EntryForMissing(entries: seq<(string, ParamValue)>, k: string)
    requires forall i :: 0 <= i < |entries| ==> entries[i].0 != k
    ensures EntryFor(entries, k).None?
    decreases |entries|
  {
    if entries != [] {
      EntryForMissing(entries[..|entries| - 1], k);
    }
  }

  /**
   * With distinct record keys, each entry adds to the query exactly the values
   * it holds under its own key: nothing for null or undefined, one pair per
   * present array element in element order, one pair for a scalar. A key no
   * entry carries gets no pair.
   */
  lemma {:induction false} DefaultSerializeValues(entries: seq<(string, ParamValue)>, k: string)
    requires DistinctKeys(entries)
    ensures ValuesFor(DefaultSerializeParams(entries), k) ==
      if EntryFor(entries, k).Some? then EntryValues(EntryFor(entries, k).value) else []
    decreases |entries|
  {
    if entries != [] {
      var init := entries[..|entries| - 1];
      var last := entries[|entries| - 1];
      var acc := DefaultSerializeParams(init);
      assert DistinctKeys(init);
      DefaultSerializeValues(init, k);
      DefaultSerializeValues(init, last.0);
      EntryForMissing(init, last.0);
      match last.1
      case Nullish =>
      case List(items) =>
        AppendItemsValues(acc, last.0, items, k);
      case Scalar(text) =>
        SetNewKeyAppends(acc, last.0, text);
        ValuesForConcat(acc, [(last.0, text)], k);
        assert ValuesFor([(last.0, text)], k) == (if k == last.0 then [text] else []) + ValuesFor([], k);
    }
  }

  lemma {:induction false} EntryForDistinct(entries: seq<(string, ParamValue)>, j: nat)
    requires DistinctKeys(entries)
    requires j < |entries|
    ensures EntryFor(entries, entries[j].0) == Some(entries[j].1)
    decreases |entries|
  {
    if j < |entries| - 1 {
      var init := entries[..|entries| - 1];
      assert init[j] == entries[j];
      assert DistinctKeys(init);
      EntryForDistinct(init, j);
    }
  }

  /** An array-valued key with N present elements appears exactly N times, in element order. */
  lemma ArrayKeyOccurrences(entries: seq<(string, ParamValue)>, j: nat)
    requires DistinctKeys(entries)
    requires j < |entries| && entries[j].1.List?
    ensures ValuesFor(DefaultSerializeParams(entries), entries[j].0) == NonNullish(entries[j].1.items)
    ensures |ValuesFor(DefaultSerializeParams(entries), entries[j].0)| == |NonNullish(entries[j].1.items)|
  {
    DefaultSerializeValues(entries, entries[j].0);
    EntryForDistinct(entries, j);
  }

  function UrlBuildMessage(): string {
    "유효하지 않은 URL 형식입니다."
  }

  /** The URL_BUILD_ERROR wrapping a fault: no response, no status, the fault as cause. */
  function UrlBuildFailure(cause: Fault): ClientError {
    ClientError(UrlBuildMessage(), UrlBuildError, None, None, FaultCause(cause))
  }

  /** `new URL(url)` for an absolute URL, `new URL(url, baseURL)` otherwise. */
  function Resolve(host: Host, url: string, baseURL: Option<string>): Result<Url, Fault> {
    if IsAbsoluteURL(url) then host.resolve(url, None) else host.resolve(url, baseURL)
  }

  /** The pairs `params` contributes: verbatim, by the caller's serializer, or by the default one. */
  function QueryPairs(host: Host, params: Params, serializer: Option<SerializerRef>): Result<seq<Pair>, Fault> {
    match params
    case SearchParams(ps) => Ok(ps)
    case ParamsRecord(entries) =>
      if serializer.Some? then host.serializeWith(serializer.value, entries)
      else Ok(DefaultSerializeParams(entries))
  }

  /** `buildFullURL(requestURL, baseURL, params, paramsSerializer)`. */
  function BuildFullURL(host: Host, url: string, baseURL: Option<string>, params: Option<Params>,
                        serializer: Option<SerializerRef>): (r: Result<Url, ClientError>)
    ensures r.Err? ==> r.error.kind == UrlBuildError && r.error.response.None? && r.error.status.None?
                       && r.error.cause.FaultCause? && r.error.message == UrlBuildMessage()
    ensures Resolve(host, url, baseURL).Err? ==> r == Err(UrlBuildFailure(Resolve(host, url, baseURL).error))
    ensures r.Ok? ==> Resolve(host, url, baseURL).Ok?
                      && r.value.location == Resolve(host, url, baseURL).value.location
                      && Resolve(host, url, baseURL).value.query <= r.value.query
    ensures params.None? && Resolve(host, url, baseURL).Ok? ==> r == Ok(Resolve(host, url, baseURL).value)
  {
    match Resolve(host, url, baseURL)
    case Err(f) => Err(UrlBuildFailure(f))
    case Ok(u) =>
      if params.None? then Ok(u)
      else
        match QueryPairs(host, params.value, serializer)
        case Err(f) => Err(UrlBuildFailure(f))
        case Ok(ps) => Ok(Url(u.location, u.query + ps))
  }

  /** For an absolute request URL the base URL plays no part. */
  lemma AbsoluteIgnoresBase(host: Host, url: string, base1: Option<string>, base2: Option<string>,
                            params: Option<Params>, serializer: Option<SerializerRef>)
    requires IsAbsoluteURL(url)
    ensures BuildFullURL(host, url, base1, params, serializer) == BuildFullURL(host, url, base2, params, serializer)
  {
  }

  /**
   * Params precedence: a `URLSearchParams` is used verbatim (a serializer is
   * ignored), a record goes to the caller's serializer when there is one and
   * to the default serializer otherwise; the pairs are appended after the
   * URL's own query, and a fault of the serializer is wrapped as URL_BUILD_ERROR.
   */
  lemma ParamsPrecedence(host: Host, url: string, baseURL: Option<string>, params: Params,
                         serializer: Option<SerializerRef>)
    requires Resolve(host, url, baseURL).Ok?
    ensures var u := Resolve(host, url, baseURL).value;
      && (params.SearchParams? ==>
            BuildFullURL(host, url, baseURL, Some(params), serializer) == Ok(Url(u.location, u.query + params.pairs)))
      && (params.ParamsRecord? && serializer.None? ==>
            BuildFullURL(host, url, baseURL, Some(params), serializer)
              == Ok(Url(u.location, u.query + DefaultSerializeParams(params.entries))))
      && (params.ParamsRecord? && serializer.Some? && host.serializeWith(serializer.value, params.entries).Ok? ==>
            BuildFullURL(host, url, baseURL, Some(params), serializer)
              == Ok(Url(u.location, u.query + host.serializeWith(serializer.value, params.entries).value)))
      && (params.ParamsRecord? && serializer.Some? && host.serializeWith(serializer.value, params.entries).Err? ==>
            BuildFullURL(host, url, baseURL, Some(params), serializer)
              == Err(UrlBuildFailure(host.serializeWith(serializer.value, params.entries).error)))
  {
  }

  /**
   * GET "/users" against base "https://api.example.com" with params
   * `{id: [1, 2]}` and no serializer asks the resolver once and ends in the
   * query `id=1&id=2`.
   */
  lemma UsersScenario(host: Host)
    requires host.resolve("/users", Some("https://api.example.com")) == Ok(Url("https://api.example.com/users", []))
    ensures BuildFullURL(host, "/users", Some("https://api.example.com"),
                         Some(ParamsRecord([("id", List([Some("1"), Some("2")]))])), None)
            == Ok(Url("https://api.example.com/users", [("id", "1"), ("id", "2")]))
  {
    var entries := [("id", List([Some("1"), Some("2")]))];
    assert !IsAbsoluteURL("/users") by {
      assert "/users"[0] != "https://"[0] && "/users"[0] != "http://"[0];
    }
    var items := [Some("1"), Some("2")];
    assert entries[..0] == [];
    assert DefaultSerializeParams(entries) == AppendItems([], "id", items);
    assert items[1..] == [Some("2")];
    assert AppendItems([], "id", items) == AppendItems([("id", "1")], "id", [Some("2")]);
    assert [Some("2")][1..] == [];
    assert AppendItems([("id", "1")], "id", [Some("2")]) == [("id", "1"), ("id", "2")];
    var base := Some("https://api.example.com");
    assert Resolve(host, "/users", base) == Ok(Url("https://api.example.com/users", []));
    assert QueryPairs(host, ParamsRecord(entries), None) == Ok([("id", "1"), ("id", "2")]);
    assert [] + [("id", "1"), ("id", "2")] == [("id", "1"), ("id", "2")];
  }
}
