/**
 * Merging per-call options with the client defaults (`mergeConfig`), and the
 * header merge under it (`mergeHeaders`): every source is poured, entry by
 * entry, into a fresh header list with `Set`, so a later source wins a
 * shared name. The options come first and the defaults last.
 */
module ConfigMerge {
  import opened Wrappers
  import opened HeaderList
  import opened Types

  /** `mergeHeaders(...sources)`: absent sources are skipped, the others set in order. */
  function MergeHeaders(sources: seq<Option<HeaderSource>>): Headers {
    MergeInto(Empty, sources)
  }

  function MergeInto(h: Headers, sources: seq<Option<HeaderSource>>): Headers
    decreases |sources|
  {
    if sources == [] then h
    else
      var h' := if sources[0].None? then h else SetAll(h, Entries(sources[0].value));
      MergeInto(h', sources[1..])
  }

  /** The value one source gives a (folded) name: the last of its entries with that name. */
  function SourceLast(src: Option<HeaderSource>, k: string): Option<string> {
    if src.None? then None else LastValue(Entries(src.value), k)
  }

  /** The value the latest source mentioning a (folded) name gives it. */
  function LastAcross(sources: seq<Option<HeaderSource>>, k: string): Option<string>
    decreases |sources|
  {
    if sources == [] then None
    else
      var later := LastAcross(sources[1..], k);
      if later.Some? then later else SourceLast(sources[0], k)
  }

  /** The value a header source gives `name`, compared case-insensitively. */
  function SourceValue(src: Option<HeaderSource>, name: string): Option<string> {
    SourceLast(src, LowerName(name))
  }

  /** A source that is a `Headers` object gives each name the value its `get` reads. */
  lemma InstanceSourceValue(h: Headers, name: string)
    ensures SourceValue(Some(Instance(h)), name) == Get(h, name)
  {
    InstanceLastFor(h, name);
  }

  lemma {:induction false} MergeIntoValues(h: Headers, sources: seq<Option<HeaderSource>>, k: string)
    ensures ValuesOf(MergeInto(h, sources).entries, k) ==
      match LastAcross(sources, k)
      case Some(v) => [v]
      case None => ValuesOf(h.entries, k)
    decreases |sources|
  {
    if sources != [] {
      var h' := if sources[0].None? then h else SetAll(h, Entries(sources[0].value));
      MergeIntoValues(h', sources[1..], k);
      if sources[0].Some? {
        SetAllValues(h, Entries(sources[0].value), k);
      }
    }
  }

  /** Merged headers hold every name at most once, and the latest source mentioning it decides its value. */
  lemma MergedHeadersLaw(sources: seq<Option<HeaderSource>>)
    ensures forall k :: |ValuesOf(MergeHeaders(sources).entries, k)| <= 1
    ensures forall name :: Get(MergeHeaders(sources), name) == LastAcross(sources, LowerName(name))
  {
    forall k
      ensures |ValuesOf(MergeHeaders(sources).entries, k)| <= 1
    {
      MergeIntoValues(Empty, sources, k);
    }
    forall name
      ensures Get(MergeHeaders(sources), name) == LastAcross(sources, LowerName(name))
    {
      MergeIntoValues(Empty, sources, LowerName(name));
    }
  }

  /**
   * For the two sources `mergeConfig` passes, options first and defaults
   * last: a name the defaults set reads back with the DEFAULT value, any
   * other name with the value the options give it.
   */
  lemma DefaultHeaderWins(options: Option<HeaderSource>, defaults: Option<HeaderSource>, name: string)
    ensures Get(MergeHeaders([options, defaults]), name) ==
      if SourceValue(defaults, name).Some? then SourceValue(defaults, name) else SourceValue(options, name)
  {
    var k := LowerName(name);
    MergedHeadersLaw([options, defaults]);
    assert [options, defaults][1..] == [defaults];
    assert [defaults][1..] == [];
    assert LastAcross([defaults], k) == SourceLast(defaults, k);
    assert LastAcross([options, defaults], k) ==
      if SourceLast(defaults, k).Some? then SourceLast(defaults, k) else SourceLast(options, k);
  }

  /** The header law of `MergeConfig`, for every name at once. */
  lemma DefaultHeadersWinEverywhere(options: Option<HeaderSource>, defaults: Option<HeaderSource>)
    ensures forall k :: |ValuesOf(MergeHeaders([options, defaults]).entries, k)| <= 1
    ensures forall name :: Get(MergeHeaders([options, defaults]), name) ==
                            (if SourceValue(defaults, name).Some? then SourceValue(defaults, name) else SourceValue(options, name))
  {
    MergedHeadersLaw([options, defaults]);
    forall name
      ensures Get(MergeHeaders([options, defaults]), name) ==
        (if SourceValue(defaults, name).Some? then SourceValue(defaults, name) else SourceValue(options, name))
    {
      DefaultHeaderWins(options, defaults, name);
    }
  }

  /**
   * `mergeHeaders(options, defaults)`: a fresh `Headers` with one entry per
   * name, reading the default's value for a name the defaults set and the
   * options' value otherwise.
   */
  function MergedHeaders(options: Option<HeaderSource>, defaults: Option<HeaderSource>): (h: Headers)
    ensures forall k :: |ValuesOf(h.entries, k)| <= 1
    ensures forall name :: Get(h, name) ==
                            (if SourceValue(defaults, name).Some? then SourceValue(defaults, name) else SourceValue(options, name))
  {
    DefaultHeadersWinEverywhere(options, defaults);
    MergeHeaders([options, defaults])
  }

  /** `{...first, ...second}` on the pass-through keys: every key of either, the second winning. */
  function Spread(first: map<string, Opaque>, second: map<string, Opaque>): (r: map<string, Opaque>)
    ensures r.Keys == first.Keys + second.Keys
    ensures forall k :: k in second ==> r[k] == second[k]
    ensures forall k :: k in first && k !in second ==> r[k] == first[k]
  {
    first + second
  }

  /** `mergeConfig(requestOptions, defaultConfig)`: spread defaults, spread options, then the merged headers. */
  function MergeConfig(options: Config, defaults: Config): (r: Config)
    ensures options.baseURL.Present? ==> r.baseURL == options.baseURL
    ensures options.baseURL.Absent? ==> r.baseURL == defaults.baseURL
    ensures options.verb.Present? ==> r.verb == options.verb
    ensures options.verb.Absent? ==> r.verb == defaults.verb
    ensures options.body.Present? ==> r.body == options.body
    ensures options.body.Absent? ==> r.body == defaults.body
    ensures options.responseType.Present? ==> r.responseType == options.responseType
    ensures options.responseType.Absent? ==> r.responseType == defaults.responseType
    ensures options.params.Present? ==> r.params == options.params
    ensures options.params.Absent? ==> r.params == defaults.params
    ensures options.paramsSerializer.Present? ==> r.paramsSerializer == options.paramsSerializer
    ensures options.paramsSerializer.Absent? ==> r.paramsSerializer == defaults.paramsSerializer
    ensures r.rest == Spread(defaults.rest, options.rest)
    ensures r.headers == Present(Some(Instance(MergedHeaders(options.headers.Get(), defaults.headers.Get()))))
  {
    var merged := MergedHeaders(options.headers.Get(), defaults.headers.Get());
    Config(
      baseURL := if options.baseURL.Present? then options.baseURL else defaults.baseURL,
      headers := Present(Some(Instance(merged))),
      verb := if options.verb.Present? then options.verb else defaults.verb,
      body := if options.body.Present? then options.body else defaults.body,
      responseType := if options.responseType.Present? then options.responseType else defaults.responseType,
      params := if options.params.Present? then options.params else defaults.params,
      paramsSerializer := if options.paramsSerializer.Present? then options.paramsSerializer else defaults.paramsSerializer,
      rest := Spread(defaults.rest, options.rest))
  }
}
