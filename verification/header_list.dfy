/**
 * The host's `Headers` collection as the request pipeline uses it: a list of
 * (name, value) entries whose names are compared after ASCII lower-casing
 * (the byte-lowercase rule of section 2.2.2 of the WHATWG Fetch Standard).
 * `Get` joins the values of a repeated name with ", ", `Set` replaces the
 * first entry of a name and drops the others (or appends), `Append` adds at
 * the end, and iterating a `Headers` object yields one combined entry per name.
 */
module HeaderList {
  import opened Wrappers

  /** One (name, value) entry of a header list or of a header source. */
  type Entry = (string, string)

  datatype Headers = Headers(entries: seq<Entry>)

  const Empty: Headers := Headers([])

  /** The three shapes a `HeadersInit` may take. */
  datatype HeaderSource =
    | Instance(headers: Headers)     // a `Headers` object
    | PairList(pairs: seq<Entry>)    // an array of [name, value] pairs
    | Record(fields: seq<Entry>)     // a plain object, in property order

  function LowerChar(c: char): char {
    if 'A' <= c <= 'Z' then (c as int + 32) as char else c
  }

  /** The byte-lowercase of a header name. */
  function LowerName(s: string): (r: string)
    ensures |r| == |s|
  {
    seq(|s|, i requires 0 <= i < |s| => LowerChar(s[i]))
  }

  lemma LowerNameIdempotent(s: string)
    ensures LowerName(LowerName(s)) == LowerName(s)
  {
    var t := LowerName(s);
    assert forall i :: 0 <= i < |t| ==> LowerName(t)[i] == t[i];
  }

  /** The values of the entries of `es` whose name folds to `key`, in list order. */
  function ValuesOf(es: seq<Entry>, key: string): (vs: seq<string>)
    ensures |vs| <= |es|
    ensures vs != [] ==> LowerName(key) == key
  {
    if es == [] then []
    else
      LowerNameIdempotent(es[0].0);
      (if LowerName(es[0].0) == key then [es[0].1] else []) + ValuesOf(es[1..], key)
  }

  /** Values combined the way a header list combines a repeated name. */
  function Join(vs: seq<string>): string {
    if |vs| == 0 then ""
    else if |vs| == 1 then vs[0]
    else vs[0] + ", " + Join(vs[1..])
  }

  function Get(h: Headers, name: string): Option<string> {
    var vs := ValuesOf(h.entries, LowerName(name));
    if vs == [] then None else Some(Join(vs))
  }

  predicate Has(h: Headers, name: string) {
    ValuesOf(h.entries, LowerName(name)) != []
  }

  function Append(h: Headers, name: string, value: string): Headers {
    Headers(h.entries + [(LowerName(name), value)])
  }

  /** `es` without the entries whose name folds to `key`. */
  function RemoveAll(es: seq<Entry>, key: string): (r: seq<Entry>)
    ensures |r| <= |es|
  {
    if es == [] then []
    else if LowerName(es[0].0) == key then RemoveAll(es[1..], key)
    else [es[0]] + RemoveAll(es[1..], key)
  }

  /** Replaces the first entry named `key` and drops the later ones, or appends. */
  function SetIn(es: seq<Entry>, key: string, value: string): seq<Entry> {
    if es == [] then [(key, value)]
    else if LowerName(es[0].0) == key then [(key, value)] + RemoveAll(es[1..], key)
    else [es[0]] + SetIn(es[1..], key, value)
  }

  function Set(h: Headers, name: string, value: string): Headers {
    Headers(SetIn(h.entries, LowerName(name), value))
  }

  /**
   * The entries a `Headers` object yields when iterated: one per distinct
   * folded name, its values joined. The host sorts them by name; the model
   * keeps first-occurrence order, which no lookup can tell apart.
   */
  function Combined(es: seq<Entry>): seq<Entry>
    decreases |es|
  {
    if es == [] then []
    else
      var k := LowerName(es[0].0);
      [(k, Join(ValuesOf(es, k)))] + Combined(RemoveAll(es[1..], k))
  }

  /** The entries a header source contributes, in the order they are visited. */
  function Entries(src: HeaderSource): seq<Entry> {
    match src
    case Instance(h) => Combined(h.entries)
    case PairList(ps) => ps
    case Record(fs) => fs
  }

  /** `Set` applied to every entry of `es`, left to right. */
  function SetAll(h: Headers, es: seq<Entry>): Headers
    decreases |es|
  {
    if es == [] then h else SetAll(Set(h, es[0].0, es[0].1), es[1..])
  }

  /** `Append` applied to every entry of `es`, left to right. */
  function AppendAll(h: Headers, es: seq<Entry>): Headers
    decreases |es|
  {
    if es == [] then h else AppendAll(Append(h, es[0].0, es[0].1), es[1..])
  }

  /** `new Headers(init)`: an empty list filled by appending the source's entries. */
  function HeadersFrom(init: Option<HeaderSource>): Headers {
    if init.None? then Empty else AppendAll(Empty, Entries(init.value))
  }

  /** The value the last entry of `es` with the folded name `k` carries, if any. */
  function LastValue(es: seq<Entry>, k: string): Option<string> {
    var vs := ValuesOf(es, k);
    if vs == [] then None else Some(vs[|vs| - 1])
  }

  /** The value the last entry of `es` named like `name` carries, if any. */
  function LastFor(es: seq<Entry>, name: string): Option<string> {
    LastValue(es, LowerName(name))
  }

  // ---------------------------------------------------------------------------
  // Laws of the header list

  lemma {:induction false} ValuesOfConcat(a: seq<Entry>, b: seq<Entry>, key: string)
    ensures ValuesOf(a + b, key) == ValuesOf(a, key) + ValuesOf(b, key)
    decreases |a|
  {
    if a == [] {
      assert a + b == b;
    } else {
      assert (a + b)[0] == a[0];
      assert (a + b)[1..] == a[1..] + b;
      ValuesOfConcat(a[1..], b, key);
    }
  }

  lemma {:induction false} RemoveAllValues(es: seq<Entry>, key: string, k: string)
    ensures ValuesOf(RemoveAll(es, key), k) == if k == key then [] else ValuesOf(es, k)
    decreases |es|
  {
    if es != [] {
      RemoveAllValues(es[1..], key, k);
      if LowerName(es[0].0) != key {
        assert ([es[0]] + RemoveAll(es[1..], key))[1..] == RemoveAll(es[1..], key);
      }
    }
  }

  /** After `SetIn`, the key carries exactly the new value and no other name moves. */
  lemma {:induction false} SetInValues(es: seq<Entry>, key: string, value: string, k: string)
    requires LowerName(key) == key
    ensures ValuesOf(SetIn(es, key, value), k) == if k == key then [value] else ValuesOf(es, k)
    decreases |es|
  {
    if es == [] {
      assert ValuesOf([(key, value)], k) == (if key == k then [value] else []) + ValuesOf([], k);
    } else if LowerName(es[0].0) == key {
      var r := [(key, value)] + RemoveAll(es[1..], key);
      assert r[1..] == RemoveAll(es[1..], key);
      RemoveAllValues(es[1..], key, k);
    } else {
      var r := [es[0]] + SetIn(es[1..], key, value);
      assert r[1..] == SetIn(es[1..], key, value);
      SetInValues(es[1..], key, value, k);
    }
  }

  /** `Set` makes a name read back as exactly the value set; other names read as before. */
  lemma SetGet(h: Headers, name: string, value: string, other: string)
    ensures Get(Set(h, name, value), other) ==
      if LowerName(other) == LowerName(name) then Some(value) else Get(h, other)
  {
    LowerNameIdempotent(name);
    SetInValues(h.entries, LowerName(name), value, LowerName(other));
  }

  /** Iterating a `Headers` object yields, per name, one entry holding the joined values. */
  lemma {:induction false} CombinedValues(es: seq<Entry>, k: string)
    ensures ValuesOf(Combined(es), k) ==
      if ValuesOf(es, k) == [] then [] else [Join(ValuesOf(es, k))]
    decreases |es|
  {
    if es != [] {
      var k0 := LowerName(es[0].0);
      LowerNameIdempotent(es[0].0);
      var rest := RemoveAll(es[1..], k0);
      var c := [(k0, Join(ValuesOf(es, k0)))] + Combined(rest);
      assert c[0] == (k0, Join(ValuesOf(es, k0)));
      assert c[1..] == Combined(rest);
      assert ValuesOf(c, k) == (if k0 == k then [Join(ValuesOf(es, k0))] else []) + ValuesOf(Combined(rest), k);
      CombinedValues(rest, k);
      RemoveAllValues(es[1..], k0, k);
      assert ValuesOf(es, k) == (if k0 == k then [es[0].1] else []) + ValuesOf(es[1..], k);
      if k == k0 {
        assert ValuesOf(rest, k) == [];
        assert ValuesOf(Combined(rest), k) == [];
        assert ValuesOf(es, k) != [];
      } else {
        assert ValuesOf(rest, k) == ValuesOf(es[1..], k) == ValuesOf(es, k);
      }
    }
  }

  /** Setting every entry in turn leaves each name with the last value the entries give it. */
  lemma {:induction false} SetAllValues(h: Headers, es: seq<Entry>, k: string)
    ensures ValuesOf(SetAll(h, es).entries, k) ==
      var vs := ValuesOf(es, k);
      if vs != [] then [vs[|vs| - 1]] else ValuesOf(h.entries, k)
    decreases |es|
  {
    if es != [] {
      var h' := Set(h, es[0].0, es[0].1);
      SetAllValues(h', es[1..], k);
      LowerNameIdempotent(es[0].0);
      SetInValues(h.entries, LowerName(es[0].0), es[0].1, k);
    }
  }

  /** Appending every entry in turn keeps every value, in order. */
  lemma {:induction false} AppendAllValues(h: Headers, es: seq<Entry>, k: string)
    ensures ValuesOf(AppendAll(h, es).entries, k) == ValuesOf(h.entries, k) + ValuesOf(es, k)
    decreases |es|
  {
    if es != [] {
      var h' := Append(h, es[0].0, es[0].1);
      AppendAllValues(h', es[1..], k);
      LowerNameIdempotent(es[0].0);
      ValuesOfConcat(h.entries, [(LowerName(es[0].0), es[0].1)], k);
      assert ValuesOf([(LowerName(es[0].0), es[0].1)], k) == ValuesOf([es[0]], k);
      ValuesOfConcat([es[0]], es[1..], k);
      assert [es[0]] + es[1..] == es;
    }
  }

  /** `new Headers(init)` reads back every value the source gives a name, joined in source order. */
  lemma HeadersFromGet(init: HeaderSource, name: string)
    ensures Get(HeadersFrom(Some(init)), name) ==
      var vs := ValuesOf(Entries(init), LowerName(name));
      if vs == [] then None else Some(Join(vs))
  {
    AppendAllValues(Empty, Entries(init), LowerName(name));
    assert ValuesOf(Empty.entries, LowerName(name)) == [];
    assert HeadersFrom(Some(init)) == AppendAll(Empty, Entries(init));
    assert [] + ValuesOf(Entries(init), LowerName(name)) == ValuesOf(Entries(init), LowerName(name));
  }

  /** Copying a `Headers` object into a new one preserves every lookup. */
  lemma CopyPreservesGet(h: Headers, name: string)
    ensures Get(HeadersFrom(Some(Instance(h))), name) == Get(h, name)
  {
    HeadersFromGet(Instance(h), name);
    CombinedValues(h.entries, LowerName(name));
  }

  /** Iterating a `Headers` object and reading the last entry per name gives `Get`. */
  lemma InstanceLastFor(h: Headers, name: string)
    ensures LastFor(Entries(Instance(h)), name) == Get(h, name)
  {
    CombinedValues(h.entries, LowerName(name));
  }
}
