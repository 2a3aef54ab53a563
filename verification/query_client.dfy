/**
  The client's URL building for data queries: the query-string builder
  `urlWithQuery` and the normalisation of a query key into a base URL and a
  parameter object.

  Percent-encoding is the job of the platform's form-urlencoded serializer
  (section 5.2 of the WHATWG URL Standard); here it is the parameter `enc`,
  applied to every name and every value.
*/
module QueryClient {

  /**
    A parameter value as `urlWithQuery` sees it. `Scalar` is any value that
    is neither a string nor an array (a number, a boolean, an object), given
    by its `String(v)` rendering; an array is given by the `String(vv)`
    rendering of each element.
  */
  datatype ParamValue = Undefined | Null | Str(s: string) | Scalar(shown: string) | Array(items: seq<string>)

  /**
    The second argument of `urlWithQuery`: absent or otherwise falsy, a
    truthy value that is not an object, or an object given by its entries in
    `Object.entries` order.
  */
  datatype ParamsArg = NoParams | NonObject | Params(entries: seq<(string, ParamValue)>)

  type Pair = (string, string)

  /** The pairs one entry contributes: none for an empty value, one per element for an array, else one. */
  function EntryPairs(key: string, v: ParamValue): (pairs: seq<Pair>)
    ensures v.Undefined? || v.Null? || v == Str("") ==> pairs == []
    ensures v.Array? ==> |pairs| == |v.items| && forall i :: 0 <= i < |pairs| ==> pairs[i] == (key, v.items[i])
    ensures v.Str? && v.s != "" ==> pairs == [(key, v.s)]
    ensures v.Scalar? ==> pairs == [(key, v.shown)]
  {
    match v
    case Undefined => []
    case Null => []
    case Str(s) => if s == "" then [] else [(key, s)]
    case Scalar(shown) => [(key, shown)]
    case Array(items) => seq(|items|, i requires 0 <= i < |items| => (key, items[i]))
  }

  /** `Object.entries(params).flatMap(...)`. */
  function Pairs(entries: seq<(string, ParamValue)>): seq<Pair> {
    if entries == [] then [] else EntryPairs(entries[0].0, entries[0].1) + Pairs(entries[1..])
  }

  /** `name=value`, both encoded. */
  function PairText(p: Pair, enc: string -> string): string {
    enc(p.0) + "=" + enc(p.1)
  }

  /** `new URLSearchParams(pairs).toString()`: the encoded pairs joined by `&`. */
  function Serialize(pairs: seq<Pair>, enc: string -> string): string {
    if pairs == [] then ""
    else if |pairs| == 1 then PairText(pairs[0], enc)
    else PairText(pairs[0], enc) + "&" + Serialize(pairs[1..], enc)
  }

  /** `urlWithQuery(base, params)`. */
  function UrlWithQuery(base: string, params: ParamsArg, enc: string -> string): (url: string)
    ensures !params.Params? ==> url == base
    ensures base <= url
    ensures url != base <==> params.Params? && Pairs(params.entries) != []
    ensures params.Params? && Pairs(params.entries) != [] ==> url == base + "?" + Serialize(Pairs(params.entries), enc)
  {
    match params
    case NoParams => base
    case NonObject => base
    case Params(entries) =>
      var pairs := Pairs(entries);
      if |pairs| == 0 then base else base + "?" + Serialize(pairs, enc)
  }

  /** Flattening distributes over the entries: the pairs keep the order of the entries. */
  lemma {:induction false} PairsConcat(a: seq<(string, ParamValue)>, b: seq<(string, ParamValue)>)
    ensures Pairs(a + b) == Pairs(a) + Pairs(b)
  {
    if a == [] {
      assert a + b == b;
    } else {
      assert (a + b)[0] == a[0];
      assert (a + b)[1..] == a[1..] + b;
      PairsConcat(a[1..], b);
    }
  }

  /** The pairs of a single entry are the entry's own pairs. */
  lemma PairsOfOne(key: string, v: ParamValue)
    ensures Pairs([(key, v)]) == EntryPairs(key, v)
  {
    assert [(key, v)][1..] == [];
  }

  /** Entries whose values are all empty contribute nothing, so the URL is exactly the base, without "?". */
  lemma {:induction false} AllEmptyIsBase(base: string, entries: seq<(string, ParamValue)>, enc: string -> string)
    requires forall i :: 0 <= i < |entries| ==> entries[i].1 in {Undefined, Null, Str(""), Array([])}
    ensures Pairs(entries) == []
    ensures UrlWithQuery(base, Params(entries), enc) == base
  {
    if entries != [] {
      AllEmptyIsBase(base, entries[1..], enc);
    }
  }

  /** Serialising two non-empty runs of pairs joins them with one `&`. */
  lemma {:induction false} SerializeConcat(a: seq<Pair>, b: seq<Pair>, enc: string -> string)
    requires a != [] && b != []
    ensures Serialize(a + b, enc) == Serialize(a, enc) + "&" + Serialize(b, enc)
  {
    if |a| == 1 {
      assert (a + b)[0] == a[0] && (a + b)[1..] == b;
    } else {
      assert (a + b)[0] == a[0] && (a + b)[1..] == a[1..] + b;
      SerializeConcat(a[1..], b, enc);
    }
  }

  // ---------------------------------------------------------------------------
  // Query-key normalisation

  /** An element of an array query key. */
  datatype KeyElement = KeyUndefined | KeyNull | KeyString(s: string) | KeyObject(entries: seq<(string, ParamValue)>) | KeyOther(shown: string)

  /** A query key: an array of elements, or a single value given by its `String()` rendering. */
  datatype QueryKey = KeyArray(elements: seq<KeyElement>) | KeyScalar(shown: string)

  /** `String(element)`; an absent element is `undefined`. */
  function ElementString(e: KeyElement): string {
    match e
    case KeyUndefined => "undefined"
    case KeyNull => "null"
    case KeyString(s) => s
    case KeyObject(_) => "[object Object]"
    case KeyOther(shown) => shown
  }

  /** `queryKey[1] ?? undefined`, as `urlWithQuery` then reads it. */
  function ElementParams(e: KeyElement): ParamsArg {
    match e
    case KeyUndefined => NoParams
    case KeyNull => NoParams
    case KeyString(s) => if s == "" then NoParams else NonObject
    case KeyObject(entries) => Params(entries)
    case KeyOther(_) => NonObject
  }

  /** The `[base, params]` a query key is normalised into. */
  function Normalize(key: QueryKey): (r: (string, ParamsArg))
    ensures key.KeyScalar? ==> r == (key.shown, NoParams)
    ensures key.KeyArray? && |key.elements| >= 1 ==> r.0 == ElementString(key.elements[0])
    ensures key.KeyArray? && |key.elements| <= 1 ==> r.1 == NoParams
    ensures key.KeyArray? && |key.elements| >= 2 ==> r.1 == ElementParams(key.elements[1])
  {
    match key
    case KeyScalar(shown) => (shown, NoParams)
    case KeyArray(elements) =>
      var base := if |elements| == 0 then "undefined" else ElementString(elements[0]);
      var params := if |elements| < 2 then NoParams else ElementParams(elements[1]);
      (base, params)
  }

  /** The URL a query fetches. */
  function QueryUrl(key: QueryKey, enc: string -> string): string {
    var (base, params) := Normalize(key);
    UrlWithQuery(base, params, enc)
  }

  /**
    A plain key and a one-element key fetch their text unchanged; a second
    element that is a string is not an object and is ignored; an object as
    second element supplies the parameters; elements after the second are
    ignored.
  */
  lemma QueryUrlCases(path: string, s: string, entries: seq<(string, ParamValue)>, rest: seq<KeyElement>, enc: string -> string)
    ensures QueryUrl(KeyScalar(path), enc) == path
    ensures QueryUrl(KeyArray([KeyString(path)]), enc) == path
    ensures QueryUrl(KeyArray([KeyString(path), KeyString(s)] + rest), enc) == path
    ensures QueryUrl(KeyArray([KeyString(path), KeyObject(entries)] + rest), enc) == UrlWithQuery(path, Params(entries), enc)
  {
  }
}
