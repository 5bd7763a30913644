/** The upload-signing endpoint POST /sign: it signs the allowed, non-empty
    upload parameters of the request body with the API secret and echoes
    the body's timestamp. */
module CloudinarySign {
  import opened Wrappers
  import opened Sorting

  /** A property value of the parsed body. `Other` is any remaining value
      (number, boolean, array, object) carried as the text a template
      literal renders it to. */
  datatype JsValue = Undefined | Null | Str(s: string) | Other(rendered: string)

  /** A plain object: its own keys in enumeration order, and their values. */
  datatype RawObject = RawObject(keys: seq<string>, values: map<string, JsValue>)

  /** An object lists each of its keys exactly once. */
  type JsObject = o: RawObject
    | (forall k :: multiset(o.keys)[k] <= 1) && (forall k :: k in o.keys <==> k in o.values)
    witness RawObject([], map[])

  /** What the endpoint answers: `signature`, `api_key` and `timestamp`
      (Undefined when the body has none; JSON output then omits it). */
  datatype SignResponse = SignResponse(signature: string, apiKey: string, timestamp: JsValue)

  const AllowedKeys: seq<string> := ["timestamp", "folder", "public_id", "eager"]

  /** The allowed keys in sorted order: the only order their pairs can take. */
  const CanonicalOrder: seq<string> := ["eager", "folder", "public_id", "timestamp"]

  /** Whether a value takes part: not undefined, not null, not ''. */
  predicate Included(v: JsValue) {
    v != Undefined && v != Null && v != Str("")
  }

  /** Whether key `k` contributes a pair to the signed string. */
  predicate Kept(values: map<string, JsValue>, k: string) {
    k in AllowedKeys && k in values && Included(values[k])
  }

  /** `${v}` */
  function Render(v: JsValue): string {
    match v
    case Undefined => "undefined"
    case Null => "null"
    case Str(s) => s
    case Other(t) => t
  }

  function Pair(k: string, v: JsValue): string {
    k + "=" + Render(v)
  }

  /** The pairs the forEach pushes while visiting `ks` in order. */
  function Pairs(values: map<string, JsValue>, ks: seq<string>): seq<string> {
    if ks == [] then []
    else
      var k := ks[|ks| - 1];
      Pairs(values, ks[..|ks| - 1]) + (if Kept(values, k) then [Pair(k, values[k])] else [])
  }

  /** Array.prototype.join: no separator before the first part or after the
      last. */
  function Join(parts: seq<string>, sep: string): (r: string)
    ensures parts == [] ==> r == ""
    ensures parts != [] ==> |r| == TotalLength(parts) + (|parts| - 1) * |sep|
    ensures parts != [] ==> |parts[0]| <= |r| && r[..|parts[0]|] == parts[0]
    ensures parts != [] ==> r[|r| - |parts[|parts| - 1]|..] == parts[|parts| - 1]
  {
    if |parts| <= 1 then (if parts == [] then "" else parts[0])
    else
      var n, front, last := |parts|, parts[..|parts| - 1], parts[|parts| - 1];
      var init := Join(front, sep);
      var r := init + sep + last;
      assert front[0] == parts[0];
      assert r[..|parts[0]|] == init[..|parts[0]|];
      assert r[|r| - |last|..] == last;
      assert (n - 1) * |sep| == (n - 2) * |sep| + |sep|;
      r
  }

  function TotalLength(parts: seq<string>): nat {
    if parts == [] then 0 else TotalLength(parts[..|parts| - 1]) + |parts[|parts| - 1]|
  }

  /** The string to sign, independent of the order the body lists its keys in:
      the kept pairs in sorted key order joined by "&". It is empty exactly
      when no allowed key holds an included value. */
  function CanonicalString(values: map<string, JsValue>): (r: string)
    ensures r == "" <==> forall k | k in AllowedKeys && k in values :: !Included(values[k])
  {
    PairsEmptyIff(values);
    Join(Pairs(values, CanonicalOrder), "&")
  }

  // ---------------------------------------------------------------------
  // The handler

  /** The forEach over `ks`: push "k=v" for every kept key. */
  method CollectPairs(values: map<string, JsValue>, ks: seq<string>) returns (pairs: seq<string>)
    ensures pairs == Pairs(values, ks)
  {
    pairs := [];
    for i := 0 to |ks|
      invariant pairs == Pairs(values, ks[..i])
    {
      var k := ks[i];
      assert ks[..i + 1][..i] == ks[..i];
      if Kept(values, k) {
        pairs := pairs + [Pair(k, values[k])];
      }
    }
    assert ks[..|ks|] == ks;
  }

  /** POST /sign. `req.body || {}` is None when there is no body; `sha1` is
      the hex digest of SHA-1. */
  method Sign(body: Option<JsObject>, apiKey: string, secret: string, sha1: string -> string)
    returns (resp: SignResponse)
    ensures resp.signature == sha1(CanonicalString(if body.Some? then body.value.values else map[]) + secret)
    ensures resp.apiKey == apiKey
    ensures resp.timestamp ==
      if body.Some? && "timestamp" in body.value.values then body.value.values["timestamp"] else Undefined
  {
    var params: JsObject := if body.Some? then body.value else RawObject([], map[]);
    var sorted := Sort(params.keys, Id);
    var pairs := CollectPairs(params.values, sorted);
    SortedKeysGiveCanonicalPairs(params, sorted);
    var toSign := Join(pairs, "&");
    var timestamp := if "timestamp" in params.values then params.values["timestamp"] else Undefined;
    resp := SignResponse(sha1(toSign + secret), apiKey, timestamp);
  }

  // ---------------------------------------------------------------------
  // Lemmas

  /** The pairs of the keys `ks`, in the order the keys appear. */
  function Rendered(values: map<string, JsValue>, ks: seq<string>): seq<string> {
    if ks == [] then []
    else
      var k := ks[|ks| - 1];
      Rendered(values, ks[..|ks| - 1]) + [Pair(k, if k in values then values[k] else Undefined)]
  }

  function KeptIn(values: map<string, JsValue>): string -> bool {
    k => Kept(values, k)
  }

  lemma RenderedSnoc(values: map<string, JsValue>, ks: seq<string>, k: string)
    ensures Rendered(values, ks + [k]) == Rendered(values, ks) + [Pair(k, if k in values then values[k] else Undefined)]
  {
    assert (ks + [k])[..|ks|] == ks;
  }

  /** The forEach keeps the kept keys in their visiting order. */
  lemma {:induction false} PairsAreRenderedKeptKeys(values: map<string, JsValue>, ks: seq<string>)
    ensures Pairs(values, ks) == Rendered(values, Filter(ks, KeptIn(values)))
  {
    if ks != [] {
      var p := KeptIn(values);
      var init, k := ks[..|ks| - 1], ks[|ks| - 1];
      PairsAreRenderedKeptKeys(values, init);
      var before := Filter(init, p);
      assert Filter(ks, p) == before + (if p(k) then [k] else []);
      assert p(k) == Kept(values, k);
      assert Pairs(values, ks) == Pairs(values, init) + (if Kept(values, k) then [Pair(k, values[k])] else []);
      if Kept(values, k) {
        assert Filter(ks, p) == before + [k];
        RenderedSnoc(values, before, k);
      } else {
        assert Filter(ks, p) == before;
      }
    }
  }

  lemma CanonicalOrderSorted()
    ensures SortedBy(CanonicalOrder, Id)
  {
    assert StrLe("eager", "folder");
    assert StrLe("eager", "public_id");
    assert StrLe("eager", "timestamp");
    assert StrLe("folder", "public_id");
    assert StrLe("folder", "timestamp");
    assert StrLe("public_id", "timestamp");
  }

  /** Each allowed key occurs once in the canonical order. */
  lemma CanonicalOrderCount(x: string)
    requires x in AllowedKeys
    ensures multiset(CanonicalOrder)[x] == 1
  {
    assert CanonicalOrder == ["eager", "folder", "public_id", "timestamp"];
    if x == "eager" {
      assert multiset(CanonicalOrder) == multiset{"eager", "folder", "public_id", "timestamp"};
    } else if x == "folder" {
      assert multiset(CanonicalOrder) == multiset{"eager", "folder", "public_id", "timestamp"};
    } else if x == "public_id" {
      assert multiset(CanonicalOrder) == multiset{"eager", "folder", "public_id", "timestamp"};
    } else {
      assert x == "timestamp";
      assert multiset(CanonicalOrder) == multiset{"eager", "folder", "public_id", "timestamp"};
    }
  }

  /** A kept key occurs once among an object's keys and once in the
      canonical order; any other key occurs in neither filter. */
  lemma KeptKeyCount(o: JsObject, sorted: seq<string>, x: string)
    requires multiset(sorted) == multiset(o.keys)
    ensures multiset(Filter(sorted, KeptIn(o.values)))[x] == multiset(Filter(CanonicalOrder, KeptIn(o.values)))[x]
  {
    var p := KeptIn(o.values);
    var a, b := Filter(sorted, p), Filter(CanonicalOrder, p);
    assert multiset(a)[x] == if p(x) then multiset(sorted)[x] else 0;
    assert multiset(b)[x] == if p(x) then multiset(CanonicalOrder)[x] else 0;
    if p(x) {
      assert x in o.values;
      assert x in o.keys;
      assert multiset(o.keys)[x] <= 1;
      CanonicalOrderCount(x);
    }
  }

  /** So both filters hold the same keys. */
  lemma KeptKeysSameMultiset(o: JsObject, sorted: seq<string>)
    requires multiset(sorted) == multiset(o.keys)
    ensures multiset(Filter(sorted, KeptIn(o.values))) == multiset(Filter(CanonicalOrder, KeptIn(o.values)))
  {
    forall x
      ensures multiset(Filter(sorted, KeptIn(o.values)))[x] == multiset(Filter(CanonicalOrder, KeptIn(o.values)))[x]
    {
      KeptKeyCount(o, sorted, x);
    }
  }

  /** Visiting an object's keys in sorted order keeps exactly the pairs of
      the canonical order. */
  lemma SortedKeysGiveCanonicalPairs(o: JsObject, sorted: seq<string>)
    requires SortedBy(sorted, Id) && multiset(sorted) == multiset(o.keys)
    ensures Pairs(o.values, sorted) == Pairs(o.values, CanonicalOrder)
  {
    var p := KeptIn(o.values);
    FilterSorted(sorted, p, Id);
    CanonicalOrderSorted();
    FilterSorted(CanonicalOrder, p, Id);
    KeptKeysSameMultiset(o, sorted);
    SortedUnique(Filter(sorted, p), Filter(CanonicalOrder, p));
    PairsAreRenderedKeptKeys(o.values, sorted);
    PairsAreRenderedKeptKeys(o.values, CanonicalOrder);
  }

  /** Keys outside the allowed four never change the string to sign. */
  lemma {:induction false} DisallowedKeyIgnored(values: map<string, JsValue>, k: string, v: JsValue, ks: seq<string>)
    requires k !in AllowedKeys
    ensures Pairs(values[k := v], ks) == Pairs(values, ks)
  {
    if ks != [] {
      DisallowedKeyIgnored(values, k, v, ks[..|ks| - 1]);
    }
  }

  /** An undefined, null or empty-string value signs like an absent key. */
  lemma {:induction false} OmittedValueIsAbsent(values: map<string, JsValue>, k: string, v: JsValue, ks: seq<string>)
    requires !Included(v)
    ensures Pairs(values[k := v], ks) == Pairs(values - {k}, ks)
  {
    if ks != [] {
      OmittedValueIsAbsent(values, k, v, ks[..|ks| - 1]);
    }
  }

  /** A pair's key is one of the allowed keys and its value is included. */
  lemma {:induction false} PairsOnlyAllowed(values: map<string, JsValue>, ks: seq<string>, s: string)
    requires s in Pairs(values, ks)
    ensures exists k | k in AllowedKeys && k in values :: Included(values[k]) && s == Pair(k, values[k])
  {
    if s !in Pairs(values, ks[..|ks| - 1]) {
      var k := ks[|ks| - 1];
      assert k in AllowedKeys && k in values;
    } else {
      PairsOnlyAllowed(values, ks[..|ks| - 1], s);
    }
  }

  /** A kept key among `ks` always contributes a pair. */
  lemma {:induction false} KeptGivesPair(values: map<string, JsValue>, ks: seq<string>, k: string)
    requires k in ks
    ensures Kept(values, k) ==> Pairs(values, ks) != []
  {
    var init := ks[..|ks| - 1];
    if k != ks[|ks| - 1] {
      assert k in init;
      KeptGivesPair(values, init, k);
    }
  }

  /** The canonical order yields no pair exactly when no allowed key holds
      an included value, and a pair is never empty. */
  lemma PairsEmptyIff(values: map<string, JsValue>)
    ensures Pairs(values, CanonicalOrder) == [] <==> forall k | k in AllowedKeys && k in values :: !Included(values[k])
    ensures Pairs(values, CanonicalOrder) != [] ==> |Pairs(values, CanonicalOrder)[0]| > 0
  {
    var pairs := Pairs(values, CanonicalOrder);
    if pairs != [] {
      PairsOnlyAllowed(values, CanonicalOrder, pairs[0]);
    }
    forall k | k in AllowedKeys && k in values
      ensures Included(values[k]) ==> pairs != []
    {
      assert k in CanonicalOrder;
      KeptGivesPair(values, CanonicalOrder, k);
    }
  }

  /** With no allowed key holding an included value, the string to sign is
      empty and the signature is the digest of the secret alone. */
  lemma NothingToSign(values: map<string, JsValue>, secret: string, sha1: string -> string)
    requires forall k | k in AllowedKeys && k in values :: !Included(values[k])
    ensures CanonicalString(values) == ""
    ensures sha1(CanonicalString(values) + secret) == sha1(secret)
  {
    if Pairs(values, CanonicalOrder) != [] {
      PairsOnlyAllowed(values, CanonicalOrder, Pairs(values, CanonicalOrder)[0]);
    }
    assert CanonicalString(values) + secret == secret;
  }

  /** The handler answers two bodies that list the same keys and values in
      different orders identically: each call sorts its own key order, and
      SortedKeysGiveCanonicalPairs takes both to the canonical pairs. */
  method SignIgnoresKeyOrder(a: JsObject, b: JsObject, apiKey: string, secret: string, sha1: string -> string)
    returns (ra: SignResponse, rb: SignResponse)
    requires a.values == b.values
    ensures ra == rb
  {
    ra := Sign(Some(a), apiKey, secret, sha1);
    rb := Sign(Some(b), apiKey, secret, sha1);
  }
}
