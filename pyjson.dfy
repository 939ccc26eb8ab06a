/**
 * The parsed page data as a JSON tree, and the few Python operations the
 * scraper applies to it: `key in v`, `v[key]`, `v + 1`, truthiness, `str(v)`
 * and `v.split("/")[-1]`.  Each operation reports the exception Python would
 * raise instead of a value.
 */
module PyJson {
  import opened Wrappers
  import Decimal

  /** A value produced by `json.loads`; numbers are integers. */
  datatype Json =
    | JNull
    | JBool(b: bool)
    | JInt(n: int)
    | JString(s: string)
    | JArray(items: seq<Json>)
    | JObject(fields: map<string, Json>)

  /** The exceptions the scraper can raise. */
  datatype PyError =
    | KeyError(key: string)           // a missing dictionary key
    | TypeError                       // an operation on a value of the wrong type
    | AttributeError(name: string)    // a string method called on a non-string
    | RequestError(url: string)       // a download that could not be made
    | Unsupported                     // a value the model does not render (see README)

  /** `needle` occurs in `hay` starting at its first character. */
  predicate IsPrefix(needle: string, hay: string) {
    |needle| <= |hay| && hay[..|needle|] == needle
  }

  /** Python's `needle in hay` on two strings. */
  predicate IsSubstring(needle: string, hay: string)
    decreases |hay|
  {
    IsPrefix(needle, hay) || (hay != [] && IsSubstring(needle, hay[1..]))
  }

  /**
   * `key in v`: a key test on a dict, an element test on a list, a substring
   * test on a str; any other value raises TypeError.
   */
  function Contains(v: Json, key: string): (r: Result<bool, PyError>)
    ensures r.Err? <==> v.JNull? || v.JBool? || v.JInt?
    ensures r.Err? ==> r.error == TypeError
    ensures v.JObject? ==> r == Ok(key in v.fields)
  {
    match v
    case JObject(fields) => Ok(key in fields)
    case JArray(items) => Ok(JString(key) in items)
    case JString(s) => Ok(IsSubstring(key, s))
    case _ => Err(TypeError)
  }

  /** `v[key]` with a string key: only a dict can be indexed by a string. */
  function Subscript(v: Json, key: string): (r: Result<Json, PyError>)
    ensures r.Ok? <==> v.JObject? && key in v.fields
    ensures r.Ok? ==> r.value == v.fields[key]
    ensures r.Err? ==> r.error == (if v.JObject? then KeyError(key) else TypeError)
  {
    match v
    case JObject(fields) => if key in fields then Ok(fields[key]) else Err(KeyError(key))
    case _ => Err(TypeError)
  }

  /** A dict lookup succeeds exactly when the `in` test that guards it says yes. */
  lemma SubscriptGuardedByContains(v: Json, key: string)
    requires v.JObject?
    ensures Contains(v, key) == Ok(true) <==> Subscript(v, key).Ok?
    ensures Contains(v, key) == Ok(false) <==> Subscript(v, key) == Err(KeyError(key))
  {
  }

  /** `needle` occurs in `hay` starting at position `i`. */
  predicate OccursAt(needle: string, hay: string, i: int) {
    0 <= i && i + |needle| <= |hay| && hay[i..i + |needle|] == needle
  }

  /** `needle in hay` holds exactly when `needle` occurs in `hay` at some position. */
  lemma {:induction false} IsSubstringAt(needle: string, hay: string)
    ensures IsSubstring(needle, hay) <==> exists i :: OccursAt(needle, hay, i)
    decreases |hay|
  {
    if IsPrefix(needle, hay) {
      assert OccursAt(needle, hay, 0);
    } else if hay != [] {
      IsSubstringAt(needle, hay[1..]);
      if IsSubstring(needle, hay[1..]) {
        var i :| OccursAt(needle, hay[1..], i);
        assert hay[i + 1..i + 1 + |needle|] == hay[1..][i..i + |needle|];
        assert OccursAt(needle, hay, i + 1);
      }
      if exists i :: OccursAt(needle, hay, i) {
        var i :| OccursAt(needle, hay, i);
        assert i != 0;
        assert hay[1..][i - 1..i - 1 + |needle|] == hay[i..i + |needle|];
        assert OccursAt(needle, hay[1..], i - 1);
      }
    }
  }

  /**
   * `key in v` on a list asks whether some element equals the string `key`;
   * on a str it asks whether `key` occurs in it as a contiguous piece.
   */
  lemma ContainsSpec(v: Json, key: string)
    ensures v.JArray? ==>
      (Contains(v, key) == Ok(true) <==> exists i :: 0 <= i < |v.items| && v.items[i] == JString(key))
    ensures v.JString? ==> (Contains(v, key) == Ok(true) <==> exists i :: OccursAt(key, v.s, i))
  {
    if v.JString? {
      IsSubstringAt(key, v.s);
    }
  }

  /** Python truthiness. */
  predicate Truthy(v: Json) {
    match v
    case JNull => false
    case JBool(b) => b
    case JInt(n) => n != 0
    case JString(s) => s != []
    case JArray(items) => items != []
    case JObject(fields) => fields != map[]
  }

  /** `v + 1`: an int, or a bool counted as 0 or 1; any other value raises TypeError. */
  function AddOne(v: Json): (r: Result<int, PyError>)
    ensures r.Ok? <==> v.JInt? || v.JBool?
    ensures r.Err? ==> r.error == TypeError
    ensures v.JInt? ==> r == Ok(v.n + 1)
  {
    match v
    case JInt(n) => Ok(n + 1)
    case JBool(b) => Ok(if b then 2 else 1)
    case _ => Err(TypeError)
  }

  /**
   * The text an f-string gives a scalar value.  Lists and dicts would be
   * written with Python's `repr`, which is not modelled.
   */
  function Str(v: Json): (r: Result<string, PyError>)
    ensures r.Ok? <==> !v.JArray? && !v.JObject?
    ensures r.Err? ==> r.error == Unsupported
    ensures v.JString? ==> r == Ok(v.s)
    ensures v.JInt? ==> r.Ok? && Decimal.ParseInt(r.value) == Some(v.n)
  {
    match v
    case JNull => Ok("None")
    case JBool(b) => Ok(if b then "True" else "False")
    case JInt(n) => Decimal.IntToStringRoundTrip(n); Ok(Decimal.IntToString(n))
    case JString(s) => Ok(s)
    case _ => Err(Unsupported)
  }

  /** The values Python counts as false: None, False, zero and the empty str, list and dict. */
  lemma FalsyValues(v: Json)
    ensures !Truthy(v) <==>
      v == JNull || v == JBool(false) || v == JInt(0)
      || v == JString([]) || v == JArray([]) || v == JObject(map[])
  {
  }

  /** `bool` is a subclass of `int`: `True + 1` and `False + 1` add as `1 + 1` and `0 + 1`. */
  lemma BoolAddsAsInt(b: bool)
    ensures AddOne(JBool(b)) == AddOne(JInt(if b then 1 else 0))
  {
  }

  /** The part of `s` after its last '/', the whole of `s` when it has none. */
  function LastSegment(s: string): (r: string)
    ensures |r| <= |s|
  {
    if s == [] then []
    else if s[|s| - 1] == '/' then []
    else LastSegment(s[..|s| - 1]) + [s[|s| - 1]]
  }

  /** `v.split("/")[-1]`: only a string has a `split` method. */
  function SplitLast(v: Json): (r: Result<string, PyError>)
    ensures r.Ok? <==> v.JString?
    ensures r.Ok? ==> '/' !in r.value && |r.value| <= |v.s|
    ensures r.Err? ==> r.error == AttributeError("split")
  {
    match v
    case JString(s) => LastSegmentSpec(s); Ok(LastSegment(s))
    case _ => Err(AttributeError("split"))
  }

  /**
   * The last segment has no '/', ends `s`, and is either all of `s` or
   * preceded by a '/'.
   */
  lemma {:induction false} LastSegmentSpec(s: string)
    ensures var r := LastSegment(s);
      && '/' !in r
      && r == s[|s| - |r|..]
      && (|r| == |s| || s[|s| - |r| - 1] == '/')
  {
    if s != [] && s[|s| - 1] != '/' {
      var p := s[..|s| - 1];
      LastSegmentSpec(p);
      var q := LastSegment(p);
      assert s == p + [s[|s| - 1]];
      assert p[|p| - |q|..] + [s[|s| - 1]] == s[|s| - |q| - 1..];
      if |q| < |p| {
        assert s[|s| - |q| - 2] == p[|p| - |q| - 1];
      }
    }
  }

  /** A string without '/' is its own last segment. */
  lemma {:induction false} LastSegmentOfPlain(s: string)
    requires '/' !in s
    ensures LastSegment(s) == s
  {
    if s != [] {
      assert s == s[..|s| - 1] + [s[|s| - 1]];
      LastSegmentOfPlain(s[..|s| - 1]);
    }
  }

  /** The last segment is the only suffix without '/' that is all of `s` or follows a '/'. */
  lemma LastSegmentUnique(s: string, r: string)
    requires '/' !in r && |r| <= |s| && r == s[|s| - |r|..]
    requires |r| == |s| || s[|s| - |r| - 1] == '/'
    ensures LastSegment(s) == r
  {
    LastSegmentSpec(s);
  }
}
