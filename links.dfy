/**
 * `collect_link_definitions` after the page has been fetched and its JSON
 * parsed: the fixed key path `props` / `pageProps` / `links`, and the
 * comprehension that keeps the entries that contain "url".
 */
module Links {
  import opened Wrappers
  import opened PyJson

  /** `data["props"]["pageProps"]["links"]`, failing at the first lookup that fails. */
  function LinksAt(data: Json): (r: Result<Json, PyError>)
    ensures r.Err? ==> r.error in {TypeError, KeyError("props"), KeyError("pageProps"), KeyError("links")}
  {
    var props :- Subscript(data, "props");
    var page :- Subscript(props, "pageProps");
    Subscript(page, "links")
  }

  /** `"url" in v` is true. */
  predicate HasUrl(v: Json) {
    Contains(v, "url") == Ok(true)
  }

  /** `"url" in v` raises: `v` is None, a bool or a number. */
  predicate CannotHoldUrl(v: Json) {
    Contains(v, "url").Err?
  }

  /** `[link for link in items if "url" in link]`, raising at the first entry the test cannot be applied to. */
  function FilterUrl(items: seq<Json>): (r: Result<seq<Json>, PyError>)
    ensures r.Ok? ==> |r.value| <= |items|
    ensures r.Err? ==> r.error == TypeError
  {
    if items == [] then Ok([])
    else
      var keep :- Contains(items[0], "url");
      var rest :- FilterUrl(items[1..]);
      Ok(if keep then [items[0]] + rest else rest)
  }

  /**
   * The valid link entries of the page data.  A string is iterated by its
   * characters, none of which contains "url"; iterating a dict is not modelled;
   * any other scalar is not iterable.
   */
  function CollectLinkDefinitions(data: Json): (r: Result<seq<Json>, PyError>)
    ensures r.Ok? ==> LinksAt(data).Ok? && (LinksAt(data).value.JArray? || LinksAt(data).value.JString?)
    ensures r.Ok? && LinksAt(data).value.JArray? ==> |r.value| <= |LinksAt(data).value.items|
    ensures r.Ok? && LinksAt(data).value.JString? ==> r.value == []
  {
    var all :- LinksAt(data);
    match all
    case JArray(items) => FilterUrl(items)
    case JString(_) => Ok([])
    case JObject(_) => Err(Unsupported)
    case _ => Err(TypeError)
  }

  /** How many entries contain "url". */
  function CountUrl(items: seq<Json>): nat {
    if items == [] then 0 else (if HasUrl(items[0]) then 1 else 0) + CountUrl(items[1..])
  }

  /** The key path fails exactly at the first key that is missing or cannot be looked up. */
  lemma LinksAtSpec(data: Json)
    ensures !data.JObject? ==> LinksAt(data) == Err(TypeError)
    ensures data.JObject? && "props" !in data.fields ==> LinksAt(data) == Err(KeyError("props"))
    ensures data.JObject? && "props" in data.fields ==>
      var props := data.fields["props"];
      && (!props.JObject? ==> LinksAt(data) == Err(TypeError))
      && (props.JObject? && "pageProps" !in props.fields ==> LinksAt(data) == Err(KeyError("pageProps")))
      && (props.JObject? && "pageProps" in props.fields ==>
            var page := props.fields["pageProps"];
            && (!page.JObject? ==> LinksAt(data) == Err(TypeError))
            && (page.JObject? && "links" !in page.fields ==> LinksAt(data) == Err(KeyError("links")))
            && (page.JObject? && "links" in page.fields ==> LinksAt(data) == Ok(page.fields["links"])))
  {
  }

  /** The filter raises exactly when some entry cannot hold "url", and then raises TypeError. */
  lemma {:induction false} FilterUrlFails(items: seq<Json>)
    ensures FilterUrl(items).Err? <==> exists i :: 0 <= i < |items| && CannotHoldUrl(items[i])
    ensures FilterUrl(items).Err? ==> FilterUrl(items) == Err(TypeError)
  {
    if items != [] {
      FilterUrlFails(items[1..]);
      if exists i :: 0 <= i < |items| - 1 && CannotHoldUrl(items[1..][i]) {
        var i :| 0 <= i < |items| - 1 && CannotHoldUrl(items[1..][i]);
        assert CannotHoldUrl(items[i + 1]);
      }
      if exists i :: 0 <= i < |items| && CannotHoldUrl(items[i]) {
        var i :| 0 <= i < |items| && CannotHoldUrl(items[i]);
        if i > 0 {
          assert CannotHoldUrl(items[1..][i - 1]);
        }
      }
    }
  }

  lemma CountUrlCons(x: Json, items: seq<Json>, i: nat)
    requires 1 <= i <= |items| + 1
    ensures CountUrl(([x] + items)[..i]) == (if HasUrl(x) then 1 else 0) + CountUrl(items[..i - 1])
  {
    assert ([x] + items)[..i][1..] == items[..i - 1];
  }

  /**
   * When it succeeds, the filter keeps exactly the entries that contain "url",
   * in their original order: the i-th entry, when it contains "url", is the
   * kept entry numbered by how many entries before it contain "url".
   */
  lemma {:induction false} FilterUrlKeeps(items: seq<Json>)
    requires FilterUrl(items).Ok?
    ensures var r := FilterUrl(items).value;
      && |r| == CountUrl(items)
      && (forall j :: 0 <= j < |r| ==> HasUrl(r[j]))
      && (forall i :: 0 <= i < |items| && HasUrl(items[i]) ==> CountUrl(items[..i]) < |r| && r[CountUrl(items[..i])] == items[i])
  {
    if items != [] {
      var x, rest := items[0], items[1..];
      FilterUrlKeeps(rest);
      var r', r := FilterUrl(rest).value, FilterUrl(items).value;
      assert items == [x] + rest;
      forall i | 0 <= i < |items| && HasUrl(items[i])
        ensures CountUrl(items[..i]) < |r| && r[CountUrl(items[..i])] == items[i]
      {
        if i == 0 {
          assert items[..0] == [];
        } else {
          CountUrlCons(x, rest, i);
          assert items[i] == rest[i - 1];
        }
      }
    }
  }

  /** Every entry kept by the filter comes from the input, and every entry of the input that contains "url" is kept. */
  lemma FilterUrlExact(items: seq<Json>)
    requires FilterUrl(items).Ok?
    ensures forall v :: v in FilterUrl(items).value <==> v in items && HasUrl(v)
  {
    FilterUrlKeeps(items);
    var r := FilterUrl(items).value;
    forall v | v in r ensures v in items && HasUrl(v) {
      FilterUrlSub(items);
    }
    forall v | v in items && HasUrl(v) ensures v in r {
      var i :| 0 <= i < |items| && items[i] == v;
      assert r[CountUrl(items[..i])] == v;
    }
  }

  lemma {:induction false} FilterUrlSub(items: seq<Json>)
    requires FilterUrl(items).Ok?
    ensures forall v :: v in FilterUrl(items).value ==> v in items
  {
    if items != [] {
      FilterUrlSub(items[1..]);
    }
  }

  /**
   * When the key path leads to a list, collecting succeeds exactly when every
   * entry can be tested for "url", and then gives as many entries as contain
   * "url", each taken from the list.
   */
  lemma CollectLinkDefinitionsSpec(data: Json)
    requires LinksAt(data).Ok? && LinksAt(data).value.JArray?
    ensures var items := LinksAt(data).value.items;
      && (CollectLinkDefinitions(data).Ok? <==> forall i :: 0 <= i < |items| ==> !CannotHoldUrl(items[i]))
      && (CollectLinkDefinitions(data).Ok? ==>
            && |CollectLinkDefinitions(data).value| == CountUrl(items)
            && forall v :: v in CollectLinkDefinitions(data).value <==> v in items && HasUrl(v))
  {
    var items := LinksAt(data).value.items;
    assert CollectLinkDefinitions(data) == FilterUrl(items);
    FilterUrlFails(items);
    if FilterUrl(items).Ok? {
      FilterUrlKeeps(items);
      FilterUrlExact(items);
    }
  }
}
