/**
 * Concrete runs of the script on small page payloads: one plain link, one
 * link with a thumbnail, and payloads that lack part of the key path.
 */
module Scenarios {
  import opened Wrappers
  import opened PyJson
  import Slug
  import FrontMatter
  import Capture
  import Links

  /** A page payload holding the given link entries under props.pageProps.links. */
  function Page(links: seq<Json>): Json {
    JObject(map["props" := JObject(map["pageProps" := JObject(map["links" := JArray(links)])])])
  }

  const MySite: Json :=
    JObject(map["position" := JInt(0), "title" := JString("My Site!"), "url" := JString("https://example.com")])

  const Thumbnail: string := "https://cdn.example.com/abc.png"

  lemma MySiteLower()
    ensures Slug.Lower("My Site!") == "my site!"
  {
  }

  lemma MySiteCollapseTail()
    ensures Slug.Collapse("site!") == "site-"
  {
    assert Slug.DropNonAlnum("") == "";
    assert Slug.Collapse("!") == "-" + Slug.Collapse("");
    assert Slug.Collapse("e!") == "e" + Slug.Collapse("!");
    assert Slug.Collapse("te!") == "t" + Slug.Collapse("e!");
    assert Slug.Collapse("ite!") == "i" + Slug.Collapse("te!");
    assert Slug.Collapse("site!") == "s" + Slug.Collapse("ite!");
  }

  lemma MySiteCollapse()
    ensures Slug.Collapse("my site!") == "my-site-"
  {
    MySiteCollapseTail();
    assert Slug.DropNonAlnum("site!") == "site!";
    assert Slug.Collapse(" site!") == "-" + Slug.Collapse("site!");
    assert Slug.Collapse("y site!") == "y" + Slug.Collapse(" site!");
    assert Slug.Collapse("my site!") == "m" + Slug.Collapse("y site!");
  }

  lemma MySiteSlug()
    ensures Slug.StubTitle("My Site!") == "my-site"
  {
    MySiteLower();
    MySiteCollapse();
    assert Slug.DropLeadingHyphens("my-site-") == "my-site-";
    assert "my-site-"[..7] == "my-site";
    assert Slug.DropTrailingHyphens("my-site-") == Slug.DropTrailingHyphens("my-site");
  }

  lemma ThumbnailName()
    ensures LastSegment(Thumbnail) == "abc.png"
  {
    LastSegmentUnique(Thumbnail, "abc.png");
  }

  lemma MySiteFileName()
    ensures Capture.LinkFileName("../_links", "My Site!") == "../_links/my-site.md"
  {
    MySiteSlug();
    StubPath("../_links", "My Site!", "my-site");
    MySitePath();
  }

  lemma MySitePath()
    ensures "../_links" + "/" + "my-site" + ".md" == "../_links/my-site.md"
  {
    assert "../_links" + "/" == "../_links/";
    assert "../_links/" + "my-site" == "../_links/my-site";
  }

  lemma StubPath(root: string, title: string, stub: string)
    requires Slug.StubTitle(title) == stub
    ensures Capture.LinkFileName(root, title) == root + "/" + stub + ".md"
  {
  }

  /** The fields of the "My Site!" entry, with or without a thumbnail. */
  predicate IsMySiteEntry(link: Json, net: Capture.Responses) {
    && link.JObject?
    && "position" in link.fields && link.fields["position"] == JInt(0)
    && "title" in link.fields && link.fields["title"] == JString("My Site!")
    && "url" in link.fields && link.fields["url"] == JString("https://example.com")
    && "modifiers" !in link.fields
    && ("thumbnail" in link.fields ==> link.fields["thumbnail"] == JString(Thumbnail) && Thumbnail in net)
  }

  lemma MySiteCaptures(link: Json, net: Capture.Responses)
    requires IsMySiteEntry(link, net)
    ensures Capture.Priority(link) == Ok(1)
    ensures Capture.CapturePlan(Capture.DefaultRoots, link, net).failure.None?
    ensures Capture.TitleOf(link) == "My Site!"
  {
    assert "thumbnail" !in link.fields ==> Capture.ChooseThumbnail(link) == Ok(JNull);
  }

  lemma SingleCollected(link: Json)
    requires link.JObject? && "url" in link.fields
    ensures Links.CollectLinkDefinitions(Page([link])) == Ok([link])
  {
    assert Links.LinksAt(Page([link])) == Ok(JArray([link]));
    assert Contains(link, "url") == Ok(true);
    assert [link][1..] == [];
    assert Links.FilterUrl([link]) == Ok([link] + []);
    assert [link] + [] == [link];
    assert Links.CollectLinkDefinitions(Page([link])) == Links.FilterUrl([link]);
  }

  lemma RunOne(link: Json, net: Capture.Responses)
    ensures Capture.RunPlan(Capture.DefaultRoots, [link], net) == Capture.CapturePlan(Capture.DefaultRoots, link, net)
  {
    var o := Capture.CapturePlan(Capture.DefaultRoots, link, net);
    var os := Capture.Plans(Capture.DefaultRoots, [link], net);
    assert os == [o];
    assert os[..0] == [];
    assert Capture.Chain(os[..0]) == Capture.Outcome([], None);
    assert o.writes == [] + o.writes;
    assert Capture.Chain(os) == Capture.Outcome(o.writes, o.failure);
  }

  /** Any entry with the fields of "My Site!" and no thumbnail, as the whole page. */
  lemma PlainLinkRun(link: Json, net: Capture.Responses)
    requires IsMySiteEntry(link, net) && "thumbnail" !in link.fields
    ensures var o := Capture.Script(Capture.DefaultRoots, Page([link]), net);
      && o.failure == None && |o.writes| == 1
      && o.writes[0].path == "../_links/my-site.md"
      && o.writes[0].content.Text?
      && FrontMatter.ParseDescriptor(o.writes[0].content.text)
         == Some(FrontMatter.Descriptor("My Site!", "https://example.com", 1, None))
  {
    SingleCollected(link);
    RunOne(link, net);
    MySiteCaptures(link, net);
    assert Capture.ChooseThumbnail(link) == Ok(JNull);
    MySiteFileName();
    NoLineBreaks();
    Capture.CaptureSucceeds(Capture.DefaultRoots, link, net);
    Capture.CaptureDescriptorReadsBack(Capture.DefaultRoots, link, net);
  }

  /**
   * `{"position":0,"title":"My Site!","url":"https://example.com"}` gives one
   * file, `../_links/my-site.md`, whose descriptor reads back as title
   * "My Site!", link "https://example.com", priority 1 and no image.
   */
  lemma PlainLinkScenario(net: Capture.Responses)
    ensures var o := Capture.Script(Capture.DefaultRoots, Page([MySite]), net);
      && o.failure == None && |o.writes| == 1
      && o.writes[0].path == "../_links/my-site.md"
      && o.writes[0].content.Text?
      && FrontMatter.ParseDescriptor(o.writes[0].content.text)
         == Some(FrontMatter.Descriptor("My Site!", "https://example.com", 1, None))
  {
    assert IsMySiteEntry(MySite, net);
    PlainLinkRun(MySite, net);
  }

  lemma ThumbnailPaths()
    ensures "../images" + "/" + LastSegment(Thumbnail) == "../images/abc.png"
    ensures "/images" + "/" + LastSegment(Thumbnail) == "/images/abc.png"
  {
    ThumbnailName();
  }

  lemma NoLineBreaks()
    ensures FrontMatter.NoNewline("My Site!") && FrontMatter.NoNewline("https://example.com")
    ensures FrontMatter.NoNewline("/images") && FrontMatter.NoNewline(Thumbnail)
  {
  }

  /** Any entry with the fields of "My Site!" and the thumbnail, whose download is `net[Thumbnail]`. */
  lemma ThumbnailRun(link: Json, net: Capture.Responses)
    requires IsMySiteEntry(link, net) && "thumbnail" in link.fields
    ensures var o := Capture.CapturePlan(Capture.DefaultRoots, link, net);
      && o.failure == None && |o.writes| == 2
      && o.writes[0] == Capture.Write("../images/abc.png", Capture.Binary(net[Thumbnail]))
      && o.writes[1].path == "../_links/my-site.md"
      && o.writes[1].content.Text?
      && FrontMatter.ParseDescriptor(o.writes[1].content.text)
         == Some(FrontMatter.Descriptor("My Site!", "https://example.com", 1, Some("/images/abc.png")))
  {
    MySiteCaptures(link, net);
    var img := JString(Thumbnail);
    assert Capture.ChooseThumbnail(link) == Ok(img);
    assert Truthy(img);
    MySiteFileName();
    ThumbnailPaths();
    NoLineBreaks();
    Capture.CaptureSucceeds(Capture.DefaultRoots, link, net);
    Capture.CaptureDescriptorReadsBack(Capture.DefaultRoots, link, net);
  }

  /**
   * The same link with the thumbnail `https://cdn.example.com/abc.png` first
   * saves the download as `../images/abc.png`, then writes the descriptor,
   * which reads back with the image `/images/abc.png`.
   */
  lemma ThumbnailScenario(body: seq<bv8>)
    ensures var link := JObject(MySite.fields["thumbnail" := JString(Thumbnail)]);
      var o := Capture.CapturePlan(Capture.DefaultRoots, link, map[Thumbnail := body]);
      && o.failure == None && |o.writes| == 2
      && o.writes[0] == Capture.Write("../images/abc.png", Capture.Binary(body))
      && o.writes[1].path == "../_links/my-site.md"
      && o.writes[1].content.Text?
      && FrontMatter.ParseDescriptor(o.writes[1].content.text)
         == Some(FrontMatter.Descriptor("My Site!", "https://example.com", 1, Some("/images/abc.png")))
  {
    var link := JObject(MySite.fields["thumbnail" := JString(Thumbnail)]);
    var net := map[Thumbnail := body];
    assert IsMySiteEntry(link, net);
    ThumbnailRun(link, net);
  }

  /** A payload without the key path raises KeyError naming the first missing key. */
  lemma MissingPathScenario(net: Capture.Responses)
    ensures Capture.Script(Capture.DefaultRoots, JObject(map[]), net) == Capture.Outcome([], Some(KeyError("props")))
    ensures Capture.Script(Capture.DefaultRoots, JObject(map["props" := JObject(map[])]), net)
         == Capture.Outcome([], Some(KeyError("pageProps")))
    ensures Capture.Script(Capture.DefaultRoots, JObject(map["props" := JObject(map["pageProps" := JObject(map[])])]), net)
         == Capture.Outcome([], Some(KeyError("links")))
  {
  }
}
