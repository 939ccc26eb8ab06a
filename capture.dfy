/**
 * What `capture_link` does for one link entry, and what the driver loop does
 * for all of them, as the list of file writes it makes and the exception, if
 * any, that stops it.  The downloads are answered by a map from URL to body.
 */
module Capture {
  import opened Wrappers
  import opened PyJson
  import Slug
  import FrontMatter
  import Links

  /** The three directories `capture_link` is given. */
  datatype Roots = Roots(linkRoot: string, imageRoot: string, imageWebRoot: string)

  /** LINK_ROOT, IMAGE_ROOT and IMAGE_WEB_ROOT. */
  const DefaultRoots: Roots := Roots("../_links", "../images", "/images")

  /** What a file is made to hold: text for a descriptor, bytes for an image. */
  datatype Content = Text(text: string) | Binary(bytes: seq<bv8>)

  datatype Write = Write(path: string, content: Content)

  /** The writes made, in order, and the exception that ended the run early, if any. */
  datatype Outcome = Outcome(writes: seq<Write>, failure: Option<PyError>)

  /** The body `requests.get` returns for each URL that can be fetched. */
  type Responses = map<string, seq<bv8>>

  /** A downloaded thumbnail: where it is saved, how the site refers to it, and its bytes. */
  datatype Image = Image(file: string, web: string, body: seq<bv8>)

  /** `link["position"] + 1`. */
  function Priority(link: Json): (r: Result<int, PyError>)
    ensures r.Ok? <==> link.JObject? && "position" in link.fields
                       && (link.fields["position"].JInt? || link.fields["position"].JBool?)
  {
    var position :- Subscript(link, "position");
    AddOne(position)
  }

  /**
   * The thumbnail: `link["thumbnail"]` when the key is there, otherwise
   * `link["modifiers"]["thumbnailImage"]` when both keys are there, otherwise
   * None.  `and` does not look into `modifiers` when the key is absent.
   */
  function ChooseThumbnail(link: Json): (r: Result<Json, PyError>)
    ensures link.JObject? && r.Err? ==>
      "thumbnail" !in link.fields && "modifiers" in link.fields && r == Err(TypeError)
  {
    var hasThumbnail :- Contains(link, "thumbnail");
    if hasThumbnail then Subscript(link, "thumbnail")
    else
      // the first test succeeded, so `link` is a dict and this one cannot raise
      var hasModifiers := Contains(link, "modifiers").value;
      if !hasModifiers then Ok(JNull)
      else
        var modifiers :- Subscript(link, "modifiers");
        var hasImage :- Contains(modifiers, "thumbnailImage");
        if hasImage then Subscript(modifiers, "thumbnailImage") else Ok(JNull)
  }

  /**
   * The image step: nothing for a falsy thumbnail; otherwise the name after the
   * last '/', the two paths built from it, and the downloaded body.
   */
  function DownloadImage(roots: Roots, img: Json, net: Responses): (r: Result<Option<Image>, PyError>)
    ensures r == Ok(None) <==> !Truthy(img)
    ensures r.Ok? && r.value.Some? ==> img.JString? && img.s in net && r.value.value.body == net[img.s]
  {
    if !Truthy(img) then Ok(None)
    else
      var name :- SplitLast(img);
      var url := img.s;
      if url !in net then Err(RequestError(url))
      else Ok(Some(Image(roots.imageRoot + "/" + name, roots.imageWebRoot + "/" + name, net[url])))
  }

  /** `f"{link_root}/{stub}.md"`. */
  function LinkFileName(linkRoot: string, title: string): (r: string)
    ensures |r| >= |linkRoot| + 4
    ensures r[..|linkRoot| + 1] == linkRoot + "/" && r[|r| - 3..] == ".md"
  {
    linkRoot + "/" + Slug.StubTitle(title) + ".md"
  }

  function ImageWrites(image: Option<Image>): seq<Write> {
    if image.Some? then [Write(image.value.file, Binary(image.value.body))] else []
  }

  function ImageFile(image: Option<Image>): Option<string> {
    if image.Some? then Some(image.value.file) else None
  }

  function ImageLink(image: Option<Image>): Option<string> {
    if image.Some? then Some(image.value.web) else None
  }

  /**
   * `capture_link(link_root, image_root, image_web_root, link)`, step by step
   * in the order of the source: priority, title lookup, thumbnail choice,
   * image download and write, slug of the title (`lower` needs a string),
   * url lookup, descriptor write.
   */
  function CapturePlan(roots: Roots, link: Json, net: Responses): Outcome {
    match Priority(link)
    case Err(e) => Outcome([], Some(e))
    case Ok(priority) =>
      match Subscript(link, "title")
      case Err(e) => Outcome([], Some(e))
      case Ok(title) =>
        match ChooseThumbnail(link)
        case Err(e) => Outcome([], Some(e))
        case Ok(img) =>
          match DownloadImage(roots, img, net)
          case Err(e) => Outcome([], Some(e))
          case Ok(image) =>
            var done := ImageWrites(image);
            if !title.JString? then Outcome(done, Some(AttributeError("lower")))
            else
              match Subscript(link, "url")
              case Err(e) => Outcome(done, Some(e))
              case Ok(url) =>
                match Str(url)
                case Err(e) => Outcome(done, Some(e))
                case Ok(urlText) =>
                  var text := FrontMatter.DescriptorText(urlText, priority, title.s, ImageFile(image), ImageLink(image));
                  Outcome(done + [Write(LinkFileName(roots.linkRoot, title.s), Text(text))], None)
  }

  /** The capture of each link, computed on its own. */
  function Plans(roots: Roots, links: seq<Json>, net: Responses): (os: seq<Outcome>)
    ensures |os| == |links|
  {
    seq(|links|, i requires 0 <= i < |links| => CapturePlan(roots, links[i], net))
  }

  /** Captures run one after another: the writes add up and the first exception stops the rest. */
  function Chain(os: seq<Outcome>): Outcome {
    if os == [] then Outcome([], None)
    else
      var before := Chain(os[..|os| - 1]);
      if before.failure.Some? then before
      else Outcome(before.writes + os[|os| - 1].writes, os[|os| - 1].failure)
  }

  /** The writes of every outcome, one after another. */
  function AllWrites(os: seq<Outcome>): seq<Write> {
    if os == [] then [] else AllWrites(os[..|os| - 1]) + os[|os| - 1].writes
  }

  /** The driver loop: capture each link in order and stop at the first exception. */
  function RunPlan(roots: Roots, links: seq<Json>, net: Responses): Outcome {
    Chain(Plans(roots, links, net))
  }

  /** The whole script after the page is parsed: collect the links, then capture them. */
  function Script(roots: Roots, data: Json, net: Responses): (r: Outcome)
    ensures Links.CollectLinkDefinitions(data).Err? ==> r.writes == [] && r.failure.Some?
  {
    match Links.CollectLinkDefinitions(data)
    case Err(e) => Outcome([], Some(e))
    case Ok(links) => RunPlan(roots, links, net)
  }

  // ---------------------------------------------------------------------------
  // Chaining outcomes.

  lemma {:induction false} ChainSucceeds(os: seq<Outcome>)
    ensures Chain(os).failure.None? <==> forall i :: 0 <= i < |os| ==> os[i].failure.None?
    ensures Chain(os).failure.None? ==> Chain(os).writes == AllWrites(os)
  {
    if os != [] {
      var init := os[..|os| - 1];
      ChainSucceeds(init);
      assert forall i :: 0 <= i < |init| ==> init[i] == os[i];
    }
  }

  /**
   * Outcome `k` is the first that raises, and the chain made the writes of
   * the outcomes up to it and raises its exception.
   */
  ghost predicate FirstFailure(os: seq<Outcome>, k: int) {
    && 0 <= k < |os|
    && (forall i :: 0 <= i < k ==> os[i].failure.None?)
    && os[k].failure.Some?
    && Chain(os) == Outcome(AllWrites(os[..k + 1]), os[k].failure)
  }

  /** A chain that raises stops at its first outcome that raises. */
  lemma {:induction false} ChainStops(os: seq<Outcome>)
    requires Chain(os).failure.Some?
    ensures exists k :: FirstFailure(os, k)
  {
    var init := os[..|os| - 1];
    if Chain(init).failure.Some? {
      ChainStops(init);
      var k :| FirstFailure(init, k);
      FailureKept(os, k);
    } else {
      FailureLast(os);
    }
  }

  lemma FailureKept(os: seq<Outcome>, k: int)
    requires os != [] && FirstFailure(os[..|os| - 1], k)
    ensures FirstFailure(os, k)
  {
    var init := os[..|os| - 1];
    assert init[..k + 1] == os[..k + 1];
    assert forall i :: 0 <= i <= k ==> init[i] == os[i];
  }

  lemma FailureLast(os: seq<Outcome>)
    requires os != [] && Chain(os[..|os| - 1]).failure.None? && Chain(os).failure.Some?
    ensures FirstFailure(os, |os| - 1)
  {
    var init := os[..|os| - 1];
    ChainSucceeds(init);
    assert os[..|os|] == os;
    assert forall i :: 0 <= i < |os| - 1 ==> init[i] == os[i];
  }

  // ---------------------------------------------------------------------------
  // One link.

  /** The priority is the position plus one; a link without an integer position raises. */
  lemma PrioritySpec(link: Json)
    ensures !link.JObject? ==> Priority(link) == Err(TypeError)
    ensures link.JObject? && "position" !in link.fields ==> Priority(link) == Err(KeyError("position"))
    ensures link.JObject? && "position" in link.fields && link.fields["position"].JInt? ==>
      Priority(link) == Ok(link.fields["position"].n + 1)
    ensures link.JObject? && "position" in link.fields ==>
      var position := link.fields["position"];
      !position.JInt? && !position.JBool? ==> Priority(link) == Err(TypeError)
  {
  }

  /**
   * A "thumbnail" key wins whatever its value; "modifiers" is looked into only
   * when there is no "thumbnail" key; with neither there is no image.
   */
  lemma ChooseThumbnailSpec(link: Json)
    requires link.JObject?
    ensures "thumbnail" in link.fields ==> ChooseThumbnail(link) == Ok(link.fields["thumbnail"])
    ensures "thumbnail" !in link.fields && "modifiers" !in link.fields ==> ChooseThumbnail(link) == Ok(JNull)
    ensures "thumbnail" !in link.fields && "modifiers" in link.fields ==>
      var m := link.fields["modifiers"];
      && (m.JObject? && "thumbnailImage" in m.fields ==> ChooseThumbnail(link) == Ok(m.fields["thumbnailImage"]))
      && (m.JObject? && "thumbnailImage" !in m.fields ==> ChooseThumbnail(link) == Ok(JNull))
      && (!m.JObject? ==> ChooseThumbnail(link) == if Contains(m, "thumbnailImage") == Ok(false) then Ok(JNull) else Err(TypeError))
  {
  }

  /** With a "thumbnail" key, the value of "modifiers" makes no difference. */
  lemma ThumbnailIgnoresModifiers(fields: map<string, Json>, modifiers: Json)
    requires "thumbnail" in fields
    ensures ChooseThumbnail(JObject(fields["modifiers" := modifiers])) == ChooseThumbnail(JObject(fields))
  {
  }

  /**
   * A falsy thumbnail downloads nothing; a truthy one must be a string, is
   * fetched, and is saved under the name after its last '/', which has no
   * '/' and is the same in the file path and in the web path.
   */
  lemma DownloadImageSpec(roots: Roots, img: Json, net: Responses)
    ensures !Truthy(img) ==> DownloadImage(roots, img, net) == Ok(None)
    ensures Truthy(img) && !img.JString? ==> DownloadImage(roots, img, net) == Err(AttributeError("split"))
    ensures Truthy(img) && img.JString? && img.s !in net ==> DownloadImage(roots, img, net) == Err(RequestError(img.s))
    ensures Truthy(img) && img.JString? && img.s in net ==>
      exists name ::
        && '/' !in name && |name| <= |img.s| && name == img.s[|img.s| - |name|..]
        && (|name| == |img.s| || img.s[|img.s| - |name| - 1] == '/')
        && DownloadImage(roots, img, net)
           == Ok(Some(Image(roots.imageRoot + "/" + name, roots.imageWebRoot + "/" + name, net[img.s])))
  {
    if Truthy(img) && img.JString? && img.s in net {
      DownloadImageSaves(roots, img.s, net);
    }
  }

  lemma DownloadImageSaves(roots: Roots, url: string, net: Responses)
    requires url != [] && url in net
    ensures var name := LastSegment(url);
      && '/' !in name && |name| <= |url| && name == url[|url| - |name|..]
      && (|name| == |url| || url[|url| - |name| - 1] == '/')
      && DownloadImage(roots, JString(url), net)
         == Ok(Some(Image(roots.imageRoot + "/" + name, roots.imageWebRoot + "/" + name, net[url])))
  {
    LastSegmentSpec(url);
  }

  /** The title a successful capture used: a string under "title". */
  function TitleOf(link: Json): string {
    if link.JObject? && "title" in link.fields && link.fields["title"].JString?
    then link.fields["title"].s else ""
  }

  /**
   * A capture that raises nothing had a dict with an integer-like position, a
   * string title and a url.  It writes the image first exactly when the
   * thumbnail is truthy, then the descriptor, under the slug of the title, for
   * the call `create_link_file(url, position + 1, title, img_fn, image_link)`.
   */
  lemma CaptureSucceeds(roots: Roots, link: Json, net: Responses)
    requires CapturePlan(roots, link, net).failure.None?
    ensures link.JObject? && "position" in link.fields && "title" in link.fields && "url" in link.fields
    ensures link.fields["title"].JString? && TitleOf(link) == link.fields["title"].s
    ensures Priority(link).Ok? && ChooseThumbnail(link).Ok? && Str(link.fields["url"]).Ok?
    ensures var img := ChooseThumbnail(link).value;
      var o := CapturePlan(roots, link, net);
      && |o.writes| == (if Truthy(img) then 2 else 1)
      && (Truthy(img) ==>
            && img.JString? && img.s in net
            && o.writes[0] == Write(roots.imageRoot + "/" + LastSegment(img.s), Binary(net[img.s])))
      && o.writes[|o.writes| - 1] == Write(
           LinkFileName(roots.linkRoot, TitleOf(link)),
           Text(FrontMatter.DescriptorText(
             Str(link.fields["url"]).value, Priority(link).value, TitleOf(link),
             if Truthy(img) then Some(roots.imageRoot + "/" + LastSegment(img.s)) else None,
             if Truthy(img) then Some(roots.imageWebRoot + "/" + LastSegment(img.s)) else None)))
  {
  }

  /**
   * The descriptor of a successful capture reads back as the title, the url,
   * the position plus one, and the web path of the image exactly when the
   * thumbnail is truthy (when none of these contains a line break).
   */
  lemma CaptureDescriptorReadsBack(roots: Roots, link: Json, net: Responses)
    requires CapturePlan(roots, link, net).failure.None?
    requires link.JObject? && "position" in link.fields && link.fields["position"].JInt?
    requires "url" in link.fields && link.fields["url"].JString?
    requires FrontMatter.NoNewline(TitleOf(link)) && FrontMatter.NoNewline(link.fields["url"].s)
    requires FrontMatter.NoNewline(roots.imageWebRoot)
    requires ChooseThumbnail(link).Ok? && ChooseThumbnail(link).value.JString? ==>
      FrontMatter.NoNewline(ChooseThumbnail(link).value.s)
    ensures var o := CapturePlan(roots, link, net);
      var img := ChooseThumbnail(link).value;
      && o.writes[|o.writes| - 1].content.Text?
      && FrontMatter.ParseDescriptor(o.writes[|o.writes| - 1].content.text)
         == Some(FrontMatter.Descriptor(
              TitleOf(link), link.fields["url"].s, link.fields["position"].n + 1,
              if Truthy(img) then Some(roots.imageWebRoot + "/" + LastSegment(img.s)) else None))
  {
    CaptureSucceeds(roots, link, net);
    var img := ChooseThumbnail(link).value;
    var url := link.fields["url"].s;
    var priority := link.fields["position"].n + 1;
    assert Priority(link).value == priority;
    assert Str(link.fields["url"]).value == url;
    var imgFn := if Truthy(img) then Some(roots.imageRoot + "/" + LastSegment(img.s)) else None;
    var imageLink := if Truthy(img) then Some(roots.imageWebRoot + "/" + LastSegment(img.s)) else None;
    if Truthy(img) {
      ImageLinkNoNewline(roots.imageWebRoot, img.s);
    }
    FrontMatter.DescriptorRoundTrip(url, priority, TitleOf(link), imgFn, imageLink);
  }

  lemma ImageLinkNoNewline(webRoot: string, url: string)
    requires FrontMatter.NoNewline(webRoot) && FrontMatter.NoNewline(url)
    ensures FrontMatter.NoNewline(webRoot + "/" + LastSegment(url))
  {
    LastSegmentSpec(url);
    var name := LastSegment(url);
    assert forall i :: 0 <= i < |name| ==> name[i] == url[|url| - |name| + i];
  }

  /** The exceptions raised before anything is written, in the order the source meets them. */
  lemma CaptureFailsBeforeWriting(roots: Roots, link: Json, net: Responses)
    ensures !link.JObject? ==> CapturePlan(roots, link, net) == Outcome([], Some(TypeError))
    ensures link.JObject? && "position" !in link.fields ==>
      CapturePlan(roots, link, net) == Outcome([], Some(KeyError("position")))
    ensures Priority(link).Ok? && "title" !in link.fields ==>
      CapturePlan(roots, link, net) == Outcome([], Some(KeyError("title")))
    ensures Priority(link).Ok? && "title" in link.fields && ChooseThumbnail(link).Ok? ==>
      var img := ChooseThumbnail(link).value;
      img.JString? && img.s != [] && img.s !in net ==>
      CapturePlan(roots, link, net) == Outcome([], Some(RequestError(img.s)))
  {
  }

  /** A title that is not a string fails in `lower`, after the thumbnail was already saved. */
  lemma CaptureFailsAtTitle(roots: Roots, link: Json, net: Responses)
    requires Priority(link).Ok? && link.JObject? && "title" in link.fields && !link.fields["title"].JString?
    requires ChooseThumbnail(link).Ok? && DownloadImage(roots, ChooseThumbnail(link).value, net).Ok?
    ensures CapturePlan(roots, link, net)
         == Outcome(ImageWrites(DownloadImage(roots, ChooseThumbnail(link).value, net).value), Some(AttributeError("lower")))
  {
  }

  // ---------------------------------------------------------------------------
  // The driver loop.

  /** Every capture's writes, one link after another. */
  function CapturedWrites(roots: Roots, links: seq<Json>, net: Responses): seq<Write> {
    AllWrites(Plans(roots, links, net))
  }

  lemma PlansPrefix(roots: Roots, links: seq<Json>, net: Responses, k: nat)
    requires k <= |links|
    ensures Plans(roots, links, net)[..k] == Plans(roots, links[..k], net)
  {
  }

  lemma PlansSnoc(roots: Roots, links: seq<Json>, net: Responses, k: nat)
    requires k < |links|
    ensures Plans(roots, links[..k + 1], net) == Plans(roots, links[..k], net) + [CapturePlan(roots, links[k], net)]
  {
  }

  /**
   * The outcome after one more link: the same when the run already stopped,
   * otherwise the new capture's writes added and its exception, if any.
   */
  lemma RunPlanStep(roots: Roots, links: seq<Json>, net: Responses, k: nat)
    requires k < |links|
    ensures var before := RunPlan(roots, links[..k], net);
      RunPlan(roots, links[..k + 1], net)
      == if before.failure.Some? then before
         else Outcome(before.writes + CapturePlan(roots, links[k], net).writes, CapturePlan(roots, links[k], net).failure)
  {
    PlansSnoc(roots, links, net, k);
    var os := Plans(roots, links[..k], net);
    assert (os + [CapturePlan(roots, links[k], net)])[..|os|] == os;
  }

  /** The run raises nothing exactly when no capture raises, and then it made every capture's writes in order. */
  lemma RunPlanSucceeds(roots: Roots, links: seq<Json>, net: Responses)
    ensures RunPlan(roots, links, net).failure.None?
        <==> forall i :: 0 <= i < |links| ==> CapturePlan(roots, links[i], net).failure.None?
    ensures RunPlan(roots, links, net).failure.None? ==>
      RunPlan(roots, links, net).writes == CapturedWrites(roots, links, net)
  {
    var os := Plans(roots, links, net);
    ChainSucceeds(os);
    assert forall i :: 0 <= i < |links| ==> os[i] == CapturePlan(roots, links[i], net);
  }

  /**
   * A run that raises stops at the first link whose capture raises: it made
   * the writes of the links before it and that capture's own writes, and it
   * raises that capture's exception.
   */
  lemma RunPlanStops(roots: Roots, links: seq<Json>, net: Responses)
    requires RunPlan(roots, links, net).failure.Some?
    ensures exists k ::
      && 0 <= k < |links|
      && (forall i :: 0 <= i < k ==> CapturePlan(roots, links[i], net).failure.None?)
      && CapturePlan(roots, links[k], net).failure.Some?
      && RunPlan(roots, links, net)
         == Outcome(CapturedWrites(roots, links[..k + 1], net), CapturePlan(roots, links[k], net).failure)
  {
    var os := Plans(roots, links, net);
    ChainStops(os);
    var k :| FirstFailure(os, k);
    StopsAt(roots, links, net, k);
  }

  lemma StopsAt(roots: Roots, links: seq<Json>, net: Responses, k: nat)
    requires FirstFailure(Plans(roots, links, net), k)
    ensures forall i :: 0 <= i < k ==> CapturePlan(roots, links[i], net).failure.None?
    ensures CapturePlan(roots, links[k], net).failure.Some?
    ensures RunPlan(roots, links, net)
         == Outcome(CapturedWrites(roots, links[..k + 1], net), CapturePlan(roots, links[k], net).failure)
  {
    var os := Plans(roots, links, net);
    StoppedRun(roots, links, net, k);
    assert os[k] == CapturePlan(roots, links[k], net);
    forall i | 0 <= i < k ensures CapturePlan(roots, links[i], net).failure.None? {
      assert os[i] == CapturePlan(roots, links[i], net);
    }
  }

  lemma StoppedRun(roots: Roots, links: seq<Json>, net: Responses, k: nat)
    requires FirstFailure(Plans(roots, links, net), k)
    ensures RunPlan(roots, links, net)
         == Outcome(CapturedWrites(roots, links[..k + 1], net), Plans(roots, links, net)[k].failure)
  {
    var os := Plans(roots, links, net);
    PlansPrefix(roots, links, net, k + 1);
    assert CapturedWrites(roots, links[..k + 1], net) == AllWrites(os[..k + 1]);
  }
}
