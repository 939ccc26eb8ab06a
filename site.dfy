/**
 * The files the script leaves behind, as an object whose methods write them
 * the way the source does: `create_link_file` opens the descriptor and writes
 * it line by line, `capture_link` works through its locals step by step, and
 * the driver loop captures every link in order.  Each method is proved against
 * the plan of writes in the Capture module.
 */
module Site {
  import opened Wrappers
  import opened PyJson
  import FrontMatter
  import Slug
  import opened Capture
  import Decimal
  import Links

  /** The file system after a sequence of writes: each write replaces the whole file. */
  function ApplyWrites(files: map<string, Content>, writes: seq<Write>): (r: map<string, Content>)
    ensures files.Keys <= r.Keys
    decreases |writes|
  {
    if writes == [] then files
    else ApplyWrites(files[writes[0].path := writes[0].content], writes[1..])
  }

  lemma {:induction false} ApplyWritesAppend(files: map<string, Content>, a: seq<Write>, b: seq<Write>)
    ensures ApplyWrites(files, a + b) == ApplyWrites(ApplyWrites(files, a), b)
    decreases |a|
  {
    if a == [] {
      assert a + b == b;
    } else {
      assert (a + b)[0] == a[0];
      assert (a + b)[1..] == a[1..] + b;
      ApplyWritesAppend(files[a[0].path := a[0].content], a[1..], b);
    }
  }

  /** A file that no write names keeps what it held, or stays absent. */
  lemma {:induction false} ApplyWritesUntouched(files: map<string, Content>, writes: seq<Write>, path: string)
    requires forall k :: 0 <= k < |writes| ==> writes[k].path != path
    ensures path in ApplyWrites(files, writes) <==> path in files
    ensures path in files ==> ApplyWrites(files, writes)[path] == files[path]
    decreases |writes|
  {
    if writes != [] {
      assert forall k :: 0 <= k < |writes| - 1 ==> writes[1..][k] == writes[k + 1];
      ApplyWritesUntouched(files[writes[0].path := writes[0].content], writes[1..], path);
    }
  }

  /** The files after the writes are the files before plus every path written. */
  lemma {:induction false} ApplyWritesKeys(files: map<string, Content>, writes: seq<Write>)
    ensures ApplyWrites(files, writes).Keys == files.Keys + set k | 0 <= k < |writes| :: writes[k].path
    decreases |writes|
  {
    if writes != [] {
      var rest := writes[1..];
      ApplyWritesKeys(files[writes[0].path := writes[0].content], rest);
      assert forall k :: 0 <= k < |rest| ==> rest[k] == writes[k + 1];
      var all := set k | 0 <= k < |writes| :: writes[k].path;
      var tail := set k | 0 <= k < |rest| :: rest[k].path;
      assert all == {writes[0].path} + tail by {
        forall p | p in all ensures p in {writes[0].path} + tail {
          var k :| 0 <= k < |writes| && writes[k].path == p;
          if k > 0 { assert rest[k - 1].path == p; }
        }
      }
    }
  }

  /** A file holds what the last write that names it wrote; earlier writes to it are lost. */
  lemma {:induction false} LastWriteWins(files: map<string, Content>, writes: seq<Write>, k: nat)
    requires k < |writes|
    requires forall j :: k < j < |writes| ==> writes[j].path != writes[k].path
    ensures writes[k].path in ApplyWrites(files, writes)
    ensures ApplyWrites(files, writes)[writes[k].path] == writes[k].content
    decreases |writes|
  {
    if k == 0 {
      assert forall j :: 0 <= j < |writes| - 1 ==> writes[1..][j] == writes[j + 1];
      ApplyWritesUntouched(files[writes[0].path := writes[0].content], writes[1..], writes[0].path);
    } else {
      assert forall j :: k - 1 < j < |writes| - 1 ==> writes[1..][j] == writes[j + 1];
      LastWriteWins(files[writes[0].path := writes[0].content], writes[1..], k - 1);
    }
  }

  /** Once a run has raised, later links change nothing. */
  lemma {:induction false} RunPlanStopped(roots: Roots, links: seq<Json>, net: Responses, i: nat, j: nat)
    requires i <= j <= |links|
    requires RunPlan(roots, links[..i], net).failure.Some?
    ensures RunPlan(roots, links[..j], net) == RunPlan(roots, links[..i], net)
    decreases j - i
  {
    if i < j {
      RunPlanStep(roots, links, net, i);
      RunPlanStopped(roots, links, net, i + 1, j);
    }
  }

  class Site {
    /** Every file by path: descriptors as text, images as bytes. */
    var files: map<string, Content>

    constructor (existing: map<string, Content>)
      ensures files == existing
    {
      files := existing;
    }

    /**
     * `create_link_file`: opening the file empties it, each `f.write` adds a
     * line to what the handle holds, and leaving the `with` block stores it.
     */
    method CreateLinkFile(url: string, priority: int, title: string,
                          imgFn: Option<string>, imageLink: Option<string>, linkFn: string)
      modifies this
      ensures files == old(files)[linkFn := Text(FrontMatter.DescriptorText(url, priority, title, imgFn, imageLink))]
    {
      files := files[linkFn := Text([])];
      var written: seq<string> := [];
      written := written + [FrontMatter.Fence];
      written := written + ["title: " + title + "\n"];
      written := written + ["link: " + url + "\n"];
      written := written + ["priority: " + Decimal.IntToString(priority) + "\n"];
      if FrontMatter.HasImage(imgFn) {
        written := written + ["image: " + FrontMatter.Render(imageLink) + "\n"];
      }
      written := written + [FrontMatter.Fence];
      written := written + ["\n"];
      assert written == FrontMatter.DescriptorLines(url, priority, title, imgFn, imageLink);
      files := files[linkFn := Text(FrontMatter.Concat(written))];
    }

    /**
     * `capture_link`: the locals are set step by step, the image is saved
     * when there is one, then the descriptor is written; an exception ends
     * the capture where it is raised.
     */
    method CaptureLink(roots: Roots, link: Json, net: Responses) returns (failure: Option<PyError>)
      modifies this
      ensures files == ApplyWrites(old(files), CapturePlan(roots, link, net).writes)
      ensures failure == CapturePlan(roots, link, net).failure
    {
      var p := Priority(link);
      if p.Err? {
        return Some(p.error);
      }
      var priority := p.value;
      var imgFn: Option<string> := None;
      var imageLink: Option<string> := None;
      var title := Subscript(link, "title");
      if title.Err? {
        return Some(title.error);
      }
      var chosen := ChooseThumbnail(link);
      if chosen.Err? {
        return Some(chosen.error);
      }
      var img := chosen.value;
      ghost var done: seq<Write> := [];
      if Truthy(img) {
        var name := SplitLast(img);
        if name.Err? {
          return Some(name.error);
        }
        imgFn := Some(roots.imageRoot + "/" + name.value);
        imageLink := Some(roots.imageWebRoot + "/" + name.value);
        if img.s !in net {
          return Some(RequestError(img.s));
        }
        files := files[imgFn.value := Binary(net[img.s])];
        done := [Write(imgFn.value, Binary(net[img.s]))];
        assert ApplyWrites(old(files), done) == files by {
          assert done[1..] == [];
        }
      }
      if !title.value.JString? {
        return Some(AttributeError("lower"));
      }
      var stub := Slug.StubTitle(title.value.s);
      var linkFn := roots.linkRoot + "/" + stub + ".md";
      var url := Subscript(link, "url");
      if url.Err? {
        return Some(url.error);
      }
      var urlText := Str(url.value);
      if urlText.Err? {
        return Some(urlText.error);
      }
      ghost var before := files;
      CreateLinkFile(urlText.value, priority, title.value.s, imgFn, imageLink, linkFn);
      ghost var last := Write(linkFn, Text(FrontMatter.DescriptorText(urlText.value, priority, title.value.s, imgFn, imageLink)));
      assert files == ApplyWrites(before, [last]);
      ApplyWritesAppend(old(files), done, [last]);
      failure := None;
    }

    /** The driver loop: capture each link in turn until one raises. */
    method CaptureAll(roots: Roots, links: seq<Json>, net: Responses) returns (failure: Option<PyError>)
      modifies this
      ensures files == ApplyWrites(old(files), RunPlan(roots, links, net).writes)
      ensures failure == RunPlan(roots, links, net).failure
    {
      var i := 0;
      failure := None;
      assert links[..0] == [];
      while i < |links| && failure.None?
        invariant 0 <= i <= |links|
        invariant files == ApplyWrites(old(files), RunPlan(roots, links[..i], net).writes)
        invariant failure == RunPlan(roots, links[..i], net).failure
      {
        ghost var before := RunPlan(roots, links[..i], net);
        failure := CaptureLink(roots, links[i], net);
        RunPlanStep(roots, links, net, i);
        ApplyWritesAppend(old(files), before.writes, CapturePlan(roots, links[i], net).writes);
        i := i + 1;
      }
      if i < |links| {
        RunPlanStopped(roots, links, net, i, |links|);
      }
      assert links[..|links|] == links;
    }

    /** The script after the page is parsed: collect the valid links, then capture them all. */
    method Run(roots: Roots, data: Json, net: Responses) returns (failure: Option<PyError>)
      modifies this
      ensures files == ApplyWrites(old(files), Script(roots, data, net).writes)
      ensures failure == Script(roots, data, net).failure
    {
      var links := Links.CollectLinkDefinitions(data);
      if links.Err? {
        return Some(links.error);
      }
      failure := CaptureAll(roots, links.value, net);
    }
  }
}
