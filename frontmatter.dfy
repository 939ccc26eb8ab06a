/**
 * The descriptor file `create_link_file` writes: a front-matter block of
 * `key: value` lines between two `---` lines, followed by an empty line.  The
 * lines are given by `DescriptorLines`; `ParseDescriptor` reads the block back
 * and is the partner of the round-trip lemma.
 */
module FrontMatter {
  import opened Wrappers
  import Decimal
  import PyJson

  /** What a descriptor file records about one link. */
  datatype Descriptor = Descriptor(title: string, link: string, priority: int, image: Option<string>)

  /** The text an f-string gives an optional string: `None` is written as "None". */
  function Render(v: Option<string>): string {
    if v.Some? then v.value else "None"
  }

  /** `if img_fn:`: the image path is present and is not the empty string. */
  predicate HasImage(imgFn: Option<string>) {
    imgFn.Some? && imgFn.value != []
  }

  /** The image path as the Python value it is: a str, or None. */
  function ImageValue(imgFn: Option<string>): PyJson.Json {
    if imgFn.Some? then PyJson.JString(imgFn.value) else PyJson.JNull
  }

  /**
   * `if img_fn:` is Python truthiness of that value, and the `image:` line
   * renders it the way an f-string does.
   */
  lemma HasImageIsTruthy(imgFn: Option<string>)
    ensures HasImage(imgFn) <==> PyJson.Truthy(ImageValue(imgFn))
    ensures PyJson.Str(ImageValue(imgFn)) == Ok(Render(imgFn))
  {
  }

  const Fence: string := "---\n"

  /** The lines `create_link_file` writes, in order. */
  function DescriptorLines(url: string, priority: int, title: string,
                           imgFn: Option<string>, imageLink: Option<string>): (r: seq<string>)
    ensures |r| == (if HasImage(imgFn) then 7 else 6)
    ensures r[0] == Fence && r[|r| - 2] == Fence && r[|r| - 1] == "\n"
  {
    [Fence,
     "title: " + title + "\n",
     "link: " + url + "\n",
     "priority: " + Decimal.IntToString(priority) + "\n"]
    + (if HasImage(imgFn) then ["image: " + Render(imageLink) + "\n"] else [])
    + [Fence, "\n"]
  }

  function Concat(lines: seq<string>): string {
    if lines == [] then [] else lines[0] + Concat(lines[1..])
  }

  /** The whole text of the descriptor file. */
  function DescriptorText(url: string, priority: int, title: string,
                          imgFn: Option<string>, imageLink: Option<string>): (r: string)
    ensures |r| >= |Fence| && r[..|Fence|] == Fence
  {
    Concat(DescriptorLines(url, priority, title, imgFn, imageLink))
  }

  // ---------------------------------------------------------------------------
  // Reading a descriptor back.

  predicate NoNewline(s: string) {
    '\n' !in s
  }

  /** A line of the file: it ends with its only line break. */
  predicate IsLine(l: string) {
    l != [] && l[|l| - 1] == '\n' && NoNewline(l[..|l| - 1])
  }

  /** The text up to and including the first line break, or all of it when there is none. */
  function FirstLine(s: string): (l: string)
    ensures |l| <= |s|
    ensures s != [] ==> |l| > 0
  {
    if s == [] then []
    else if s[0] == '\n' then "\n"
    else [s[0]] + FirstLine(s[1..])
  }

  /** The text cut after each line break, keeping the breaks. */
  function SplitLines(s: string): seq<string>
    decreases |s|
  {
    if s == [] then [] else
      var l := FirstLine(s);
      [l] + SplitLines(s[|l|..])
  }

  /** The value of a `key: value` line. */
  function FieldValue(key: string, line: string): Option<string> {
    if |key| < |line| && line[..|key|] == key && line[|line| - 1] == '\n'
    then Some(line[|key|..|line| - 1])
    else None
  }

  /** Reads the lines of a descriptor: fence, title, link, priority, optional image, fence, empty line. */
  function ParseLines(ls: seq<string>): Option<Descriptor> {
    if |ls| != 6 && |ls| != 7 then None
    else if ls[0] != Fence || ls[|ls| - 2] != Fence || ls[|ls| - 1] != "\n" then None
    else
      var title :- FieldValue("title: ", ls[1]);
      var link :- FieldValue("link: ", ls[2]);
      var p :- FieldValue("priority: ", ls[3]);
      var priority :- Decimal.ParseInt(p);
      if |ls| == 6 then Some(Descriptor(title, link, priority, None))
      else
        var image :- FieldValue("image: ", ls[4]);
        Some(Descriptor(title, link, priority, Some(image)))
  }

  /** Reads a descriptor file. */
  function ParseDescriptor(text: string): Option<Descriptor> {
    ParseLines(SplitLines(text))
  }

  // ---------------------------------------------------------------------------
  // Properties.

  /**
   * Seven lines with the image line fifth when there is an image path, six
   * lines without it; the block is always fenced and ends with an empty line.
   */
  lemma DescriptorLinesShape(url: string, priority: int, title: string,
                             imgFn: Option<string>, imageLink: Option<string>)
    ensures var ls := DescriptorLines(url, priority, title, imgFn, imageLink);
      && (|ls| == 7 <==> HasImage(imgFn))
      && (|ls| == 6 <==> !HasImage(imgFn))
      && ls[0] == Fence && ls[|ls| - 2] == Fence && ls[|ls| - 1] == "\n"
      && ls[1] == "title: " + title + "\n"
      && ls[2] == "link: " + url + "\n"
      && ls[3] == "priority: " + Decimal.IntToString(priority) + "\n"
      && (HasImage(imgFn) ==> ls[4] == "image: " + Render(imageLink) + "\n")
  {
  }

  lemma {:induction false} FirstLineOfLine(l: string, rest: string)
    requires IsLine(l)
    ensures FirstLine(l + rest) == l
    decreases |l|
  {
    if l[0] != '\n' {
      assert |l| > 1;
      assert (l + rest)[1..] == l[1..] + rest;
      assert l[1..][..|l[1..]| - 1] == l[..|l| - 1][1..];
      FirstLineOfLine(l[1..], rest);
      assert l == [l[0]] + l[1..];
    } else {
      assert |l| == 1;
    }
  }

  /** Cutting the text of whole lines at its line breaks gives the lines back. */
  lemma {:induction false} SplitConcat(lines: seq<string>)
    requires forall k :: 0 <= k < |lines| ==> IsLine(lines[k])
    ensures SplitLines(Concat(lines)) == lines
  {
    if lines != [] {
      var l, rest := lines[0], Concat(lines[1..]);
      FirstLineOfLine(l, rest);
      assert (l + rest)[|l|..] == rest;
      SplitConcat(lines[1..]);
    }
  }

  /** A `key: value` line gives back its value, whatever the value holds. */
  lemma FieldValueOf(key: string, v: string)
    requires key != []
    ensures FieldValue(key, key + v + "\n") == Some(v)
  {
    var l := key + v + "\n";
    assert l[..|key|] == key;
    assert l[|key|..|l| - 1] == v;
  }

  lemma FieldLine(key: string, v: string)
    requires NoNewline(key) && NoNewline(v)
    ensures IsLine(key + v + "\n")
  {
    var l := key + v + "\n";
    assert l[..|l| - 1] == key + v;
  }

  /**
   * The descriptor reads back as the title, link and priority that were
   * written, with an image exactly when there was an image path, as long as
   * none of the written values contains a line break.
   */
  lemma DescriptorRoundTrip(url: string, priority: int, title: string,
                            imgFn: Option<string>, imageLink: Option<string>)
    requires NoNewline(title) && NoNewline(url)
    requires HasImage(imgFn) ==> NoNewline(Render(imageLink))
    ensures ParseDescriptor(DescriptorText(url, priority, title, imgFn, imageLink))
         == Some(Descriptor(title, url, priority,
                            if HasImage(imgFn) then Some(Render(imageLink)) else None))
  {
    var ls := DescriptorLines(url, priority, title, imgFn, imageLink);
    DescriptorLinesAreLines(url, priority, title, imgFn, imageLink);
    SplitConcat(ls);
    LinesRoundTrip(url, priority, title, imgFn, imageLink);
  }

  lemma DescriptorLinesAreLines(url: string, priority: int, title: string,
                                imgFn: Option<string>, imageLink: Option<string>)
    requires NoNewline(title) && NoNewline(url)
    requires HasImage(imgFn) ==> NoNewline(Render(imageLink))
    ensures var ls := DescriptorLines(url, priority, title, imgFn, imageLink);
      forall k :: 0 <= k < |ls| ==> IsLine(ls[k])
  {
    DescriptorLinesShape(url, priority, title, imgFn, imageLink);
    Decimal.IntToStringNoNewline(priority);
    FieldLine("title: ", title);
    FieldLine("link: ", url);
    FieldLine("priority: ", Decimal.IntToString(priority));
    if HasImage(imgFn) {
      FieldLine("image: ", Render(imageLink));
    }
    assert IsLine(Fence) && IsLine("\n");
  }

  /**
   * The lines read back as the title, link and priority that were written,
   * with the image link exactly when there was an image path.
   */
  lemma LinesRoundTrip(url: string, priority: int, title: string,
                       imgFn: Option<string>, imageLink: Option<string>)
    ensures ParseLines(DescriptorLines(url, priority, title, imgFn, imageLink))
         == Some(Descriptor(title, url, priority,
                            if HasImage(imgFn) then Some(Render(imageLink)) else None))
  {
    DescriptorLinesShape(url, priority, title, imgFn, imageLink);
    Decimal.IntToStringRoundTrip(priority);
    FieldValueOf("title: ", title);
    FieldValueOf("link: ", url);
    FieldValueOf("priority: ", Decimal.IntToString(priority));
    if HasImage(imgFn) {
      FieldValueOf("image: ", Render(imageLink));
    }
  }
}
