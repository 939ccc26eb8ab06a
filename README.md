# mwdj-links `get_links.py` in Dafny

`scripts/get_links.py` copies the links of a Linktree page into a static
site. It reads the page's embedded JSON and takes the entries under
`props.pageProps.links` that contain `"url"`. Then, for each entry in order,
it:

- downloads the thumbnail, when there is one, into `../images`;
- writes a front-matter descriptor into `../_links`, named by the slug of
  the title (`stub_title`).

This project models that core and proves what it does.

| file | module | what it holds |
|---|---|---|
| `wrappers.dfy` | `Wrappers` | `Option` and `Result` |
| `pyjson.dfy` | `PyJson` | the parsed JSON tree and the Python operations the script applies to it: `in`, `[]`, `+ 1`, truthiness, `str()`, `split("/")[-1]`. Each reports the exception Python raises (`KeyError`, `TypeError`, `AttributeError`). |
| `decimal.dfy` | `Decimal` | the decimal text of an `int` (the `priority:` line) and reading it back |
| `slug.dfy` | `Slug` | `stub_title` as its two substitutions (`Collapse`, `StripHyphens`) and an independent reference definition: the groups of letters and digits joined by `-` |
| `links.dfy` | `Links` | the key path `props` / `pageProps` / `links` and the `"url"` filter of `collect_link_definitions` |
| `frontmatter.dfy` | `FrontMatter` | the lines `create_link_file` writes, and a parser that reads a descriptor back |
| `capture.dfy` | `Capture` | `capture_link` as the list of file writes it makes and the exception that stops it; the driver loop as the chaining of those outcomes |
| `site.dfy` | `Site` | class `Site`, whose `files` map the methods update the way the script does: `create_link_file` line by line, `capture_link` step by step, then the driver loop. Each method is proved equal to the `Capture` plan. |
| `scenarios.dfy` | `Scenarios` | concrete payloads: a plain link, a link with a thumbnail, payloads missing part of the key path |

Downloads are a parameter: a map from URL to response body. A URL that is
not in the map raises `RequestError`.

## Model

| member | source | states |
|---|---|---|
| PyJson.Contains | scripts/get_links.py:103-105 | `key in v`: on a dict it is the key test, and it raises `TypeError` exactly on None, a bool or an int. Lists and strings are described by `PyJson.ContainsSpec`. |
| PyJson.ContainsSpec | scripts/get_links.py:144 | `key in v` on a list is true exactly when some element is the string `key`; on a str, exactly when `key` occurs in it as a contiguous piece. |
| PyJson.IsSubstringAt | scripts/get_links.py:144 | The recursive substring test agrees with the positional one: `needle in hay` holds exactly when `needle` occurs at some position of `hay`. |
| PyJson.Subscript | scripts/get_links.py:96-106 | `v[key]` succeeds exactly on a dict that has the key, and then yields that key's value. It raises `KeyError(key)` on a dict without the key and `TypeError` on any other value. |
| PyJson.SubscriptGuardedByContains | scripts/get_links.py:103-106 | On a dict, `key in v` is true exactly when `v[key]` succeeds; otherwise the lookup raises `KeyError(key)`. |
| PyJson.FalsyValues | scripts/get_links.py:110 | `if img:` (`Truthy`) is false exactly for None, False, 0 and the empty str, list and dict. |
| PyJson.AddOne | scripts/get_links.py:96 | `v + 1` succeeds exactly on an int or a bool and gives `n + 1` for an int; any other value raises `TypeError`. |
| PyJson.BoolAddsAsInt | scripts/get_links.py:96 | A bool adds as the int 0 or 1, so `True + 1 == 2` and `False + 1 == 1`. |
| PyJson.Str | scripts/get_links.py:50-51 | The f-string text of a value: a str is written as itself, and an int as decimal text that reads back as the int. A list or dict is not rendered (`Unsupported`), and that is the only failure. |
| PyJson.LastSegment | scripts/get_links.py:112 | The part of the URL after its last `/`. It is never longer than the URL. |
| PyJson.SplitLast | scripts/get_links.py:112 | `img.split("/")[-1]` succeeds exactly on a string. It then gives a name without `/`, no longer than the URL. Any other value raises `AttributeError("split")`. |
| PyJson.LastSegmentSpec | scripts/get_links.py:112 | `img.split("/")[-1]` has no `/`. It ends the URL and is either the whole URL or follows a `/`. |
| PyJson.LastSegmentUnique | scripts/get_links.py:112 | Only one suffix without `/` is the whole URL or follows a `/`: the last segment. |
| PyJson.LastSegmentOfPlain | scripts/get_links.py:112 | A URL without `/` is its own image name. |
| Decimal.IntToString | scripts/get_links.py:52 | The text `f"{priority}"` writes for an int. It is never empty and starts with `-` exactly when the number is negative. |
| Decimal.NatToStringSpec | scripts/get_links.py:52 | The text of a non-negative priority is all digits, has no leading zero, and denotes the number. |
| Decimal.IntToStringRoundTrip | scripts/get_links.py:52 | Reading back the written priority text gives the priority. |
| Decimal.IntToStringInjective | scripts/get_links.py:52 | Distinct priorities are written as distinct text. |
| Decimal.IntToStringNoNewline | scripts/get_links.py:52 | The `priority:` value never contains a line break. |
| Slug.Lower | scripts/get_links.py:71 | `title.lower()` over ASCII: each upper-case letter becomes its lower-case letter, and the length is kept. |
| Slug.Collapse | scripts/get_links.py:71 | The first substitution: each maximal run of characters other than ASCII letters and digits becomes one `-`. Its result is characterised by `Slug.CollapseWords` and `Slug.CollapseLength`. |
| Slug.CollapseLength | scripts/get_links.py:71 | The first substitution never makes the text longer. |
| Slug.StripHyphens | scripts/get_links.py:72 | The second substitution. It never makes the text longer, and its result neither starts nor ends with `-`. |
| Slug.StubTitle | scripts/get_links.py:61-73 | `stub_title`. The slug is never longer than the title and has no `-` at either end. The lemmas below state the rest. |
| Slug.DropNonAlnumSpec | scripts/get_links.py:71 | Skipping a run removes exactly the leading characters that are not ASCII letters or digits. |
| Slug.CollapseWords | scripts/get_links.py:71 | The first substitution yields the groups of letters and digits joined by single `-`. It adds one `-` for a leading run and one for a trailing run. A string without groups yields `""` or `"-"`. |
| Slug.StubTitleIsJoinedWords | scripts/get_links.py:61-73 | `stub_title` equals the reference definition: the groups of letters and digits of the lower-cased title, joined by `-`. |
| Slug.StubTitleIsSlug | scripts/get_links.py:71-72 | The slug uses only `a-z`, `0-9` and `-`. It never starts or ends with `-` and never has two `-` in a row. |
| Slug.StubTitleKeepsAlnums | scripts/get_links.py:71-72 | The slug keeps exactly the ASCII letters and digits of the lower-cased title, in order. |
| Slug.StubTitleEmpty | scripts/get_links.py:71-73 | The slug is empty exactly when the title has no ASCII letter or digit. |
| Slug.SlugIsFixedPoint | scripts/get_links.py:71-72 | A well-formed slug is its own slug. |
| Slug.StubTitleIdempotent | scripts/get_links.py:61-73 | Applying `stub_title` twice gives the result of applying it once. |
| Links.LinksAt | scripts/get_links.py:143 | `data["props"]["pageProps"]["links"]`. It can fail only with `TypeError` or with `KeyError` naming one of the three keys. |
| Links.FilterUrl | scripts/get_links.py:144 | The comprehension. It never returns more entries than it was given, and it can fail only with `TypeError`. |
| Links.CollectLinkDefinitions | scripts/get_links.py:143-146 | The key path, then the filter. It succeeds only when the path leads to a list or a string. A list gives at most as many entries as it has; a string gives none. |
| Links.LinksAtSpec | scripts/get_links.py:143 | The key path fails at the first missing key with `KeyError` naming it, and with `TypeError` at the first value that is not a dict. Otherwise it yields the `links` value. |
| Links.FilterUrlFails | scripts/get_links.py:144 | The comprehension raises exactly when some entry cannot be tested with `in` (None, a bool or a number), and then raises `TypeError`. |
| Links.FilterUrlKeeps | scripts/get_links.py:144 | The kept list has one element per entry containing `"url"`, all of which contain it. The i-th such entry sits at its rank among them, so the original order is kept. |
| Links.FilterUrlExact | scripts/get_links.py:144 | A value is kept exactly when it is an entry and contains `"url"`. |
| Links.CollectLinkDefinitionsSpec | scripts/get_links.py:143-146 | When the path leads to a list, collecting succeeds exactly when every entry can be tested. It then returns the entries containing `"url"`, as many as there are. |
| FrontMatter.HasImageIsTruthy | scripts/get_links.py:54-55 | `if img_fn:` (`HasImage`) is Python truthiness of `img_fn`, a str or None, so an empty path counts as no image. The `image:` line renders `image_link` as an f-string does, None as "None". |
| FrontMatter.DescriptorLines | scripts/get_links.py:49-58 | The lines `create_link_file` writes. There are 7 when `img_fn` is truthy and 6 otherwise. They open with the fence and close with the fence and an empty line. |
| FrontMatter.DescriptorText | scripts/get_links.py:48-58 | The text of the descriptor file. It begins with the `---` fence line. |
| FrontMatter.DescriptorLinesShape | scripts/get_links.py:48-58 | The descriptor has 7 lines when `img_fn` is truthy and 6 otherwise: fence, `title:`, `link:`, `priority:`, the `image:` line when present, fence, empty line. |
| FrontMatter.LinesRoundTrip | scripts/get_links.py:49-58 | Reading the lines back gives the title, link and priority, and gives the image link exactly when `img_fn` is truthy. |
| FrontMatter.DescriptorRoundTrip | scripts/get_links.py:48-58 | The whole written text reads back as the values that were written, when none contains a line break. |
| Capture.Priority | scripts/get_links.py:96 | `link["position"] + 1` succeeds exactly when the link is a dict whose position is an int or a bool. |
| Capture.ChooseThumbnail | scripts/get_links.py:103-108 | The thumbnail choice. On a dict it can fail only when there is no `"thumbnail"` key but there is a `"modifiers"` key, and then it raises `TypeError`. |
| Capture.DownloadImage | scripts/get_links.py:110-118 | There is no image exactly when the thumbnail is falsy. A saved image holds the body fetched for the thumbnail URL, which is a string. |
| Capture.LinkFileName | scripts/get_links.py:120-121 | `f"{link_root}/{stub}.md"` starts with `link_root/` and ends with `.md`. |
| Capture.CapturePlan | scripts/get_links.py:76-123 | `capture_link` for one link: the writes it makes and the exception that ends it, step by step in the order of the source. Its behaviour is stated by the `Capture` lemmas below. |
| Capture.RunPlan | scripts/get_links.py:152-153 | The driver loop: each link's capture in order, stopping at the first exception. Its behaviour is stated by `RunPlanSucceeds`, `RunPlanStops` and `RunPlanStep`. |
| Capture.Script | scripts/get_links.py:149-153 | Collecting the links and then running the loop. A collection that raises writes nothing and ends with an exception. |
| Capture.PrioritySpec | scripts/get_links.py:96 | The priority is `position + 1`. A missing position raises `KeyError("position")`, a link that is not a dict raises `TypeError`, and a position that is neither an int nor a bool raises `TypeError`. |
| Capture.ChooseThumbnailSpec | scripts/get_links.py:103-108 | A `"thumbnail"` key wins, whatever its value. `modifiers.thumbnailImage` is consulted only without it. With neither, there is no image. A `modifiers` value that cannot be tested raises. |
| Capture.ThumbnailIgnoresModifiers | scripts/get_links.py:103-106 | With a `"thumbnail"` key, the value of `"modifiers"` changes nothing. |
| Capture.DownloadImageSpec | scripts/get_links.py:110-118 | A falsy thumbnail downloads nothing. A truthy one that is not a string raises `AttributeError("split")`. An unreachable URL raises `RequestError`. Otherwise the body is saved as `image_root/name`, linked as `image_web_root/name`, with the same last-segment name in both. |
| Capture.CaptureSucceeds | scripts/get_links.py:76-123 | A capture that raises nothing had a dict with a position, a string title and a url. It writes the image first exactly when the thumbnail is truthy, then the descriptor at `link_root/stub.md` with the arguments of the `create_link_file` call. |
| Capture.CaptureDescriptorReadsBack | scripts/get_links.py:120-123 | The descriptor of a successful capture reads back as the title, the url and `position + 1`. It has the image web path exactly when the thumbnail is truthy. |
| Capture.CaptureFailsBeforeWriting | scripts/get_links.py:96-116 | A non-dict link, a missing position, a missing title or an unreachable thumbnail raises before any file is written. |
| Capture.CaptureFailsAtTitle | scripts/get_links.py:110-120 | A title that is not a string fails in `lower()` after the thumbnail has already been saved. |
| Capture.ChainSucceeds | scripts/get_links.py:152-153 | A run of captures raises nothing exactly when no capture raises; then its writes are all writes, in order. |
| Capture.ChainStops | scripts/get_links.py:152-153 | A run that raises stops at its first capture that raises. It keeps the writes up to and including that capture's own. |
| Capture.RunPlanStep | scripts/get_links.py:152-153 | One more loop iteration changes nothing after an exception. Otherwise it adds that link's writes and its exception. |
| Capture.RunPlanSucceeds | scripts/get_links.py:152-153 | The loop completes exactly when every link's capture completes. It makes every capture's writes, link after link. |
| Capture.RunPlanStops | scripts/get_links.py:152-153 | An aborted loop stopped at the first link whose capture raised. It made the writes of the links before it plus that capture's own, and raised that exception. |
| Site.ApplyWrites | scripts/get_links.py:48 | Opening a file with "w" or "wb" and writing it replaces the whole file. Applying writes never removes a file. |
| Site.ApplyWritesKeys | scripts/get_links.py:117-118 | After the writes, the files present are the files present before plus every path written. |
| Site.ApplyWritesAppend | scripts/get_links.py:117-118 | Applying two batches of writes is applying one after the other. |
| Site.ApplyWritesUntouched | scripts/get_links.py:48 | A file that no write names keeps its content, or stays absent. |
| Site.LastWriteWins | scripts/get_links.py:48 | Opening with `"w"` replaces a file: it holds what the last write to its path wrote, so a colliding slug or image name overwrites silently. |
| Site.RunPlanStopped | scripts/get_links.py:152-153 | After an exception, later links change nothing. |
| Site.Site.constructor | scripts/get_links.py:149 | The site starts with the files it already had. |
| Site.Site.CreateLinkFile | scripts/get_links.py:33-58 | The file at `link_fn` holds exactly the descriptor text, written line by line. Every other file is unchanged. |
| Site.Site.CaptureLink | scripts/get_links.py:76-123 | The files afterwards are the old files with the capture's writes applied, and the exception raised is the capture's. |
| Site.Site.CaptureAll | scripts/get_links.py:152-153 | The loop leaves the files of the whole run applied and raises the run's exception, if any. |
| Site.Site.Run | scripts/get_links.py:143-153 | Collects the links, then captures them all; the result is the script's outcome on the parsed page. |
| Scenarios.MySiteSlug | scripts/get_links.py:71-72 | `stub_title("My Site!")` is `my-site`. |
| Scenarios.PlainLinkScenario | scripts/get_links.py:143-153 | A page with one link and no thumbnail writes only `../_links/my-site.md`. Its descriptor reads back as title `My Site!`, link `https://example.com`, priority 1 and no image. |
| Scenarios.ThumbnailScenario | scripts/get_links.py:110-123 | With the thumbnail `https://cdn.example.com/abc.png`, the body is saved as `../images/abc.png` before the descriptor. The descriptor then has the image `/images/abc.png`. |
| Scenarios.MissingPathScenario | scripts/get_links.py:143 | A payload lacking `props`, `pageProps` or `links` raises `KeyError` naming that key and writes nothing. |

Two behaviours of the code are worth stating plainly:

- **HTTP status.** The script never checks the HTTP status of a thumbnail
  download. It saves whatever body comes back (lines 116-118), so a URL in the
  response map always succeeds.
- **Missing key path.** A missing key on the path raises Python's `KeyError`
  naming the key (line 143). A value that cannot be indexed by a string raises
  `TypeError`.

## Left out

- The page fetch, HTML parsing and `json.loads` (lines 136-141): the model starts from the parsed JSON value.
- The command-line check (lines 27-30) and the `print` progress messages (lines 101, 111): plumbing that changes no file.
- Network failures other than an unreachable URL: timeouts and HTTP status codes are not modelled, since the script ignores the status.
- JSON numbers other than integers: floats are not modelled. A float `position` would make a priority such as `2.0`.
- PyJson.Str: a url that is a JSON list or dict is written by Python with its `repr`. The model does not render it and reports `Unsupported` instead.
- Links.CollectLinkDefinitions: when `links` is a dict, Python iterates its keys. The order of a dict's keys is not modelled, so this case reports `Unsupported`.
- Slug.StubTitle: `str.lower()` is modelled over ASCII. The few non-ASCII characters that lower-case to ASCII letters (such as the Kelvin sign) are not modelled. Every other non-ASCII character is a separator in both the source and the model.
- File-system errors are not modelled: a missing directory, a path that names a directory (an image URL ending in `/` gives the name `""`), or a title that cannot be encoded in UTF-8. Every write is assumed to succeed.
- Text-mode newline translation on platforms that write `\r\n`: descriptors are modelled with `\n` line ends.
- Capture.CaptureDescriptorReadsBack and FrontMatter.DescriptorRoundTrip: these require that the title, url and image path contain no line break. A value with one would split its line, and the descriptor could not be read back.
- Capture.CapturePlan: Python refuses to turn an int of more than 4300 digits into text and raises `ValueError`. The script needs Python 3.12 for the f-string at line 101, and every such version has this limit. A `position` of 4300 nines gives the priority 10^4300. `f"priority: {priority}\n"` at line 52 then raises with the descriptor's first three lines already written, and the run stops. The model writes the whole descriptor and goes on (so do `FrontMatter.DescriptorText` and `Site.Site.CreateLinkFile`).
- Each capture sees the same download map. A URL whose response changes between two downloads is not modelled.
