# feissari-rss enrichment pipeline in Dafny

This project models the part of feissari-rss that is not I/O. The tool reads
the Feissarimokat RSS feed. For each item it fetches the item's web page and
collects the images inside the `div.postbody` element. It appends one `<img>`
line per image to the item's description, then emits an Atom feed. The model
has three parts, each a module of pure functions over strings and sequences.
Each part also has a method that follows the Go loop it models and is proved
equal to the functional definition.

- `Images` (the `src` closure of `fetchImages`). The input is the `src`
  attributes of the selected `<img>` elements, with `None` for an element
  that has none. The outcome of the page request is a `Page`: either those
  attributes or an error. A `src` that does not start with `http` gets the
  prefix `https://static.feissarimokat.com`. Elements without a `src` are
  skipped, and document order is kept.
- `Enrich` (the `strings.Builder` code in `main`). The new description is the
  original, then `"\n\n"`, then `<img src="URL" alt="TITLE">\n` for each
  image. Nothing is escaped. Each tag adds 20 characters beyond its URL and
  title: 10 for `<img src="`, 7 for `" alt="` and 3 for `">\n`.
- `Pipeline` (the item loop of `main`). Each upstream item has one page
  outcome, and `pages[i]` belongs to `items[i]`. This is why `Entries`,
  `BuildFeed` and `Run` require the two sequences to have equal length. An
  item whose page failed is dropped, as the `continue` in the source does.
  Every other item becomes an entry with the item's title. Its link and its
  identifier are both the item's link, and its description is the enriched
  one. The feed copies the channel's title, link and description.
- `Rss` mirrors the records of `types.go`. `Feeds` holds the fields of the
  output feed, item and link records that `main` fills in. `Wrappers`
  defines `Option` and `Result`. `Seqs.IndicesWhere` gives the positions an
  order-preserving filter keeps. The "skipped, in order" lemmas are stated
  through it.

A failed page request drops the item (`continue` at main.go:155-159). So the
feed can have fewer entries than the upstream channel, and it has the same
number exactly when every page was fetched.

The `http` test looks only at the first four characters (main.go:66). So a
relative name such as `httpd.png` is left as it is. A path without a leading
slash, such as `img/x.jpg`, is joined to the host name with nothing between
them. `Images.NormalizeOnlyChecksPrefix` states both cases.

## Model

| member | source | states |
|---|---|---|
| Images.Normalize | main.go:66-70 | the result always starts with `http`; it equals its input exactly when the input already starts with `http` |
| Images.NormalizeRelative | main.go:66-70 | a `src` without the `http` prefix becomes the static-asset host followed by the `src`; the `src` always remains the tail of the URL |
| Images.NormalizeIdempotent | main.go:66-70 | normalising an already normalised URL leaves it unchanged |
| Images.NormalizeOnlyChecksPrefix | main.go:66-70 | `httpd.png` is left as it is, and `img/x.jpg` becomes `https://static.feissarimokat.comimg/x.jpg`: only the four-letter prefix is tested |
| Images.NormalizeExamples | main.go:66-70 | `/img/x.jpg` resolves to `https://static.feissarimokat.com/img/x.jpg`; `https://cdn.example.com/y.jpg` passes through |
| Images.NormalizeNotInjective | main.go:66-71 | a root-relative path and its absolute form on the static host give the same image URL |
| Images.NormalizeAll | main.go:63-73 | one URL per element that has a `src`, and every URL starts with `http` |
| Images.NormalizeAllSelects | main.go:63-73 | the k-th URL is the normalised `src` of the k-th element that has one: missing `src` values are skipped and document order is kept |
| Images.NormalizeAllNoneMissing | main.go:63-73 | when every element has a `src`, there are exactly as many URLs as elements, position by position |
| Images.NormalizeAllIdempotent | main.go:63-73 | feeding the collected URLs back through the collection returns them unchanged |
| Images.FetchImages | main.go:44-75 | the image lookup fails exactly when the page request fails, with the same error; on success the k-th URL is the normalised `src` of the k-th element that has one, so there is exactly one URL per such element, in document order, each starting with `http` |
| Images.CollectImages | main.go:62-75 | the `Each` loop that appends to `images` computes the same list as `NormalizeAll` |
| Enrich.ImgTag | main.go:167 | a tag line is 20 characters longer than its URL and title together, opens with `<img src="` and ends in a newline |
| Enrich.ImageLines | main.go:166-168 | the tag lines are as long as the sum of the URL lengths plus, per image, the title length plus 20 |
| Enrich.EnrichDescription | main.go:162-168 | the original description is a prefix, followed by `"\n\n"`; the total length is the description length plus 2 plus the tag-line length; with no images the result is exactly the description plus `"\n\n"` |
| Enrich.BuildDescription | main.go:162-168 | the builder loop produces the enriched description |
| Enrich.ImageLinesPrefix | main.go:166-168 | the tags for the first m images are a prefix of the tags for all images |
| Enrich.ImageLinesInOrder | main.go:166-168 | each image's tag comes directly after the tags of the images before it, so there is one tag per image in image order |
| Enrich.ImgTagLineCount | main.go:167 | a tag holds exactly one newline when its URL and title hold none |
| Enrich.ImageLinesLineCount | main.go:166-168 | when no URL and not the title holds a newline, the tag text has exactly one line per image |
| Enrich.EnrichTwoImages | main.go:162-168 | two images give the description, `"\n\n"`, then the two tag lines in order |
| Enrich.ParseImgTag | main.go:167 | every tag text it accepts is the tag built from the URL and title it returns |
| Enrich.TagRoundTrip | main.go:167 | when the URL holds no double quote, the tag reads back as its URL and title; the title is read greedily, so this says nothing about double quotes in the title |
| Enrich.TagQuoteBreaksRoundTrip | main.go:167 | because the URL is not escaped, a URL holding `"` ends the `src` attribute early and the tag no longer reads back |
| Pipeline.MakeEntry | main.go:171-177 | an entry has the item's title, link and identifier equal to the item's link, and a description that starts with the original; with no images it is the original plus `"\n\n"` |
| Pipeline.EntryFor | main.go:155-179 | an item contributes nothing when its page fetch failed, and otherwise exactly one entry, built from the normalised images of its page |
| Pipeline.Entries | main.go:152-180 | one entry per fetched page; never more entries than items, and exactly as many exactly when no fetch failed |
| Pipeline.ProcessItem | main.go:155-179 | one pass of the loop adds exactly what `EntryFor` says: nothing for a failed page, the built entry otherwise |
| Pipeline.CollectEntries | main.go:152-180 | the loop over the items in upstream order produces `Entries` |
| Pipeline.EnrichItem | main.go:161-177 | collecting the images, building the description and building the entry gives `MakeEntry` of the item and its images |
| Pipeline.Run | main.go:142-180 | the loop over upstream items, with `continue` on a failed fetch, produces `BuildFeed` |
| Pipeline.BuildFeed | main.go:142-180 | the feed's title, link and description are the channel's; it has at most as many entries as the channel has items, and exactly as many exactly when every fetch succeeded |
| Pipeline.EntriesSelect | main.go:152-179 | the k-th entry is built from the k-th item whose page was fetched, using that page's images: failed items are dropped and upstream order is kept |
| Pipeline.EntriesKeepFetched | main.go:152-179 | every item whose page was fetched has its entry in the output, whatever happened to other items |
| Pipeline.EntriesDropFailed | main.go:155-159 | an item whose page failed has no entry: no entry carries its link unless another item shares that link |
| Pipeline.EntriesAllFetched | main.go:152-179 | when every page was fetched, entry k is built from item k |
| Pipeline.EntryIdsDistinct | main.go:171-177 | distinct upstream links give distinct entry identifiers |
| Pipeline.BuildFeedIgnoresUnusedFields | main.go:142-145 | the feed does not depend on the RSS version, `lastBuildDate`, `docs` or `language` |

## Left out

- HTTP requests in `fetchImages` and `fetchRSS` are not modelled. This covers the client, transport, timeout, User-Agent and the non-200 check (main.go:23-53, 79-109). A failed request, a non-200 status or a failed HTML parse (main.go:37-59) appears as the `Failure` case of `Images.Page`, and such an item is dropped. A successful request appears as the `Success` case, which carries the selected `src` attributes.
- HTML parsing and the `div.postbody img` selection (main.go:56-63) belong to an external library. The selected `src` attributes are an input.
- `xml.Unmarshal` of the upstream feed (main.go:112-121) is an external decoder. Its result is an `Rss.RSS` value. Feed-level errors are fatal in the source, so the model starts after them.
- Atom serialisation by `ToAtom`, the output directory, the file write and their fatal errors (main.go:182-199) are external serialisation and filesystem work.
- The `Updated` and `Created` timestamps (`time.Now()`) and the fixed author name (main.go:146-148, 175) are left out. They are clock values and a constant that no other part of the pipeline uses.
- Flag parsing, `Version` and logging (main.go:19-20, 128-131, 157) are CLI and logging code.
- Enrich.EnrichDescription, Enrich.ImgTag and Enrich.ImageLines: lengths are counted in characters. Go counts bytes of UTF-8, so the two agree only for ASCII text.
- The tool emits Atom only (`feed.ToAtom()`, main.go:191), and that serialisation is external, as noted above.
