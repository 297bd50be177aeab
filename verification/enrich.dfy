/** The item enricher of `main`: the new description is the upstream one, a
    blank-line separator, then one `<img>` line per image. Neither the URL nor
    the title is escaped. */
module Enrich {
  import opened Wrappers

  /** Written after the original description, before the first tag. */
  const Separator: string := "\n\n"

  /** The fixed text around the URL and the title of one tag. */
  const ImgOpen: string := "<img src=\""
  const AltOpen: string := "\" alt=\""
  const ImgClose: string := "\">\n"

  /** Characters one tag adds beyond its URL and title. */
  const TagOverhead: nat := 20

  /** One `<img src="URL" alt="TITLE">` line, newline included: `ImgOpen`,
      the URL, `AltOpen`, the title, then `ImgClose`. */
  function ImgTag(url: string, title: string): (tag: string)
    ensures |tag| == |url| + |title| + TagOverhead
    ensures ImgOpen <= tag
    ensures tag[|tag| - 1] == '\n'
  {
    ImgOpen + url + AltOpen + title + ImgClose
  }

  /** Total length of the URLs in `urls`. */
  function SumLengths(urls: seq<string>): nat
  {
    if |urls| == 0 then 0 else |urls[0]| + SumLengths(urls[1..])
  }

  /** Adding one URL at the end adds its length to the total. */
  lemma {:induction false} SumLengthsSnoc(urls: seq<string>, url: string)
    ensures SumLengths(urls + [url]) == SumLengths(urls) + |url|
    decreases |urls|
  {
    if |urls| > 0 {
      assert (urls + [url])[1..] == urls[1..] + [url];
      SumLengthsSnoc(urls[1..], url);
    }
  }

  /** Length of the tag text for `images`: the URLs, plus the title and the
      fixed text once per image. */
  function TagTextLength(images: seq<string>, title: string): nat
  {
    SumLengths(images) + |images| * (|title| + TagOverhead)
  }

  /** One more image adds one tag's length. */
  lemma TagTextLengthSnoc(images: seq<string>, url: string, title: string)
    ensures TagTextLength(images + [url], title) == TagTextLength(images, title) + |url| + |title| + TagOverhead
  {
    SumLengthsSnoc(images, url);
  }

  /** The tag lines for `images`, in order, all carrying the same title. */
  function ImageLines(images: seq<string>, title: string): (lines: string)
    ensures |lines| == TagTextLength(images, title)
    decreases |images|
  {
    if |images| == 0 then ""
    else
      var front := images[..|images| - 1];
      var last := images[|images| - 1];
      assert images == front + [last];
      TagTextLengthSnoc(front, last, title);
      ImageLines(front, title) + ImgTag(last, title)
  }

  /** The description `main` builds for an item with these images. */
  function EnrichDescription(desc: string, title: string, images: seq<string>): (r: string)
    ensures |r| == |desc| + |Separator| + TagTextLength(images, title)
    ensures desc <= r
    ensures r[|desc|..|desc| + |Separator|] == Separator
    ensures |images| == 0 ==> r == desc + Separator
  {
    desc + Separator + ImageLines(images, title)
  }

  /** The `strings.Builder` loop of `main`: the description, the separator,
      then one tag per image. */
  method BuildDescription(desc: string, title: string, images: seq<string>) returns (html: string)
    ensures html == EnrichDescription(desc, title, images)
  {
    html := desc + Separator;
    var i := 0;
    while i < |images|
      invariant 0 <= i <= |images|
      invariant html == desc + Separator + ImageLines(images[..i], title)
    {
      assert images[..i + 1][..i] == images[..i];
      html := html + ImgTag(images[i], title);
      i := i + 1;
    }
    assert images[..|images|] == images;
  }

  /** The tags for a leading part of the images are a prefix of the tags for
      all of them. */
  lemma {:induction false} ImageLinesPrefix(images: seq<string>, title: string, m: nat)
    requires m <= |images|
    ensures ImageLines(images[..m], title) <= ImageLines(images, title)
    decreases |images|
  {
    if m < |images| {
      var front := images[..|images| - 1];
      assert front[..m] == images[..m];
      ImageLinesPrefix(front, title, m);
    } else {
      assert images[..m] == images;
    }
  }

  /** Each image's tag follows directly the tags of the images before it: the
      tags appear one per image, in image order. */
  lemma ImageLinesInOrder(images: seq<string>, title: string)
    ensures forall k :: 0 <= k < |images| ==>
      ImageLines(images[..k], title) + ImgTag(images[k], title) <= ImageLines(images, title)
  {
    forall k | 0 <= k < |images|
      ensures ImageLines(images[..k], title) + ImgTag(images[k], title) <= ImageLines(images, title)
    {
      assert images[..k + 1][..k] == images[..k];
      ImageLinesPrefix(images, title, k + 1);
    }
  }

  /** Of the fixed text of a tag, only the closing part holds a newline, and
      only one. */
  lemma FixedTextNewlines()
    ensures multiset(ImgOpen)['\n'] == 0 && multiset(AltOpen)['\n'] == 0
    ensures multiset(ImgClose)['\n'] == 1
  {
    assert '\n' !in ImgOpen && '\n' !in AltOpen;
    assert ImgClose == "\">" + "\n";
  }

  /** The text of a tag before its closing part holds no newline when its URL
      and title hold none. */
  lemma TagBodyNoNewline(url: string, title: string)
    requires '\n' !in title && '\n' !in url
    ensures '\n' !in ImgOpen + url + AltOpen + title
  {
    assert '\n' !in ImgOpen && '\n' !in AltOpen;
  }

  /** A tag holds one newline when its URL and title hold none. */
  lemma ImgTagLineCount(url: string, title: string)
    requires '\n' !in title && '\n' !in url
    ensures multiset(ImgTag(url, title))['\n'] == 1
  {
    var body := ImgOpen + url + AltOpen + title;
    TagBodyNoNewline(url, title);
    assert multiset(body)['\n'] == 0;
    FixedTextNewlines();
    assert ImgTag(url, title) == body + ImgClose;
  }

  /** When neither the title nor any URL holds a newline, the tags make exactly
      one line per image. */
  lemma {:induction false} ImageLinesLineCount(images: seq<string>, title: string)
    requires '\n' !in title
    requires forall k :: 0 <= k < |images| ==> '\n' !in images[k]
    ensures multiset(ImageLines(images, title))['\n'] == |images|
    decreases |images|
  {
    if |images| > 0 {
      var front := images[..|images| - 1];
      var last := images[|images| - 1];
      ImageLinesLineCount(front, title);
      ImgTagLineCount(last, title);
      assert ImageLines(images, title) == ImageLines(front, title) + ImgTag(last, title);
    }
  }

  /** Two images give the separator followed by their two tags, in order. */
  lemma EnrichTwoImages(desc: string, title: string, i1: string, i2: string)
    ensures EnrichDescription(desc, title, [i1, i2])
         == desc + "\n\n" + ImgTag(i1, title) + ImgTag(i2, title)
  {
    assert [i1, i2][..1] == [i1];
    assert [i1][..0] == [];
    assert ImageLines([i1], title) == ImgTag(i1, title);
    assert ImageLines([i1, i2], title) == ImgTag(i1, title) + ImgTag(i2, title);
  }

  /** Position of the first `c` in `s`, if any. */
  function FirstIndex(s: string, c: char): (r: Option<nat>)
    ensures r.Some? ==> r.value < |s| && s[r.value] == c && c !in s[..r.value]
    ensures r.None? ==> c !in s
  {
    if |s| == 0 then None
    else if s[0] == c then Some(0)
    else match FirstIndex(s[1..], c)
      case None => None
      case Some(j) =>
        assert s[..j + 1] == [s[0]] + s[1..][..j];
        Some(j + 1)
  }

  /** The first `c` in `s` is at `j` when `s[j]` is `c` and no earlier
      character is. */
  lemma {:induction false} FirstIndexAt(s: string, c: char, j: nat)
    requires j < |s| && s[j] == c && c !in s[..j]
    ensures FirstIndex(s, c) == Some(j)
    decreases j
  {
    if j > 0 {
      assert s[0] in s[..j];
      assert s[1..][..j - 1] == s[1..j];
      assert s[..j] == [s[0]] + s[1..j];
      FirstIndexAt(s[1..], c, j - 1);
    }
  }

  /** A text that opens like a tag and continues with the rest of one is that
      tag. */
  lemma ReassembleTag(tag: string, url: string, title: string)
    requires ImgOpen <= tag
    requires tag[|ImgOpen|..] == url + (AltOpen + (title + ImgClose))
    ensures ImgTag(url, title) == tag
  {
    assert tag == ImgOpen + tag[|ImgOpen|..];
  }

  /** The pieces `ParseImgTag` cuts out of a text rebuild that text. */
  lemma ParsedTagIsTag(tag: string, rest: string, j: nat, after: string, body: string)
    requires ImgOpen <= tag && rest == tag[|ImgOpen|..]
    requires j <= |rest| && after == rest[j..]
    requires AltOpen <= after && body == after[|AltOpen|..]
    requires |ImgClose| <= |body| && body[|body| - |ImgClose|..] == ImgClose
    ensures ImgTag(rest[..j], body[..|body| - |ImgClose|]) == tag
  {
    var url, title := rest[..j], body[..|body| - |ImgClose|];
    assert rest == url + after;
    assert after == AltOpen + body;
    assert body == title + ImgClose;
    ReassembleTag(tag, url, title);
  }

  /** Reads a tag line back into its URL and title: the URL runs to the first
      double quote after `<img src="`, while the title is read greedily up to
      the closing `">` and a newline. So a double quote in the title is taken
      into the title, although in the written tag it would end the `alt`
      attribute early. The round trip therefore says nothing about quotes in
      the title. */
  function ParseImgTag(tag: string): (r: Option<(string, string)>)
    ensures r.Some? ==> ImgTag(r.value.0, r.value.1) == tag
  {
    if !(ImgOpen <= tag) then None
    else
      var rest := tag[|ImgOpen|..];
      match FirstIndex(rest, '"')
      case None => None
      case Some(j) =>
        var after := rest[j..];
        if !(AltOpen <= after) then None
        else
          var body := after[|AltOpen|..];
          if |body| < |ImgClose| || body[|body| - |ImgClose|..] != ImgClose then None
          else
            ParsedTagIsTag(tag, rest, j, after, body);
            Some((rest[..j], body[..|body| - |ImgClose|]))
  }

  /** A tag whose URL holds no double quote reads back as the URL and title it
      was built from. */
  lemma TagRoundTrip(url: string, title: string)
    requires '"' !in url
    ensures ParseImgTag(ImgTag(url, title)) == Some((url, title))
  {
    var tag := ImgTag(url, title);
    var body := title + ImgClose;
    var after := AltOpen + body;
    var rest := url + after;
    assert tag == ImgOpen + rest;
    assert tag[|ImgOpen|..] == rest;
    assert rest[..|url|] == url;
    assert rest[|url|] == AltOpen[0] == '"';
    FirstIndexAt(rest, '"', |url|);
    assert rest[|url|..] == after;
    assert after[|AltOpen|..] == body;
    assert body[|body| - |ImgClose|..] == ImgClose;
    assert body[..|body| - |ImgClose|] == title;
  }

  /** Because the URL is written unescaped, a URL holding a double quote ends
      the `src` attribute early and the tag no longer reads back. */
  lemma TagQuoteBreaksRoundTrip()
    ensures ParseImgTag(ImgTag("a\"b", "t")) != Some(("a\"b", "t"))
  {
    var tag := ImgTag("a\"b", "t");
    var rest := tag[|ImgOpen|..];
    assert rest == "a\"b\" alt=\"t\">\n";
    assert rest[..1] == "a";
    FirstIndexAt(rest, '"', 1);
  }
}
