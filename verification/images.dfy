/** The image extractor of `fetchImages`: from the `src` attributes of the
    `<img>` elements inside `div.postbody`, in document order, build the list of
    image URLs, each starting with `http`. The HTTP request and the HTML selection are not
    modelled; their outcome is the `Page` handed in. */
module Images {
  import opened Wrappers
  import Seqs

  /** Static-asset host that root-relative `src` values are resolved against. */
  const BaseURL: string := "https://static.feissarimokat.com"

  /** A `src` starting with this text is left as it is. */
  const Scheme: string := "http"

  /** What the page request and the `div.postbody img` selection produced: the
      `src` attribute of each selected element, absent where the element has
      none, or the reason the request failed. */
  type Page = Result<seq<Option<string>>, string>

  /** True of an `<img>` element that carries a `src` attribute. */
  predicate Present(src: Option<string>)
  {
    src.Some?
  }

  /** Resolves one `src`: a value without the `http` prefix gets the
      static-asset host in front of it. */
  function Normalize(src: string): (url: string)
    ensures Scheme <= url
    ensures url == src <==> Scheme <= src
  {
    if Scheme <= src then src
    else
      assert (BaseURL + src)[..|Scheme|] == BaseURL[..|Scheme|];
      BaseURL + src
  }

  /** The URLs of the elements that carry a `src`, normalised, in document
      order. */
  function NormalizeAll(srcs: seq<Option<string>>): (urls: seq<string>)
    ensures |urls| == |Seqs.IndicesWhere(srcs, Present)|
    ensures forall k :: 0 <= k < |urls| ==> Scheme <= urls[k]
    decreases |srcs|
  {
    if |srcs| == 0 then []
    else
      var last := srcs[|srcs| - 1];
      NormalizeAll(srcs[..|srcs| - 1]) + if last.Some? then [Normalize(last.value)] else []
  }

  /** The image list `fetchImages` returns for a page: its error when the page
      could not be had, otherwise the normalised `src` values. */
  function FetchImages(page: Page): (r: Result<seq<string>, string>)
    ensures r.Success? <==> page.Success?
    ensures r.Failure? ==> r.error == page.error
    ensures r.Success? ==> Selects(page.value, Seqs.IndicesWhere(page.value, Present), r.value)
    ensures r.Success? ==> forall k :: 0 <= k < |r.value| ==> Scheme <= r.value[k]
  {
    match page
    case Failure(e) => Failure(e)
    case Success(srcs) =>
      NormalizeAllSelects(srcs);
      Success(NormalizeAll(srcs))
  }

  /** The `Each` callback loop of `fetchImages`, appending one URL per element
      that has a `src`. */
  method CollectImages(srcs: seq<Option<string>>) returns (images: seq<string>)
    ensures images == NormalizeAll(srcs)
  {
    images := [];
    var i := 0;
    while i < |srcs|
      invariant 0 <= i <= |srcs|
      invariant images == NormalizeAll(srcs[..i])
    {
      assert srcs[..i + 1][..i] == srcs[..i];
      assert NormalizeAll(srcs[..i + 1])
          == NormalizeAll(srcs[..i]) + if srcs[i].Some? then [Normalize(srcs[i].value)] else [];
      if srcs[i].Some? {
        var src := srcs[i].value;
        images := images + [Normalize(src)];
      }
      i := i + 1;
    }
    assert srcs[..|srcs|] == srcs;
  }

  /** A `src` without the `http` prefix is read as a path on the static-asset
      host; either way the `src` survives as the tail of the URL. */
  lemma NormalizeRelative(src: string)
    ensures !(Scheme <= src) ==> Normalize(src) == BaseURL + src
    ensures var url := Normalize(src); |src| <= |url| && url[|url| - |src|..] == src
  {
  }

  /** Normalising an already normalised URL changes nothing. */
  lemma NormalizeIdempotent(src: string)
    ensures Normalize(Normalize(src)) == Normalize(src)
  {
  }

  /** `urls` holds, position by position, the normalised `src` of the elements
      at the positions `ks`. */
  predicate Selects(srcs: seq<Option<string>>, ks: seq<nat>, urls: seq<string>)
  {
    && |ks| == |urls|
    && forall k :: 0 <= k < |urls| ==>
         ks[k] < |srcs| && srcs[ks[k]].Some? && urls[k] == Normalize(srcs[ks[k]].value)
  }

  /** The `k`-th image URL is the normalised `src` of the `k`-th element that
      has one: elements without `src` are skipped and document order is kept. */
  lemma {:induction false} NormalizeAllSelects(srcs: seq<Option<string>>)
    ensures Selects(srcs, Seqs.IndicesWhere(srcs, Present), NormalizeAll(srcs))
    decreases |srcs|
  {
    if |srcs| > 0 {
      var front := srcs[..|srcs| - 1];
      NormalizeAllSelects(front);
      var last := srcs[|srcs| - 1];
      var ks, ks' := Seqs.IndicesWhere(srcs, Present), Seqs.IndicesWhere(front, Present);
      var urls, urls' := NormalizeAll(srcs), NormalizeAll(front);
      Seqs.IndicesWhereSnoc(srcs, Present);
      assert urls == urls' + if last.Some? then [Normalize(last.value)] else [];
      forall k | 0 <= k < |urls|
        ensures srcs[ks[k]].Some? && urls[k] == Normalize(srcs[ks[k]].value)
      {
        if k < |urls'| {
          assert ks[k] == ks'[k] && urls[k] == urls'[k];
          assert front[ks'[k]] == srcs[ks[k]];
          assert Selects(front, ks', urls');
          assert urls'[k] == Normalize(front[ks'[k]].value);
        } else {
          assert last.Some? && k == |ks'|;
          assert ks[k] == |srcs| - 1;
          assert urls[k] == Normalize(last.value);
        }
      }
    }
  }

  /** With every element carrying a `src`, there is one URL per element, each
      the normalisation of the element at the same position. */
  lemma {:induction false} NormalizeAllNoneMissing(srcs: seq<Option<string>>)
    requires forall i :: 0 <= i < |srcs| ==> srcs[i].Some?
    ensures |NormalizeAll(srcs)| == |srcs|
    ensures forall k :: 0 <= k < |srcs| ==> NormalizeAll(srcs)[k] == Normalize(srcs[k].value)
    decreases |srcs|
  {
    if |srcs| > 0 {
      var front := srcs[..|srcs| - 1];
      NormalizeAllNoneMissing(front);
    }
  }

  /** Normalising the output again leaves it as it is. */
  lemma {:induction false} NormalizeAllIdempotent(urls: seq<string>)
    requires forall k :: 0 <= k < |urls| ==> Scheme <= urls[k]
    ensures NormalizeAll(seq(|urls|, k requires 0 <= k < |urls| => Some(urls[k]))) == urls
    decreases |urls|
  {
    var srcs := seq(|urls|, k requires 0 <= k < |urls| => Some(urls[k]));
    NormalizeAllNoneMissing(srcs);
  }

  /** Two different `src` values can name the same image: a root-relative path
      and its already absolute form. */
  lemma NormalizeNotInjective()
    ensures Normalize("/a.jpg") == Normalize(BaseURL + "/a.jpg")
    ensures "/a.jpg" != BaseURL + "/a.jpg"
  {
    assert "/a.jpg"[0] != Scheme[0];
    assert Scheme <= BaseURL + "/a.jpg";
  }

  /** Only the four-letter prefix is tested: a relative name that happens to
      start with `http` stays relative, and a path without a leading slash is
      joined to the host name with nothing in between. */
  lemma NormalizeOnlyChecksPrefix()
    ensures Normalize("httpd.png") == "httpd.png"
    ensures Normalize("img/x.jpg") == "https://static.feissarimokat.comimg/x.jpg"
  {
    assert Scheme <= "httpd.png";
    assert "img/x.jpg"[1] != Scheme[1];
  }

  /** A root-relative path is resolved against the static-asset host; an
      absolute URL on another host passes through. */
  lemma NormalizeExamples()
    ensures Normalize("/img/x.jpg") == "https://static.feissarimokat.com/img/x.jpg"
    ensures Normalize("https://cdn.example.com/y.jpg") == "https://cdn.example.com/y.jpg"
  {
    assert "/img/x.jpg"[0] != Scheme[0];
    assert Scheme <= "https://cdn.example.com/y.jpg";
  }
}
