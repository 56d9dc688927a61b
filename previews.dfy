/**
 * The preview URLs and `<img>` embed snippets of the home page (the effect
 * that builds `imageDefaultUrl` / `imageLargerUrl` and the `images` array).
 * The builders are pure given the page origin and the confirmed domain.
 */
module Previews {
  import opened Wrappers
  import opened DomainValidator

  /** `window.location.protocol` (with its trailing ':', e.g. "https:") and `window.location.host`. */
  datatype Origin = Origin(protocol: string, host: string)

  /** The query that asks the favicon route for the larger image. */
  const LargerQuery: string := "?larger=true"

  /** `${protocol}//${host}/`: the part of both preview URLs in front of the domain. */
  function UrlBase(o: Origin): string
  {
    o.protocol + "//" + o.host + "/"
  }

  /** `${protocol}//${currentHost}/${domain}` */
  function DefaultUrl(o: Origin, domain: string): string
  {
    UrlBase(o) + domain
  }

  /** `${protocol}//${currentHost}/${domain}?larger=true` */
  function LargerUrl(o: Origin, domain: string): string
  {
    UrlBase(o) + domain + LargerQuery
  }

  /** The characters of `s` before its first `c` (all of `s` when there is none). */
  function TakeUntil(s: string, c: char): (r: string)
    ensures |r| <= |s|
  {
    if s == [] || s[0] == c then [] else [s[0]] + TakeUntil(s[1..], c)
  }

  /**
   * The domain that the favicon route on origin `o` reads from `url`: the path
   * after `UrlBase(o)`, up to the query string; None when `url` is not on `o`.
   */
  function RequestedDomain(o: Origin, url: string): Option<string>
  {
    var base := UrlBase(o);
    if |base| <= |url| && url[..|base|] == base then Some(TakeUntil(url[|base|..], '?')) else None
  }

  lemma {:induction false} TakeUntilAbsent(s: string, c: char, rest: string)
    requires c !in s
    ensures TakeUntil(s, c) == s
    ensures TakeUntil(s + [c] + rest, c) == s
  {
    if s != [] {
      TakeUntilAbsent(s[1..], c, rest);
      assert (s + [c] + rest)[1..] == s[1..] + [c] + rest;
      assert s == [s[0]] + s[1..];
    } else {
      assert (s + [c] + rest)[0] == c;
    }
  }

  /** An accepted domain never contains the `?` that starts the query. */
  lemma AcceptedHasNoQuery(d: string)
    requires RegexAccepts(d)
    ensures '?' !in d
  {
    LookaheadIsRedundant(d);
    AcceptedAlphabet(d);
    forall i | 0 <= i < |d| ensures d[i] != '?' {
      assert IsWordChar(d[i]) || d[i] == '.';
    }
  }

  /** Both preview URLs of an accepted domain lead the favicon route back to that domain. */
  lemma PreviewUrlsNameDomain(o: Origin, d: string)
    requires RegexAccepts(d)
    ensures RequestedDomain(o, DefaultUrl(o, d)) == Some(d)
    ensures RequestedDomain(o, LargerUrl(o, d)) == Some(d)
  {
    AcceptedHasNoQuery(d);
    var base := UrlBase(o);
    assert DefaultUrl(o, d)[|base|..] == d;
    assert LargerUrl(o, d)[..|base|] == base;
    assert LargerUrl(o, d)[|base|..] == d + ['?'] + "larger=true";
    TakeUntilAbsent(d, '?', "larger=true");
  }

  /** The default URL is a strict prefix of the larger one, which adds exactly the query. */
  lemma DefaultUrlPrefixOfLarger(o: Origin, d: string)
    ensures DefaultUrl(o, d) < LargerUrl(o, d)
    ensures LargerUrl(o, d)[|DefaultUrl(o, d)|..] == "?larger=true"
  {
    assert LargerUrl(o, d) == DefaultUrl(o, d) + LargerQuery;
  }

  /** Distinct accepted domains give distinct URLs, and no default URL is ever a larger URL. */
  lemma PreviewUrlsDistinct(o: Origin, d1: string, d2: string)
    requires RegexAccepts(d1) && RegexAccepts(d2)
    ensures DefaultUrl(o, d1) == DefaultUrl(o, d2) <==> d1 == d2
    ensures LargerUrl(o, d1) == LargerUrl(o, d2) <==> d1 == d2
    ensures DefaultUrl(o, d1) != LargerUrl(o, d2)
  {
    PreviewUrlsNameDomain(o, d1);
    PreviewUrlsNameDomain(o, d2);
    assert |DefaultUrl(o, d1)| < |LargerUrl(o, d1)|;
  }

  // ---------------------------------------------------------------------
  // Embed codes and the `images` array
  // ---------------------------------------------------------------------

  const ImgOpen: string := "<img alt=\"Favicon\" src=\""
  const ImgClose: string := "\" />"

  /** `url ? `<img alt="Favicon" src="${url}" />` : ""` */
  function EmbedCode(url: Option<string>): string
  {
    if Truthy(url) then ImgOpen + url.value + ImgClose else ""
  }

  /** The `src` attribute of an embed snippet, or None when `code` is not one. */
  function EmbeddedSrc(code: string): Option<string>
  {
    if |ImgOpen| + |ImgClose| <= |code| && code[..|ImgOpen|] == ImgOpen && code[|code| - |ImgClose|..] == ImgClose
    then Some(code[|ImgOpen|..|code| - |ImgClose|])
    else None
  }

  /** The snippet is empty exactly for a falsy URL, and otherwise embeds that URL. */
  lemma EmbedCodeRoundTrip(url: Option<string>)
    ensures EmbedCode(url) == "" <==> !Truthy(url)
    ensures Truthy(url) ==> EmbeddedSrc(EmbedCode(url)) == Some(url.value)
  {
    if Truthy(url) {
      var code := EmbedCode(url);
      assert code[..|ImgOpen|] == ImgOpen;
      assert code[|code| - |ImgClose|..] == ImgClose;
      assert code[|ImgOpen|..|code| - |ImgClose|] == url.value;
    }
  }

  /** One entry of `images`; the localised title and alt text are not modelled. */
  datatype PreviewImage = PreviewImage(src: string, codeStr: string)

  /** `url || ""` */
  function OrEmpty(url: Option<string>): string
  {
    if url.Some? then url.value else ""
  }

  /** The `images` array: the default-size entry, then the larger one. */
  function Images(defaultUrl: Option<string>, largerUrl: Option<string>): seq<PreviewImage>
  {
    [PreviewImage(OrEmpty(defaultUrl), EmbedCode(defaultUrl)), PreviewImage(OrEmpty(largerUrl), EmbedCode(largerUrl))]
  }

  /** `host && images.map(...)`: the entries rendered, none while `host` is falsy. */
  function RenderedImages(host: Option<string>, images: seq<PreviewImage>): seq<PreviewImage>
  {
    if Truthy(host) then images else []
  }

  /**
   * Once the origin is known, the page renders exactly two previews for the
   * accepted domain `d`: their sources are the two URLs (distinct, so usable
   * as React keys), and each snippet embeds its own source.
   */
  lemma RenderedPreviews(o: Origin, d: string)
    requires RegexAccepts(d)
    ensures var r := RenderedImages(Some(o.host), Images(Some(DefaultUrl(o, d)), Some(LargerUrl(o, d))));
      && (o.host == "" ==> r == [])
      && (o.host != "" ==>
            && |r| == 2
            && r[0].src == DefaultUrl(o, d) && r[1].src == LargerUrl(o, d)
            && r[0].src != r[1].src
            && EmbeddedSrc(r[0].codeStr) == Some(r[0].src)
            && EmbeddedSrc(r[1].codeStr) == Some(r[1].src))
  {
    assert DefaultUrl(o, d) != "" by {
      assert DefaultUrl(o, d)[|o.protocol|] == '/';
    }
    EmbedCodeRoundTrip(Some(DefaultUrl(o, d)));
    EmbedCodeRoundTrip(Some(LargerUrl(o, d)));
    PreviewUrlsDistinct(o, d, d);
  }

  /** The URLs for the origin "https:" / "fav.example" and the default domain. */
  lemma ExampleUrls()
    ensures DefaultUrl(Origin("https:", "fav.example"), "openai.com") == "https://fav.example/openai.com"
    ensures LargerUrl(Origin("https:", "fav.example"), "openai.com") == "https://fav.example/openai.com?larger=true"
  {
    var base := UrlBase(Origin("https:", "fav.example"));
    assert base == "https://fav.example/";
    assert base + "openai.com" == "https://fav.example/openai.com";
    assert "https://fav.example/openai.com" + LargerQuery == "https://fav.example/openai.com?larger=true";
  }
}
