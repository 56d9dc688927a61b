/**
 * The `Main` home page component as an object: its `useState` slots are
 * fields, and each event that runs setters is a method. The request slots
 * are proved against `FetchController.Apply`; the URL slots against the
 * builders of module Previews.
 */
module HomePage {
  import opened Wrappers
  import opened DomainValidator
  import opened Previews
  import opened Presentation
  import opened FetchController

  class Page<Info> {
    var fetching: bool
    var error: Option<string>
    var info: Option<Info>
    /** `values.domain`: the confirmed domain, which lags the field until a submit. */
    var domain: string
    /** The form field's live value. */
    var fieldValue: string
    /** `window.location` once the page runs in a browser; None while rendered on the server. */
    var window: Option<Origin>
    var host: Option<string>
    var imageDefaultUrl: Option<string>
    var imageLargerUrl: Option<string>
    /** The confirmed domain that the effect last built the preview URLs from. */
    ghost var urlDomain: string

    function State(): PageState<Info>
      reads this
    {
      PageState(fetching, error, info, domain)
    }

    /** The confirmed domains passed the validator, and the URL slots are set together, from one origin. */
    ghost predicate Valid()
      reads this
    {
      && RegexAccepts(domain)
      && RegexAccepts(urlDomain)
      && (host.Some? || imageDefaultUrl.Some? || imageLargerUrl.Some? ==>
            && window.Some?
            && host == Some(window.value.host)
            && imageDefaultUrl == Some(DefaultUrl(window.value, urlDomain))
            && imageLargerUrl == Some(LargerUrl(window.value, urlDomain)))
    }

    /** In a browser, the effect has run for the current confirmed domain. */
    ghost predicate Synced()
      reads this
    {
      window.Some? ==> host.Some? && urlDomain == domain
    }

    /** The first render: every slot at its `useState` default. */
    constructor ()
      ensures Valid() && Synced()
      ensures State() == Initial() && fieldValue == DefaultDomain
      ensures window == None && host == None && imageDefaultUrl == None && imageLargerUrl == None
    {
      fetching, error, info, domain := false, None, None, DefaultDomain;
      fieldValue := DefaultDomain;
      window, host, imageDefaultUrl, imageLargerUrl := None, None, None, None;
      urlDomain := DefaultDomain;
      DefaultDomainAccepted();
    }

    /** The user edits the field; nothing else changes until a submit. */
    method Edit(v: string)
      modifies this`fieldValue
      ensures fieldValue == v
    {
      fieldValue := v;
    }

    /**
     * `handleSubmit`, called by the resolver with an accepted value: the four
     * setters, then `GET /{domain}`, whose path is returned.
     */
    method HandleSubmit(d: string) returns (path: string)
      requires Valid() && RegexAccepts(d)
      modifies this`fetching, this`error, this`info, this`domain
      ensures Valid()
      ensures State() == Apply(old(State()), Submit(d))
      ensures fetching && error == None && info == None && domain == d
      ensures path == "/" + d
      ensures old(Synced()) && d == old(domain) ==> Synced()
    {
      fetching := true;
      error := None;
      info := None;
      domain := d;
      path := "/" + d;
    }

    /** The `.then` callback: the request for `request` settled with `payload`. */
    method SettleSuccess(ghost request: string, payload: Info)
      requires Valid()
      modifies this`info, this`fetching
      ensures Valid()
      ensures State() == Apply(old(State()), Resolve(request, payload))
      ensures info == Some(payload) && !fetching && error == old(error) && domain == old(domain)
    {
      info := Some(payload);
      fetching := false;
    }

    /** The `.catch` callback: the request for `request` failed with `error.message` `message`. */
    method SettleFailure(ghost request: string, message: Option<string>)
      requires Valid()
      modifies this`error, this`fetching
      ensures Valid()
      ensures State() == Apply(old(State()), Reject(request, message))
      ensures error == message && !fetching && info == old(info) && domain == old(domain)
    {
      error := message;
      fetching := false;
    }

    /**
     * A press of the submit button: nothing happens while it is disabled; then
     * the resolver validates the field and calls `handleSubmit` only with an
     * accepted value.
     */
    method PressSubmit() returns (sent: bool)
      requires Valid()
      modifies this`fetching, this`error, this`info, this`domain
      ensures Valid()
      ensures sent <==> !SubmitDisabled(fieldValue, old(fetching)) && RegexAccepts(fieldValue)
      ensures sent ==> State() == Apply(old(State()), Submit(fieldValue))
      ensures !sent ==> State() == old(State())
    {
      sent := !SubmitDisabled(fieldValue, fetching) && RegexAccepts(fieldValue);
      if sent {
        var _ := HandleSubmit(fieldValue);
      }
    }

    /** The effect body, run after a render in which the confirmed domain changed. */
    method Effect()
      requires Valid()
      modifies this`host, this`imageDefaultUrl, this`imageLargerUrl, this`urlDomain
      ensures Valid() && Synced()
      ensures window.None? ==> host == old(host) && imageDefaultUrl == old(imageDefaultUrl) && imageLargerUrl == old(imageLargerUrl)
      ensures window.Some? ==>
        && host == Some(window.value.host)
        && imageDefaultUrl == Some(DefaultUrl(window.value, domain))
        && imageLargerUrl == Some(LargerUrl(window.value, domain))
    {
      if window.Some? {
        var currentHost := window.value.host;
        var protocol := window.value.protocol;
        host := Some(currentHost);
        imageDefaultUrl := Some(protocol + "//" + currentHost + "/" + domain);
        imageLargerUrl := Some(protocol + "//" + currentHost + "/" + domain + "?larger=true");
        urlDomain := domain;
      }
    }

    /** The page mounts in a browser at `protocol//currentHost`; the effect then runs for the first time. */
    method Mount(protocol: string, currentHost: string)
      requires Valid() && window == None
      modifies this`window, this`host, this`imageDefaultUrl, this`imageLargerUrl, this`urlDomain
      ensures Valid() && Synced()
      ensures window == Some(Origin(protocol, currentHost))
      ensures host == Some(currentHost)
      ensures imageDefaultUrl == Some(DefaultUrl(Origin(protocol, currentHost), domain))
      ensures imageLargerUrl == Some(LargerUrl(Origin(protocol, currentHost), domain))
    {
      window := Some(Origin(protocol, currentHost));
      Effect();
    }

    /** The preview entries on the page: none before the origin is known, else the two for the last built domain. */
    function RenderedPreviews(): (r: seq<PreviewImage>)
      reads this
      requires Valid()
      ensures r != [] <==> PreviewsShown(host)
      ensures r != [] ==> window.Some? && window.value.host != ""
      ensures r != [] ==>
        && |r| == 2
        && r[0].src == DefaultUrl(window.value, urlDomain) && r[1].src == LargerUrl(window.value, urlDomain)
        && r[0].src != r[1].src
        && EmbeddedSrc(r[0].codeStr) == Some(r[0].src) && EmbeddedSrc(r[1].codeStr) == Some(r[1].src)
    {
      var r := RenderedImages(host, Images(imageDefaultUrl, imageLargerUrl));
      if window.Some? then
        Previews.RenderedPreviews(window.value, urlDomain);
        r
      else
        r
    }
  }

  /**
   * The page mounts at "https:" / "fav.example", the default value is
   * submitted and the request succeeds with `p`: the results show `p`, and
   * the two previews point at the default domain on that origin.
   */
  method SuccessScenario<Info>(p: Info) returns (shown: bool, sources: seq<string>)
    ensures shown
    ensures sources == ["https://fav.example/openai.com", "https://fav.example/openai.com?larger=true"]
  {
    var page := new Page<Info>();
    var origin := Origin("https:", "fav.example");
    page.Mount("https:", "fav.example");
    assert page.window == Some(origin) && page.host == Some("fav.example");
    assert page.urlDomain == DefaultDomain && page.fieldValue == DefaultDomain && !page.fetching;
    DefaultDomainAccepted();
    var sent := page.PressSubmit();
    assert sent;
    page.SettleSuccess(DefaultDomain, p);
    shown := ResultsShown(page.info, true) && !SkeletonShown(page.fetching) && !ErrorBannerShown(page.error);
    assert page.window == Some(origin) && page.host == Some("fav.example") && page.urlDomain == DefaultDomain;
    var previews := page.RenderedPreviews();
    assert previews != [];
    ExampleUrls();
    sources := [previews[0].src, previews[1].src];
  }
}
