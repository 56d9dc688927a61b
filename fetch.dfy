/**
 * The request slots of the home page (`fetching`, `error`, `info` and the
 * confirmed `values.domain`) as a pure transition system over the three events
 * that change them: a submit (`handleSubmit`), and the success or failure
 * settlement of an outstanding `GET /{domain}`. The class in module HomePage
 * holds the same slots as fields; its methods are proved against `Apply`.
 *
 * The callbacks apply whatever settles, with no check of which request it
 * answers. The lemmas show that the only protection is the submit button,
 * disabled while `fetching`: through the form at most one request is ever
 * outstanding, and every settlement answers the request for the confirmed
 * domain; without that gate, a stale settlement is applied.
 */
module FetchController {
  import opened Wrappers
  import opened DomainValidator
  import opened Presentation

  /** `useState` slots; `error` is `false` (or an `undefined` message) when None. */
  datatype PageState<Info> = PageState(fetching: bool, error: Option<string>, info: Option<Info>, domain: string)

  /** The form's default value, also the initial confirmed domain. */
  const DefaultDomain: string := "openai.com"

  function Initial<Info>(): PageState<Info>
  {
    PageState(false, None, None, DefaultDomain)
  }

  /**
   * `Submit(d)`: `handleSubmit` called with the value `d`.
   * `Resolve(r, p)`, `Reject(r, m)`: the request for domain `r` settles with
   * payload `p`, or fails with `error.message` `m`.
   */
  datatype Event<Info> =
    | Submit(domain: string)
    | Resolve(request: string, payload: Info)
    | Reject(request: string, message: Option<string>)

  /** The state after one event: the setters each callback runs, in order. */
  function Apply<Info>(s: PageState<Info>, e: Event<Info>): PageState<Info>
  {
    match e
    case Submit(d) => s.(fetching := true).(error := None).(info := None).(domain := d)
    case Resolve(_, p) => s.(info := Some(p)).(fetching := false)
    case Reject(_, m) => s.(error := m).(fetching := false)
  }

  /** The state after a sequence of events from the initial state. */
  function Replay<Info>(es: seq<Event<Info>>): PageState<Info>
    decreases |es|
  {
    if es == [] then Initial() else Apply(Replay(es[..|es| - 1]), es[|es| - 1])
  }

  /** The domains whose requests are outstanding after `es`. */
  function Outstanding<Info>(es: seq<Event<Info>>): multiset<string>
    decreases |es|
  {
    if es == [] then multiset{}
    else
      var before := Outstanding(es[..|es| - 1]);
      match es[|es| - 1]
      case Submit(d) => before + multiset{d}
      case Resolve(r, _) => before - multiset{r}
      case Reject(r, _) => before - multiset{r}
  }

  /** Every settlement answers a request that is outstanding at that point. */
  ghost predicate Feasible<Info>(es: seq<Event<Info>>)
  {
    forall i :: 0 <= i < |es| && !es[i].Submit? ==> es[i].request in Outstanding(es[..i])
  }

  /**
   * Every submit came through the form: the button was enabled, and the
   * resolver accepted the value before calling `handleSubmit` with it.
   */
  ghost predicate ThroughForm<Info>(es: seq<Event<Info>>)
  {
    forall i :: 0 <= i < |es| && es[i].Submit? ==>
      !SubmitDisabled(es[i].domain, Replay(es[..i]).fetching) && RegexAccepts(es[i].domain)
  }

  /** What holds after every sequence of events through the form. */
  ghost predicate SingleFlight<Info>(es: seq<Event<Info>>)
  {
    var s := Replay(es);
    && (s.fetching ==> Outstanding(es) == multiset{s.domain} && s.error.None? && s.info.None?)
    && (!s.fetching ==> Outstanding(es) == multiset{})
    && !(s.error.Some? && s.info.Some?)
  }

  lemma PrefixOfPrefix<T>(es: seq<T>, i: nat)
    requires i < |es|
    ensures es[..|es| - 1][..i] == es[..i]
  {
  }

  /**
   * Through the form, at most one request is outstanding: the one for the
   * confirmed domain, exactly while `fetching`. The error banner and the
   * results never hold values at the same time.
   */
  lemma {:induction false} FormKeepsSingleFlight<Info>(es: seq<Event<Info>>)
    requires Feasible(es) && ThroughForm(es)
    ensures SingleFlight(es)
    decreases |es|
  {
    if es != [] {
      var pre := es[..|es| - 1];
      forall i | 0 <= i < |pre| ensures pre[..i] == es[..i] {
        PrefixOfPrefix(es, i);
      }
      assert Feasible(pre) by {
        forall i | 0 <= i < |pre| && !pre[i].Submit? ensures pre[i].request in Outstanding(pre[..i]) {
          assert pre[i] == es[i] && pre[..i] == es[..i];
        }
      }
      assert ThroughForm(pre) by {
        forall i | 0 <= i < |pre| && pre[i].Submit?
          ensures !SubmitDisabled(pre[i].domain, Replay(pre[..i]).fetching) && RegexAccepts(pre[i].domain)
        {
          assert pre[i] == es[i] && pre[..i] == es[..i];
        }
      }
      FormKeepsSingleFlight(pre);
      var last := es[|es| - 1];
      assert es[..|es| - 1] == pre;
      if last.Submit? {
        assert !Replay(pre).fetching;
      } else {
        assert last.request in Outstanding(pre);
        assert Replay(pre).fetching;
      }
    }
  }

  /** Through the form, every settlement answers the request for the confirmed domain of its moment. */
  lemma SettlementAnswersConfirmedDomain<Info>(es: seq<Event<Info>>, i: nat)
    requires Feasible(es) && ThroughForm(es)
    requires i < |es| && !es[i].Submit?
    ensures es[i].request == Replay(es[..i]).domain
    ensures Replay(es[..i]).fetching
  {
    var pre := es[..i];
    forall j | 0 <= j < |pre| ensures pre[..j] == es[..j] && pre[j] == es[j] {
    }
    assert Feasible(pre);
    assert ThroughForm(pre);
    FormKeepsSingleFlight(pre);
  }

  /** Whatever submits the resolver let through, the confirmed domain is one it accepts. */
  lemma {:induction false} ConfirmedDomainAccepted<Info>(es: seq<Event<Info>>)
    requires forall i :: 0 <= i < |es| && es[i].Submit? ==> RegexAccepts(es[i].domain)
    ensures RegexAccepts(Replay(es).domain)
    decreases |es|
  {
    if es == [] {
      DefaultDomainAccepted();
    } else {
      var pre := es[..|es| - 1];
      assert forall i :: 0 <= i < |pre| ==> pre[i] == es[i];
      ConfirmedDomainAccepted(pre);
    }
  }

  /**
   * Without the button gate, two submits in a row and a late answer to the
   * first show the first domain's favicons under the second domain, with the
   * spinner gone although the second request is still outstanding.
   */
  lemma StaleSettlementWithoutGate<Info>(p: Info)
    ensures var es := [Submit("a.com"), Submit("b.com"), Resolve("a.com", p)];
      && Feasible(es)
      && !ThroughForm(es)
      && Replay(es) == PageState(false, None, Some(p), "b.com")
      && Outstanding(es) == multiset{"b.com"}
  {
    var es := [Submit("a.com"), Submit("b.com"), Resolve("a.com", p)];
    assert es[..0] == [] && es[..1] == [Submit("a.com")] && es[..2] == [Submit("a.com"), Submit("b.com")];
    assert es[..|es| - 1] == es[..2];
    assert es[..2][..1] == es[..1];
    assert es[..1][..0] == [];
    assert Replay(es[..1]).fetching;
    assert SubmitDisabled(es[1].domain, Replay(es[..1]).fetching);
    assert Outstanding(es[..1]) == multiset{"a.com"};
    assert Outstanding(es[..2]) == multiset{"a.com"} + multiset{"b.com"};
    assert "a.com" != "b.com" by { assert "a.com"[0] != "b.com"[0]; }
    assert Outstanding(es) == (multiset{"a.com"} + multiset{"b.com"}) - multiset{"a.com"};
  }

  /** Two overlapping requests, the first failing and the second succeeding, are a feasible trace. */
  lemma OverlappingRequestsFeasible<Info>(p: Info)
    ensures Feasible([Submit("a.com"), Submit("b.com"), Reject("a.com", Some("Network Error")), Resolve("b.com", p)])
  {
    var e0, e1, e2, e3 := Submit("a.com"), Submit("b.com"), Reject("a.com", Some("Network Error")), Resolve("b.com", p);
    var es := [e0, e1, e2, e3];
    assert "a.com" != "b.com" by { assert "a.com"[0] != "b.com"[0]; }
    var o2 := Outstanding([e0, e1]);
    assert o2 == multiset{"a.com", "b.com"} by {
      assert [e0, e1][..1] == [e0] && [e0][..0] == [];
      assert Outstanding([e0]) == multiset{"a.com"};
      assert o2 == Outstanding([e0]) + multiset{"b.com"};
    }
    assert "b.com" in Outstanding([e0, e1, e2]) by {
      assert [e0, e1, e2][..2] == [e0, e1];
    }
    forall i | 0 <= i < |es| && !es[i].Submit? ensures es[i].request in Outstanding(es[..i]) {
      if i == 2 {
        assert es[..2] == [e0, e1];
      } else {
        assert es[..3] == [e0, e1, e2];
      }
    }
  }

  /** Without the gate, the error banner and the results can both hold values. */
  lemma BannerWithResultsWithoutGate<Info>(p: Info)
    ensures var es := [Submit("a.com"), Submit("b.com"), Reject("a.com", Some("Network Error")), Resolve("b.com", p)];
      && Feasible(es)
      && Replay(es).error == Some("Network Error") && Replay(es).info == Some(p)
  {
    OverlappingRequestsFeasible(p);
    var e0, e1, e2, e3 := Submit("a.com"), Submit("b.com"), Reject("a.com", Some("Network Error")), Resolve("b.com", p);
    var es := [e0, e1, e2, e3];
    assert es[..3] == [e0, e1, e2] && [e0, e1, e2][..2] == [e0, e1];
    assert [e0, e1][..1] == [e0] && [e0][..0] == [];
    var s2 := Replay([e0, e1]);
    assert s2.error == None;
    assert Replay([e0, e1, e2]) == Apply(s2, e2);
  }

  /** A submit after a failure clears the error and the result before the new request settles. */
  lemma SubmitAfterFailureClears<Info>(s: PageState<Info>, d: string, r: string, m: Option<string>)
    ensures var failed := Apply(s, Reject(r, m));
      var t := Apply(failed, Submit(d));
      && !ErrorBannerShown(t.error) && !ResultsShown(t.info, true) && SkeletonShown(t.fetching)
      && SubmitDisabled(d, t.fetching) && t.domain == d
  {
  }

  /** One submit followed by a failure leaves no result, the failure's message, and no spinner. */
  lemma SubmitThenFailure<Info>(s: PageState<Info>, d: string, r: string, m: Option<string>)
    ensures var t := Apply(Apply(s, Submit(d)), Reject(r, m));
      t == PageState(false, m, None, d) && ErrorBannerShown(t.error) == Truthy(m)
  {
  }

  /** One submit followed by a success shows the payload, no error, and no spinner. */
  lemma SubmitThenSuccess<Info>(s: PageState<Info>, d: string, r: string, p: Info)
    ensures var t := Apply(Apply(s, Submit(d)), Resolve(r, p));
      t == PageState(false, None, Some(p), d) && !ErrorBannerShown(t.error) && ResultsShown(t.info, true)
  {
  }

  /** The button does not look at validity: a nonempty invalid value leaves it enabled while idle. */
  lemma InvalidValueDoesNotDisable()
    ensures !RegexAccepts("bad") && !SubmitDisabled("bad", false) && FieldMessageMounted("bad")
  {
    RegexAcceptsIffShape("bad");
    assert Split("bad") == ["bad"];
  }
}
