# Favicon download home page — a Dafny model

This project models the client-side core of the home page of the favicon
downloader (`src/components/frontend/page/home/main.tsx`):

- **the domain validator**, the regular expression that the form schema
  applies to the field before a submit (`DomainValidator`);
- **the request slots** `fetching`, `error`, `info` and the confirmed domain
  `values.domain`, and the three events that change them: a submit, and the
  success or failure settlement of the `GET /{domain}` request
  (`FetchController` as a pure transition system over event traces,
  `HomePage.Page` as the component object whose methods run the setters);
- **the preview URLs and embed snippets** built from the page origin and the
  confirmed domain (`Previews`);
- **the render conditions** of the submit button, the inline message slot,
  the error banner, the loading skeleton, the results and the previews
  (`Presentation`).

Files: `wrappers.dfy` (Option, JavaScript truthiness of optional strings),
`validator.dfy`, `previews.dfy`, `presentation.dfy`, `fetch.dfy`, `page.dfy`.

The validator is modelled twice and the two are proved equal. `RegexAccepts`
follows the pattern construct by construct: the `(?!://)` lookahead, the
repeated group `([a-zA-Z0-9-_]+\.)*` as a choice between stopping and
consuming one label with its dot, the label `[a-zA-Z0-9][a-zA-Z0-9-_]+`, the
dot, and the lazy `[a-zA-Z]{2,11}?` followed by `$`. `HasDomainShape` states
the accepted language over the labels between the dots: zero or more labels of
`[A-Za-z0-9_-]+`, then a label of two or more such characters starting with a
letter or digit, then a top-level domain of 2 to 11 ASCII letters. This is an
ad-hoc grammar, not the preferred name syntax of section 2.3.1 of RFC 1035: it
allows `_` and leading `-` in the earlier labels and only letters in the last
one, and it rejects a one-character label before the top-level domain
(`x.com`).

Four behaviours of the code are easy to misread; the model follows the code:

- The code has no stale-response guard: the callbacks apply whatever settles.
  `FetchController.StaleSettlementWithoutGate` shows a late answer to an earlier
  submit overwriting the state of a later one. The protection that exists is
  the submit button, disabled while `fetching`. `FormKeepsSingleFlight` proves
  that through the form at most one request is outstanding.
- The submit button is disabled only for an empty field or while fetching, not
  for an invalid value (`InvalidValueDoesNotDisable`). Invalid values are
  stopped by the resolver at submit (`Page.PressSubmit`).
- The `images` array always has two entries. Before the origin is known their
  sources are `""`, and it is the `host &&` guard that renders none of them.
- A failure stores `error.message` as it is, possibly `undefined`. It does not
  clear `info`. A failure still leaves no result after a single submit,
  because the submit cleared `info` (`SubmitThenFailure`).

## Model

| member | source | states |
|---|---|---|
| DomainValidator.RegexAccepts | src/components/frontend/page/home/main.tsx:28 | definition: `domainRegex.test`, the lookahead and then `GroupsThenHost`, which follows the pattern construct by construct; what it accepts is stated by `RegexAcceptsIffShape` |
| DomainValidator.RegexAcceptsIffShape | src/components/frontend/page/home/main.tsx:28 | the pattern accepts a string exactly when its dot-separated labels are `L1 … Ln M T` (n ≥ 0, each `L` nonempty over `[A-Za-z0-9_-]`, `M` of length ≥ 2 over that set starting with a letter or digit, `T` 2–11 ASCII letters) |
| DomainValidator.AcceptedIffJoinOfShapedLabels | src/components/frontend/page/home/main.tsx:28 | both directions of "accepted ⇔ the dot-join of some label sequence `L1 … Ln M T`" |
| DomainValidator.AcceptedIsJoinOfShapedLabels | src/components/frontend/page/home/main.tsx:28 | an accepted string is the dot-join of its own labels, and those labels are `L1 … Ln M T` |
| DomainValidator.JoinOfShapedLabelsAccepted | src/components/frontend/page/home/main.tsx:28 | the dot-join of any labels `L1 … Ln M T` is accepted and splits back into exactly those labels |
| DomainValidator.GroupsThenHostIffShape | src/components/frontend/page/home/main.tsx:28 | the pattern without its lookahead accepts exactly the `L1 … Ln M T` strings, by induction on the labels consumed by `([a-zA-Z0-9-_]+\.)*` |
| DomainValidator.PatternDropsFirstLabel | src/components/frontend/page/home/main.tsx:28 | when a second dot follows, the pattern accepts exactly when the text before the first dot is a label and the pattern accepts what follows that dot |
| DomainValidator.LookaheadIsRedundant | src/components/frontend/page/home/main.tsx:28 | the `(?!://)` lookahead never rejects a string that the rest of the pattern accepts |
| DomainValidator.LazyRepetitionIsBounded | src/components/frontend/page/home/main.tsx:28 | the lazy `{2,11}?` anchored by `$` accepts exactly the strings of 2 to 11 letters |
| DomainValidator.TwoLabelVerdict | src/components/frontend/page/home/main.tsx:28 | a string with one dot is accepted exactly when it is `M . T` |
| DomainValidator.SubdomainAccepted | src/components/frontend/page/home/main.tsx:28 | prefixing an accepted domain with a label and a dot keeps it accepted |
| DomainValidator.OneCharacterHostLabelRejected | src/components/frontend/page/home/main.tsx:28 | a one-character label directly before the top-level domain is rejected, with or without labels before it |
| DomainValidator.AcceptedAlphabet | src/components/frontend/page/home/main.tsx:28 | every character of an accepted string is a letter, digit, `-`, `_` or `.` |
| DomainValidator.LeadingColonRejected | src/components/frontend/page/home/main.tsx:28 | any string starting with `:` is rejected, so nothing starting with "://" is accepted |
| DomainValidator.DefaultDomainAccepted | src/components/frontend/page/home/main.tsx:45-48 | the form's default value "openai.com" passes the validator |
| DomainValidator.SubdomainExampleAccepted | src/components/frontend/page/home/main.tsx:28 | "sub.example.co" is accepted |
| DomainValidator.RejectedExamples | src/components/frontend/page/home/main.tsx:28 | "", "a.c", "x.com", "example.123" and "://bad.com" are rejected |
| Previews.DefaultUrl | src/components/frontend/page/home/main.tsx:107 | definition: `${protocol}//${currentHost}/${domain}`; its properties are stated by `PreviewUrlsNameDomain`, `DefaultUrlPrefixOfLarger` and `PreviewUrlsDistinct` |
| Previews.LargerUrl | src/components/frontend/page/home/main.tsx:108 | definition: the default URL followed by `?larger=true`; its properties are stated by the same three lemmas |
| Previews.EmbedCode | src/components/frontend/page/home/main.tsx:112-113 | definition: the `<img alt="Favicon" src="…" />` snippet for a truthy URL, else `""`; inverted by `EmbeddedSrc` in `EmbedCodeRoundTrip` |
| Previews.Images | src/components/frontend/page/home/main.tsx:115-133 | definition: the `images` array, default-size entry then larger entry, each with its URL, or `""` when there is none, as source and the URL's embed code; used by `RenderedPreviews` |
| Previews.RenderedImages | src/components/frontend/page/home/main.tsx:164 | definition: `host && images.map(...)`, all entries for a truthy host, none otherwise; used by `RenderedPreviews` |
| Previews.AcceptedHasNoQuery | src/components/frontend/page/home/main.tsx:28 | an accepted domain contains no `?`, so it cannot run into the query of the larger URL |
| Previews.PreviewUrlsNameDomain | src/components/frontend/page/home/main.tsx:107-108 | both preview URLs of an accepted domain lie on the origin and lead the favicon route back to exactly that domain |
| Previews.DefaultUrlPrefixOfLarger | src/components/frontend/page/home/main.tsx:107-108 | the default URL is a strict prefix of the larger one, which adds exactly `?larger=true` |
| Previews.PreviewUrlsDistinct | src/components/frontend/page/home/main.tsx:107-108 | on one origin, accepted domains give equal URLs only when equal, and a default URL never equals a larger URL |
| Previews.EmbedCodeRoundTrip | src/components/frontend/page/home/main.tsx:112-113 | the snippet is `""` exactly for a falsy URL, and otherwise `<img alt="Favicon" src="…" />` whose `src` is the URL |
| Previews.RenderedPreviews | src/components/frontend/page/home/main.tsx:115-133 | for an accepted domain and a nonempty host, exactly two previews render, with the two URLs as distinct sources and snippets that embed them; none for an empty host |
| Previews.ExampleUrls | src/components/frontend/page/home/main.tsx:107-108 | on "https:" / "fav.example" the URLs for "openai.com" are `https://fav.example/openai.com` and the same with `?larger=true` |
| FetchController.Apply | src/components/frontend/page/home/main.tsx:81-93 | definition: the setters each event runs: a submit sets fetching, clears error and info and confirms the domain; a success stores the payload and clears fetching; a failure stores the message and clears fetching. Its behaviour over traces is stated by `FormKeepsSingleFlight` and `SettlementAnswersConfirmedDomain` |
| FetchController.FormKeepsSingleFlight | src/components/frontend/page/home/main.tsx:80-95 | for every feasible event trace through the form (button enabled, value accepted), the outstanding requests are exactly the confirmed domain's while fetching and none otherwise, and error and result are never both set |
| FetchController.SettlementAnswersConfirmedDomain | src/components/frontend/page/home/main.tsx:85-94 | through the form, every settlement answers the request for the domain confirmed at that moment, and arrives while fetching |
| FetchController.ConfirmedDomainAccepted | src/components/frontend/page/home/main.tsx:30-32 | if the resolver let through only accepted values, the confirmed domain is always accepted, the default included |
| FetchController.StaleSettlementWithoutGate | src/components/frontend/page/home/main.tsx:85-94 | without the button gate, submit a.com, submit b.com, then a.com's answer leaves a.com's payload shown under b.com with fetching false while b.com is outstanding |
| FetchController.BannerWithResultsWithoutGate | src/components/frontend/page/home/main.tsx:86-93 | without the button gate, an error and a result can both be stored |
| FetchController.OverlappingRequestsFeasible | src/components/frontend/page/home/main.tsx:80-95 | submit a.com, submit b.com, a.com fails, b.com succeeds is a trace in which every settlement answers an outstanding request |
| FetchController.SubmitAfterFailureClears | src/components/frontend/page/home/main.tsx:81-84 | a submit after a failure hides the banner and the results, shows the skeleton and disables the button before anything settles |
| FetchController.SubmitThenFailure | src/components/frontend/page/home/main.tsx:90-94 | submit then failure leaves fetching false, the failure's message, no result, and the submitted domain |
| FetchController.SubmitThenSuccess | src/components/frontend/page/home/main.tsx:86-89 | submit then success leaves fetching false, no error, the payload shown, and the submitted domain |
| FetchController.InvalidValueDoesNotDisable | src/components/frontend/page/home/main.tsx:153-155 | the nonempty invalid value "bad" leaves the idle button enabled and the message slot mounted |
| Presentation.SubmitDisabled | src/components/frontend/page/home/main.tsx:153 | definition: the submit button is disabled for an empty field or while fetching; related to the events by `SubmitAfterFailureClears` and `InvalidValueDoesNotDisable` |
| Presentation.FieldMessageMounted | src/components/frontend/page/home/main.tsx:155 | definition: the inline message slot exists only for a nonempty field; see `InvalidValueDoesNotDisable` |
| Presentation.ErrorBannerShown | src/components/frontend/page/home/main.tsx:161 | definition: the error banner shows for a truthy error; see `SubmitThenFailure` and `SubmitAfterFailureClears` |
| Presentation.SkeletonShown | src/components/frontend/page/home/main.tsx:162 | definition: the loading skeleton shows while fetching; see `SubmitAfterFailureClears` |
| Presentation.ResultsShown | src/components/frontend/page/home/main.tsx:163 | definition: the results show for a stored payload in a browser; see `SubmitThenSuccess` and `SuccessScenario` |
| Presentation.PreviewsShown | src/components/frontend/page/home/main.tsx:164 | definition: the previews show for a truthy host; see `Page.RenderedPreviews` |
| HomePage.Page.constructor | src/components/frontend/page/home/main.tsx:42-53 | the first render: not fetching, no error, no info, confirmed domain and field "openai.com", no origin, host or URLs |
| HomePage.Page.Edit | src/components/frontend/page/home/main.tsx:151 | an edit changes the field value only |
| HomePage.Page.HandleSubmit | src/components/frontend/page/home/main.tsx:80-85 | sets fetching, clears error and info, confirms the domain, keeps the other slots, and requests `/` followed by the domain |
| HomePage.Page.SettleSuccess | src/components/frontend/page/home/main.tsx:86-89 | stores the payload and clears fetching; error and confirmed domain unchanged |
| HomePage.Page.SettleFailure | src/components/frontend/page/home/main.tsx:90-94 | stores the message and clears fetching; info and confirmed domain unchanged |
| HomePage.Page.PressSubmit | src/components/frontend/page/home/main.tsx:143-153 | a submit happens exactly when the button is enabled and the validator accepts the field, and then it is `handleSubmit` on the field value; otherwise the slots are unchanged |
| HomePage.Page.Effect | src/components/frontend/page/home/main.tsx:102-110 | in a browser sets host and both URLs from the origin and the confirmed domain; with no window changes nothing |
| HomePage.Page.Mount | src/components/frontend/page/home/main.tsx:102-110 | the first run of the effect: the origin becomes known, the host and both URLs are set for the confirmed domain |
| HomePage.Page.RenderedPreviews | src/components/frontend/page/home/main.tsx:164 | previews render exactly when the host is known and nonempty; then there are two, at the two URLs for the last confirmed domain, distinct, each embedded by its own snippet |
| HomePage.SuccessScenario | src/components/frontend/page/home/main.tsx:143-164 | mount at "https:" / "fav.example", submit the default value, settle with a payload: results shown without spinner or banner, previews at the two expected URLs |

## Left out

- JSX markup, CSS classes and the `Button`, `Input`, `Skeleton`, `ImageCode`, `Results`, `Markdown` and `Faqs` components: user interface; only their render conditions are modelled, in `Presentation`.
- `apiClient.get`: a network client; a request is the path `HandleSubmit` returns, and its outcome is a settlement event carrying a payload or a message. The payload type `ResponseInfo` is the type parameter `Info`, assumed truthy when stored.
- The internals of zod and react-hook-form: the resolver is modelled as "apply the validator, call `handleSubmit` only if it accepts". When the inline message gets its text is left to that library; only whether its slot is mounted (`FieldMessageMounted`) is modelled.
- `useTranslations` / `t(...)`: the localisation library; the `title` and `alt` fields of the `images` entries and the FAQ texts are not modelled.
- `isBrowser()`: an environment read; it is a parameter of `ResultsShown`. `window.location` is read once, by `Page.Mount`.
- React's render scheduling: the effect is the method `Page.Effect`, which the caller runs after a render in which the confirmed domain changed. `HandleSubmit` promises the URLs stay in step only when the domain did not change.
- Concurrency: concurrent resolution of several in-flight requests appears only as event traces (`FetchController.Replay`). No generation counter or last-submission-wins rule is modelled, because the code has none.
- `console.log` and the markdown and FAQ rendering: output only.
