/**
 * The render conditions of the home page: which parts of the page are shown
 * for a given state, read off the JSX. Each is a projection of the state the
 * page holds; the lemmas beside the request model relate them to its events.
 */
module Presentation {
  import opened Wrappers

  /** `disabled={!field.value || fetching}` on the submit button. */
  predicate SubmitDisabled(fieldValue: string, fetching: bool)
  {
    fieldValue == "" || fetching
  }

  /** `{field.value && <FormMessage />}`: the inline message slot exists only for a nonempty field. */
  predicate FieldMessageMounted(fieldValue: string)
  {
    fieldValue != ""
  }

  /** `{error && <div ...>{error}</div>}` */
  predicate ErrorBannerShown(error: Option<string>)
  {
    Truthy(error)
  }

  /** `{fetching && <Skeleton ... />}` */
  predicate SkeletonShown(fetching: bool)
  {
    fetching
  }

  /** `{info && isBrowser() && <Results info={info} />}`; the payload object is taken to be truthy. */
  predicate ResultsShown<Info>(info: Option<Info>, isBrowser: bool)
  {
    info.Some? && isBrowser
  }

  /** `{host && images.map(...)}` */
  predicate PreviewsShown(host: Option<string>)
  {
    Truthy(host)
  }
}
