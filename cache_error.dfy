/**
 * `CacheError`: the failures of the cache operations. The boxed
 * lower-level cause is kept opaque, as the type parameter `C`.
 */
module CacheErrors {
  import opened Wrappers

  datatype CacheError<+C> =
    | InternalError(source: C)
    | NotFound

  /** `Error::source`: the wrapped cause of an internal error; a missing record has none. */
  function Source<C>(e: CacheError<C>): (r: Option<C>)
    ensures r.Some? <==> e.InternalError?
    ensures e.InternalError? ==> r.value == e.source
  {
    match e
    case InternalError(source) => Some(source)
    case NotFound => None
  }

  /** `Display`: a fixed message per variant; the cause is never shown. */
  function Display<C>(e: CacheError<C>): (s: string)
    ensures e.InternalError? ==> s == "Internal error occurred"
    ensures e.NotFound? ==> s == "Cache entry not found"
  {
    match e
    case InternalError(_) => "Internal error occurred"
    case NotFound => "Cache entry not found"
  }

  /** Internal errors display alike whatever cause they wrap. */
  lemma DisplayIgnoresCause<C>(a: C, b: C)
    ensures Display(InternalError(a)) == Display(InternalError(b))
  {
  }

  /** The message tells exactly whether there is a cause to inspect. */
  lemma DisplayDecidesSource<C>(e: CacheError<C>)
    ensures Display(e) == "Cache entry not found" <==> Source(e) == None
    ensures Display(e) == "Internal error occurred" <==> Source(e).Some?
  {
  }

  /** The cases the crate's unit tests pin down, an error wrapping another one included. */
  lemma DisplayExamples()
    ensures Display<CacheError<int>>(InternalError(NotFound)) == "Internal error occurred"
    ensures Display<int>(NotFound) == "Cache entry not found"
  {
  }
}
