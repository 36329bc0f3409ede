/**
  The image component with a one-shot fallback
  (src/components/ImageWithFallback.tsx): it shows `src`, and on the first
  load error switches once to the fallback image.
 */
module ImageWithFallback {
  import opened Outcomes

  const DefaultFallbackImage := "https://images.pexels.com/photos/3760067/pexels-photo-3760067.jpeg?auto=compress&cs=tinysrgb&dpr=2&h=400"

  /** The `defaultSrc` prop: the module's fallback when the prop is not passed. */
  function FallbackOf(defaultSrc: Option<string>): (fallback: string)
    ensures defaultSrc.None? ==> fallback == DefaultFallbackImage
    ensures defaultSrc.Some? ==> fallback == defaultSrc.value
  {
    defaultSrc.GetOr(DefaultFallbackImage)
  }

  /** The component's state: the source shown and whether the one switch has happened. */
  datatype ImageState = ImageState(imageSrc: string, hasError: bool)

  /** The initial state: `src` when non-empty, else the fallback; no error yet. */
  function Initial(src: string, fallback: string): (s: ImageState)
    ensures !s.hasError
    ensures src != "" ==> s.imageSrc == src
    ensures src == "" ==> s.imageSrc == fallback
  {
    ImageState(if src != "" then src else fallback, false)
  }

  /** `handleError`: switch to the fallback only before the first switch and only when not showing it already. */
  function OnError(s: ImageState, fallback: string): (r: ImageState)
    ensures !s.hasError && s.imageSrc != fallback ==> r == ImageState(fallback, true)
    ensures s.hasError || s.imageSrc == fallback ==> r == s
  {
    if !s.hasError && s.imageSrc != fallback then ImageState(fallback, true) else s
  }

  /** The state after `n` error events. */
  function AfterErrors(s: ImageState, fallback: string, n: nat): (r: ImageState)
    ensures r.imageSrc == s.imageSrc || r.imageSrc == fallback
    ensures r.hasError ==> s.hasError || r.imageSrc == fallback
    decreases n
  {
    if n == 0 then s else AfterErrors(OnError(s, fallback), fallback, n - 1)
  }

  /** A second error changes nothing. */
  lemma OnErrorIdempotent(s: ImageState, fallback: string)
    ensures OnError(OnError(s, fallback), fallback) == OnError(s, fallback)
  {
  }

  /** Any run of errors ends where the first error left the state: the source switches at most once. */
  lemma {:induction false} ErrorsSwitchAtMostOnce(s: ImageState, fallback: string, n: nat)
    requires n >= 1
    ensures AfterErrors(s, fallback, n) == OnError(s, fallback)
    decreases n
  {
    if n > 1 {
      ErrorsSwitchAtMostOnce(OnError(s, fallback), fallback, n - 1);
      OnErrorIdempotent(s, fallback);
    }
  }

  /** From the initial state, the source shown is always the initial one or the fallback. */
  lemma {:induction false} SourceIsInitialOrFallback(src: string, fallback: string, n: nat)
    ensures AfterErrors(Initial(src, fallback), fallback, n).imageSrc in {Initial(src, fallback).imageSrc, fallback}
  {
    if n >= 1 {
      ErrorsSwitchAtMostOnce(Initial(src, fallback), fallback, n);
    }
  }

  class ImageWithFallback {
    var imageSrc: string
    var hasError: bool
    const fallback: string

    constructor(src: string, defaultSrc: Option<string>)
      ensures fallback == FallbackOf(defaultSrc)
      ensures ImageState(imageSrc, hasError) == Initial(src, fallback)
    {
      fallback := FallbackOf(defaultSrc);
      imageSrc := if src != "" then src else FallbackOf(defaultSrc);
      hasError := false;
    }

    method HandleError()
      modifies this
      ensures ImageState(imageSrc, hasError) == OnError(old(ImageState(imageSrc, hasError)), fallback)
    {
      if !hasError && imageSrc != fallback {
        imageSrc := fallback;
        hasError := true;
      }
    }
  }
}
