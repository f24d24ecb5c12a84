/** The image-status flags of the result card and the one-shot photo fetch that drives them. */
module ImageFetch {
  import opened Options

  /** `mealImage`, `isLoadingImage` and `imageError` of the component. */
  datatype ImageState = ImageState(mealImage: Option<string>, isLoading: bool, imageError: bool)

  /** The flags as the component starts: no image, not loading, no error. */
  const Initial := ImageState(None, false, false)

  /** How one request ends. `Listing` carries the regular-size URL of each photo in the
      response body, in order (a body that is not a list behaves as an empty listing);
      `Throws` is any failure of the request or of reading its body. */
  datatype Outcome = Listing(regularUrls: seq<string>) | Throws

  /** The outcome yields a photo: a listing with at least one entry. */
  predicate Succeeded(o: Outcome) {
    o.Listing? && |o.regularUrls| > 0
  }

  /** What the picture area of the result card shows. */
  datatype Picture = Spinner | Unavailable | Photo(src: string)

  /** The picture area: spinner while loading, else the placeholder on error, else the image
      (an empty source while there is none). */
  function Show(img: ImageState): (r: Picture)
    ensures r == Spinner <==> img.isLoading
    ensures r == Unavailable <==> !img.isLoading && img.imageError
    ensures r.Photo? ==> r.src == SourceOf(img.mealImage)
  {
    if img.isLoading then Spinner
    else if img.imageError then Unavailable
    else Photo(SourceOf(img.mealImage))
  }

  /** A fetch begins: loading on, error off; the previous image is kept. */
  function Start(img: ImageState): (r: ImageState)
    ensures r.isLoading && !r.imageError
    ensures r.mealImage == img.mealImage
    ensures Show(r) == Spinner
  {
    img.(isLoading := true, imageError := false)
  }

  /** A fetch completes. A photo replaces the image; an empty listing or a failure raises the
      error flag and keeps the image. Loading ends either way. Nothing ties the completion to
      the request that produced it, and a success leaves the error flag as it finds it. */
  function Complete(img: ImageState, o: Outcome): (r: ImageState)
    ensures !r.isLoading
    ensures Succeeded(o) ==> r.mealImage == Some(o.regularUrls[0]) && r.imageError == img.imageError
    ensures !Succeeded(o) ==> r.mealImage == img.mealImage && r.imageError
  {
    var done := img.(isLoading := false);
    match o
    case Listing(urls) =>
      if |urls| > 0 then done.(mealImage := Some(urls[0])) else done.(imageError := true)
    case Throws =>
      done.(imageError := true)
  }

  /** One request on its own, started and then completed, shows its first photo on success and
      the placeholder otherwise, whatever the flags were before. */
  lemma SingleFetchShowsOutcome(img: ImageState, o: Outcome)
    ensures Show(Complete(Start(img), o))
         == if Succeeded(o) then Photo(o.regularUrls[0]) else Unavailable
  {
  }

  /** Two overlapping requests: whichever completes first clears the loading flag although
      the other is still outstanding. */
  lemma FirstCompletionEndsLoading(img: ImageState, o: Outcome)
    ensures !Complete(Start(Start(img)), o).isLoading
  {
  }

  /** Two overlapping requests completing out of order: the older one's photo, arriving last,
      becomes the image, and is what is shown when the newer request succeeded too. */
  lemma LastCompletionWins(img: ImageState, newer: Outcome, older: Outcome)
    requires Succeeded(older)
    ensures Complete(Complete(Start(Start(img)), newer), older).mealImage == Some(older.regularUrls[0])
    ensures Succeeded(newer) ==>
      Show(Complete(Complete(Start(Start(img)), newer), older)) == Photo(older.regularUrls[0])
  {
  }

  /** Two overlapping requests where one fails and the other then succeeds: the success does
      not clear the failure's error flag, so the placeholder stays although a photo arrived. */
  lemma FailureOutlivesLaterSuccess(img: ImageState, url: string)
    ensures Complete(Complete(Start(Start(img)), Throws), Listing([url])).mealImage == Some(url)
    ensures Show(Complete(Complete(Start(Start(img)), Throws), Listing([url]))) == Unavailable
  {
  }
}
