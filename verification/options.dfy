/** The nullable values of the widget (`T | null` in the component's state). */
module Options {

  /** A value of type `T`, or null. */
  datatype Option<T> = None | Some(value: T)

  /** The image source the card uses: the URL when there is one, else the empty string
      (the component's `mealImage || ''`). */
  function SourceOf(url: Option<string>): string {
    if url.Some? then url.value else ""
  }
}
