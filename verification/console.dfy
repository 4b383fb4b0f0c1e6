/** What the script writes to the console or shows the user, in the order it happens. */
module Console {

  datatype LogEntry =
    | ConsoleLog(text: string)     // console.log(text)
    | ConsoleLogException          // console.log(e.message) for an exception caught while drawing SVG layers
    | ConsoleError                 // console.error(error) with the rejection of the joined fetches
    | Alert(text: string)          // alert(text)

  /** The diagnostic for a considered layer that is not fetched. */
  function NoUrlMessage(layerId: string): string
  {
    "No URL for layer: " + layerId
  }

  /** The text of the alert shown when a fetch fails. */
  const ThumbnailError: string := "Error creating thumbnail."
}
