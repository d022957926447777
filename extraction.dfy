/**
 * `get_bp_from_image` once the photo has been opened: the vision model's
 * answer is cleaned and handed to the tolerant JSON parser, and any failure
 * becomes the error marker.
 */
module Extraction {
  import opened Wrappers
  import opened JsonValue
  import opened Cleaning

  const ErrorText: string := "Could not process the image or parse the response."

  /** The dict returned when the model call or the parse raised. */
  const ErrorMarker: Json := JObj(map[StrKey("error") := JStr(ErrorText)])

  /**
   * `response` is the model's text, None when the call or reading its text
   * raised; `repair` stands for the tolerant parser, None when it raised.
   * The parser only ever sees the cleaned text, and whatever it returns is
   * handed on unchanged.
   */
  function Extract(response: Option<string>, repair: string -> Option<Json>): (data: Json)
    ensures response.None? ==> data == ErrorMarker
    ensures response.Some? && repair(Clean(response.value)).Some? ==> data == repair(Clean(response.value)).value
    ensures data == ErrorMarker || (response.Some? && repair(Clean(response.value)) == Some(data))
  {
    match response
    case None => ErrorMarker
    case Some(text) =>
      match repair(Clean(text))
      case None => ErrorMarker
      case Some(parsed) => parsed
  }
}
