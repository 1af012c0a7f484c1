/** The outcome of one chat-completion call, the only part of the model provider this application sees. */
module Llm {
  import opened Wrappers
  import JsText

  /**
   * `Threw`: the client could not be built or the call failed, with the message of
   * the `Error` thrown (`None` when the thrown value is not an `Error`).
   * `Answered`: `choices[0]?.message?.content`, `None` when it is missing or null.
   */
  datatype ModelCall = Threw(error: Option<string>) | Answered(content: Option<string>)

  /** `error instanceof Error ? error.message : "Unknown error"`, as both model-backed routes report a failure. */
  function ErrorText(error: Option<string>): (r: string)
    ensures error.Some? ==> r == error.value
    ensures error.None? ==> r == "Unknown error"
  {
    if error.Some? then error.value else "Unknown error"
  }

  /** `content?.trim()`, with `""` standing for `undefined`: both are falsy and are treated alike by every caller. */
  function AnswerText(content: Option<string>): (r: string)
    ensures content.None? ==> r == ""
    ensures content.Some? ==> r == JsText.Trim(content.value)
  {
    match content
    case None => ""
    case Some(s) => JsText.Trim(s)
  }
}
