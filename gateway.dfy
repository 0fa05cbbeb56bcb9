/**
 * The external collaborators of the extractor, as parameters: the generative
 * model (a request in, response text or an error message out) and
 * `JSON.parse` (text in, a value or the syntax error's message out).
 */
module Gateway {
  import opened Wrappers
  import opened Values

  /** What is sent to the model: a text prompt, or a prompt with an inline image. */
  datatype ModelRequest =
    | TextPrompt(prompt: string)
    | ImagePrompt(prompt: string, data: Value, mimeType: Value)

  /** The model's response text, or the message of the error it raised. */
  type ModelReply = Result<string, string>

  /** One call to the model. */
  type Model = ModelRequest -> ModelReply

  /** `JSON.parse`: the parsed value, or the message of the syntax error. */
  type JsonParser = string -> Result<Value, string>
}
