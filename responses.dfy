/** The JSON answers the routes give, with their HTTP status codes. */
module Responses {
  import opened Files

  datatype Body =
    | Error(error: string)                          // {"error": ...}
    | ErrorDetails(error: string, details: string)  // {"error": ..., "details": ...}
    | Generated(filename: string)                   // {"filename": ...}
    | Audio(content: seq<byte>)                     // the bytes of a served file

  datatype Response = Response(status: nat, body: Body)

  const NoAudioMessage := "No audio file provided"
  const NoTextMessage := "No text input provided"
  const EmptyFileMessage := "Empty file uploaded"

  function BadRequest(message: string): Response {
    Response(400, Error(message))
  }

  /** The answer when synthesis raised or left no output file (app.py:273). */
  const GenerationFailed := Response(500, ErrorDetails("Failed to generate cloned voice", "TTS processing failed"))

  /** The answer for any other exception in the upload handler (app.py:279). */
  function InternalError(details: string): Response {
    Response(500, ErrorDetails("Internal server error", details))
  }

  /** The answer for any failure to serve an artifact (app.py:287). */
  const NotFound := Response(404, Error("File not found"))
}
