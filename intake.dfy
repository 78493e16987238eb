/**
  The ordered checks `upload_file` makes before touching the filesystem
  (app.py:255-264).
 */
module Intake {
  import opened Wrappers
  import opened Files
  import opened Responses

  /** A multipart file entry: the client's filename and the uploaded bytes. */
  datatype Upload = Upload(filename: string, content: seq<byte>)

  /** The parts of a POST /upload the handler looks at: `request.files['file']` and `request.form['text']`. */
  datatype Request = Request(file: Option<Upload>, text: Option<string>)

  datatype Rejection = MissingAudio | MissingText | EmptyUpload

  datatype Admission = Rejected(reason: Rejection) | Admitted(upload: Upload, text: string)

  /**
    The file field is checked first, the text field second, the filename
    last; text is required to be present only, so an empty text is admitted.
   */
  function Validate(req: Request): (a: Admission)
    ensures a == Rejected(MissingAudio) <==> req.file.None?
    ensures a == Rejected(MissingText) <==> req.file.Some? && req.text.None?
    ensures a == Rejected(EmptyUpload) <==> req.file.Some? && req.text.Some? && req.file.value.filename == ""
    ensures a.Admitted? <==> req.file.Some? && req.text.Some? && req.file.value.filename != ""
    ensures a.Admitted? ==> a.upload == req.file.value && a.text == req.text.value
  {
    if req.file.None? then Rejected(MissingAudio)
    else if req.text.None? then Rejected(MissingText)
    else if req.file.value.filename == "" then Rejected(EmptyUpload)
    else Admitted(req.file.value, req.text.value)
  }

  /** The message each failed check answers with. */
  function Message(reason: Rejection): string {
    match reason
    case MissingAudio => NoAudioMessage
    case MissingText => NoTextMessage
    case EmptyUpload => EmptyFileMessage
  }

  /** The 400 answer for a failed check. */
  function Reject(reason: Rejection): Response {
    BadRequest(Message(reason))
  }

  /** Each check has its own message, so the client can tell which one failed. */
  lemma RejectionsDistinguishable(a: Rejection, b: Rejection)
    requires a != b
    ensures Reject(a) != Reject(b)
  {
  }
}
