/**
 * `send_email` (src/telegram_to_email.py, lines 47-60): which headers and
 * which MIME parts the outgoing message gets.  Serialisation and the `msmtp`
 * subprocess are not part of this model.
 */
module Mail {
  import opened Wrappers

  newtype byte = x: int | 0 <= x < 256

  type Bytes = seq<byte>

  /** Python truthiness of `attachment`, which is `None` or a `bytes` value. */
  predicate HasData(attachment: Option<Bytes>) {
    attachment.Some? && attachment.value != []
  }

  /** The arguments of one `send_email(subject, body_text, attachment, filename)` call. */
  datatype SendRequest = SendRequest(
    subject: string,
    body: string,
    attachment: Option<Bytes>,
    filename: Option<string>)

  /** A MIME part of the multipart message. */
  datatype Part =
    | PlainText(text: string)                              // MIMEText(body_text, 'plain', 'utf-8')
    | OctetStream(payload: Bytes, filename: Option<string>)  // application/octet-stream, Content-Disposition: attachment

  /** The outgoing message: its From, To and Subject headers and its parts, in order. */
  datatype Email = Email(from: string, to: string, subject: string, parts: seq<Part>)

  /**
   * The message `send_email` builds for the configured address `toEmail`:
   * From and To are both that address, the subject is passed through, the
   * plain-text part always comes first, and an attachment part follows
   * exactly when the attachment data is non-empty, whatever the filename.
   */
  function Envelope(toEmail: string, req: SendRequest): (e: Email)
    ensures e.from == toEmail && e.to == toEmail
    ensures e.subject == req.subject
    ensures |e.parts| >= 1 && e.parts[0] == PlainText(req.body)
    ensures |e.parts| == 2 <==> HasData(req.attachment)
    ensures |e.parts| <= 2
    ensures |e.parts| == 2 ==> e.parts[1] == OctetStream(req.attachment.value, req.filename)
  {
    var text := [PlainText(req.body)];
    var parts := if HasData(req.attachment)
      then text + [OctetStream(req.attachment.value, req.filename)]
      else text;
    Email(toEmail, toEmail, req.subject, parts)
  }

  /** What of a request reaches the email: everything but an empty or missing attachment and its filename. */
  function Carried(req: SendRequest): SendRequest {
    if HasData(req.attachment) then req else SendRequest(req.subject, req.body, None, None)
  }

  /**
   * Two requests give the same email exactly when they agree on what is
   * carried: the envelope neither invents nor loses anything else.
   */
  lemma EnvelopeCarries(toEmail: string, r1: SendRequest, r2: SendRequest)
    ensures Envelope(toEmail, r1) == Envelope(toEmail, r2) <==> Carried(r1) == Carried(r2)
  {
    var e1, e2 := Envelope(toEmail, r1), Envelope(toEmail, r2);
    if e1 == e2 {
      assert e1.parts[0] == e2.parts[0];
      if HasData(r1.attachment) {
        assert e2.parts[1] == e1.parts[1];
      }
    }
  }

  /** The header list of a message built for `e`, in the order `send_email` assigns them. */
  function Headers(e: Email): seq<(string, string)> {
    [("From", e.from), ("To", e.to), ("Subject", e.subject)]
  }

  /**
   * The part of Python's `email.message.Message` that `send_email` uses:
   * assigning a header appends it to the header list, and `attach` appends a
   * part to the payload.
   */
  class MimeMessage {
    var headers: seq<(string, string)>
    var parts: seq<Part>

    constructor ()
      ensures headers == [] && parts == []
    {
      headers := [];
      parts := [];
    }

    /** `msg[name] = value`. */
    method SetHeader(name: string, value: string)
      modifies this
      ensures headers == old(headers) + [(name, value)]
      ensures parts == old(parts)
    {
      headers := headers + [(name, value)];
    }

    /** `msg.attach(part)`. */
    method Attach(part: Part)
      modifies this
      ensures parts == old(parts) + [part]
      ensures headers == old(headers)
    {
      parts := parts + [part];
    }

    /** `msg.get(name)`: the value of the first header with that name, if any. */
    function Get(name: string): (v: Option<string>)
      reads this
      ensures v.Some? <==> exists i :: 0 <= i < |headers| && headers[i].0 == name
    {
      FirstValue(headers, name)
    }
  }

  function FirstValue(hs: seq<(string, string)>, name: string): (v: Option<string>)
    ensures v.Some? <==> exists i :: 0 <= i < |hs| && hs[i].0 == name
    ensures v.Some? ==> exists i :: 0 <= i < |hs| && hs[i] == (name, v.value)
  {
    if hs == [] then None
    else if hs[0].0 == name then Some(hs[0].1)
    else
      var v := FirstValue(hs[1..], name);
      assert forall i :: 0 <= i < |hs| - 1 ==> hs[1..][i] == hs[i + 1];
      assert v.Some? ==> hs[0].0 != name;
      v
  }

  /**
   * `send_email` up to serialisation: a fresh message whose headers and parts
   * are those of `Envelope(toEmail, req)`.
   */
  method BuildMessage(toEmail: string, req: SendRequest) returns (msg: MimeMessage)
    ensures fresh(msg)
    ensures msg.headers == Headers(Envelope(toEmail, req))
    ensures msg.parts == Envelope(toEmail, req).parts
    ensures msg.Get("From") == Some(toEmail) && msg.Get("To") == Some(toEmail)
    ensures msg.Get("Subject") == Some(req.subject)
  {
    msg := new MimeMessage();
    msg.SetHeader("From", toEmail);
    msg.SetHeader("To", toEmail);
    msg.SetHeader("Subject", req.subject);
    msg.Attach(PlainText(req.body));
    if HasData(req.attachment) {
      msg.Attach(OctetStream(req.attachment.value, req.filename));
    }
    var hs := msg.headers;
    assert hs[1..][1..] == [("Subject", req.subject)];
    assert FirstValue(hs[1..][1..], "Subject") == Some(req.subject);
    assert FirstValue(hs[1..], "To") == Some(toEmail);
    assert FirstValue(hs[1..], "Subject") == Some(req.subject);
  }
}
