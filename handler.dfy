/**
 * `message_handler` (src/telegram_to_email.py, lines 85-134): from one new
 * message to the arguments of `send_email`.  The awaited calls are inputs:
 * what `msg.get_sender()` found (or that the sender block raised) and what
 * `msg.download_media(file=bytes)` gave (or that it raised).
 */
module Handler {
  import opened Wrappers
  import opened PyStr
  import opened Decimal
  import opened Mail

  /** A user who sent a message; any of the three names may be `None`. */
  datatype User = User(firstName: Option<string>, lastName: Option<string>, username: Option<string>)

  /** How the sender block (lines 94-105) ended before the label was chosen. */
  datatype SenderLookup =
    | LookupRaised      // something in the `try` raised; the handler logs it and goes on
    | NoSender          // `get_sender()` gave `None`
    | Sender(user: User)

  datatype Chat = Chat(title: string)

  /** An attribute of a document or video; only some kinds of attribute have a `file_name`. */
  datatype DocumentAttribute = FileNameAttribute(fileName: string) | OtherAttribute

  /** A document or video reference, with its attribute list. */
  datatype Media = Media(attributes: seq<DocumentAttribute>)

  /** The parts of `event.message` the handler reads. */
  datatype Message = Message(
    id: int,
    text: Option<string>,
    chat: Option<Chat>,
    photo: bool,
    document: Option<Media>,
    video: Option<Media>)

  /** What `await msg.download_media(file=bytes)` did. */
  datatype Download = Downloaded(data: Bytes) | NothingDownloaded | DownloadRaised

  /** An exception that escapes the handler: no email is sent for that message. */
  datatype HandlerError =
    | DownloadFailed   // `download_media` raised (it is not inside a `try`)
    | IndexError       // `attributes[-1]` on an empty attribute list
    | AttributeError   // the last attribute has no `file_name`

  const UnknownSource := "未知来源"
  const UserPrefix := "用户: "
  const ChatPrefix := "来自群组/频道: "
  const NoTextPlaceholder := "[无文本内容]"

  const PhotoSubject := "【Telegram】新图片信息"
  const DocumentSubject := "【Telegram】新附件信息"
  const VideoSubject := "【Telegram】新视频信息"
  const TextSubject := "【Telegram】新文字信息"
  const OtherSubject := "【Telegram】新消息 (其他类型)"

  predicate StartsWith(s: string, prefix: string) {
    |prefix| <= |s| && s[..|prefix|] == prefix
  }

  predicate EndsWith(s: string, suffix: string) {
    |suffix| <= |s| && s[|s| - |suffix|..] == suffix
  }

  // ---------------------------------------------------------------- sender label

  /** An f-string field holding a `str` or `None`. */
  function Show(o: Option<string>): string {
    match o
    case None => "None"
    case Some(s) => s
  }

  /** Lines 97-101: first name, then the last name and the username when they are truthy. */
  function UserLabel(u: User): string {
    UserPrefix + Show(u.firstName)
    + (if Truthy(u.lastName) then " " + u.lastName.value else "")
    + (if Truthy(u.username) then " (@" + u.username.value + ")" else "")
  }

  /** Lines 93-105: the `sender_info` label. */
  function SenderLabel(lookup: SenderLookup, chat: Option<Chat>): string {
    match lookup
    case LookupRaised => UnknownSource
    case Sender(u) => UserLabel(u)
    case NoSender => if chat.Some? then ChatPrefix + chat.value.title else UnknownSource
  }

  /**
   * A user's label is the prefix and first name, then ` last` only when the
   * last name is truthy, then ` (@username)` only when the username is
   * truthy, in that order and with nothing else.
   */
  lemma UserLabelLayout(u: User)
    ensures var info, head := UserLabel(u), UserPrefix + Show(u.firstName);
      var tail := if Truthy(u.username) then " (@" + u.username.value + ")" else "";
      && StartsWith(info, head)
      && EndsWith(info, tail)
      && |info| == |head| + (if Truthy(u.lastName) then 1 + |u.lastName.value| else 0) + |tail|
      && (Truthy(u.lastName) ==> info[|head|..|info| - |tail|] == " " + u.lastName.value)
      && (!Truthy(u.lastName) && !Truthy(u.username) ==> info == head)
  {
    var head := UserPrefix + Show(u.firstName);
    var mid := if Truthy(u.lastName) then " " + u.lastName.value else "";
    var tail := if Truthy(u.username) then " (@" + u.username.value + ")" else "";
    var info := UserLabel(u);
    assert info == head + mid + tail;
    assert info[..|head|] == head;
    assert info[|head|..|info| - |tail|] == mid;
    assert info[|info| - |tail|..] == tail;
  }

  /** Which branch of the sender block chose the label. */
  datatype Origin = FromUser | FromChat | Unknown

  function LookupOrigin(lookup: SenderLookup, chat: Option<Chat>): Origin {
    match lookup
    case LookupRaised => Unknown
    case Sender(_) => FromUser
    case NoSender => if chat.Some? then FromChat else Unknown
  }

  /** Reads back from a label which branch produced it. */
  function LabelOrigin(info: string): Origin {
    if StartsWith(info, UserPrefix) then FromUser
    else if StartsWith(info, ChatPrefix) then FromChat
    else Unknown
  }

  /**
   * The three kinds of label cannot be confused: the branch that chose a
   * label can be read back from the label alone, and an unknown source is
   * labelled exactly "未知来源".
   */
  lemma LabelRevealsOrigin(lookup: SenderLookup, chat: Option<Chat>)
    ensures LabelOrigin(SenderLabel(lookup, chat)) == LookupOrigin(lookup, chat)
    ensures LookupOrigin(lookup, chat) == Unknown <==> SenderLabel(lookup, chat) == UnknownSource
    ensures lookup.Sender? ==> StartsWith(SenderLabel(lookup, chat), UserPrefix + Show(lookup.user.firstName))
    ensures LookupOrigin(lookup, chat) == FromChat ==> SenderLabel(lookup, chat) == ChatPrefix + chat.value.title
  {
    var info := SenderLabel(lookup, chat);
    match lookup
    case Sender(u) =>
      UserLabelLayout(u);
      assert info[..|UserPrefix|] == UserPrefix;
    case NoSender =>
      if chat.Some? {
        assert info[..|ChatPrefix|] == ChatPrefix;
        assert info[0] != UserPrefix[0];
      } else {
        assert info[0] != UserPrefix[0] && info[0] != ChatPrefix[0];
      }
    case LookupRaised =>
      assert info[0] != UserPrefix[0] && info[0] != ChatPrefix[0];
  }

  // ---------------------------------------------------------------- body

  /** `msg.text or "[无文本内容]"`. */
  function ShownText(text: Option<string>): string {
    if Truthy(text) then text.value else NoTextPlaceholder
  }

  /** `f"From: {sender_info}\n\n"`. */
  function BodyHeader(info: string): string {
    "From: " + info + "\n\n"
  }

  /** Lines 108-111: `body_text`. */
  function Body(info: string, text: Option<string>): string {
    BodyHeader(info) + ShownText(text)
  }

  /**
   * The body always opens with `From: <label>` and a blank line, and what
   * follows is never empty: the message text when it is non-empty, the
   * placeholder otherwise.  Label and text can be read back from it.
   */
  lemma BodyLayout(info: string, text: Option<string>)
    ensures var body, header := Body(info, text), BodyHeader(info);
      && StartsWith(body, header)
      && |body| > |header|
      && body[|header|..] == (if Truthy(text) then text.value else NoTextPlaceholder)
  {
    var body, header := Body(info, text), BodyHeader(info);
    assert body[..|header|] == header;
    assert body[|header|..] == ShownText(text);
  }

  /** A body determines the text shown in it, for a given label. */
  lemma BodyDeterminesText(info: string, t1: Option<string>, t2: Option<string>)
    requires Body(info, t1) == Body(info, t2)
    ensures ShownText(t1) == ShownText(t2)
  {
    BodyLayout(info, t1);
    BodyLayout(info, t2);
  }

  // ---------------------------------------------------------------- classification

  /** The branches of lines 118-131, in the order they are tried, and the fall-through. */
  datatype Kind = PhotoKind | DocumentKind | VideoKind | TextKind | OtherKind

  function Rank(k: Kind): nat {
    match k
    case PhotoKind => 0
    case DocumentKind => 1
    case VideoKind => 2
    case TextKind => 3
    case OtherKind => 4
  }

  /** The kinds whose condition holds for the message (Python truthiness). */
  function Exhibits(m: Message): set<Kind> {
    (if m.photo then {PhotoKind} else {})
    + (if m.document.Some? then {DocumentKind} else {})
    + (if m.video.Some? then {VideoKind} else {})
    + (if Truthy(m.text) then {TextKind} else {})
  }

  /**
   * The branch the `if`/`elif` chain takes: of the kinds the message
   * exhibits, the one tried first; "other" when it exhibits none.
   */
  function Classify(m: Message): (k: Kind)
    ensures k == OtherKind <==> Exhibits(m) == {}
    ensures k != OtherKind ==> k in Exhibits(m)
    ensures forall k' :: k' in Exhibits(m) ==> Rank(k) <= Rank(k')
  {
    if m.photo then PhotoKind
    else if m.document.Some? then DocumentKind
    else if m.video.Some? then VideoKind
    else if Truthy(m.text) then TextKind
    else OtherKind
  }

  function Subject(k: Kind): string {
    match k
    case PhotoKind => PhotoSubject
    case DocumentKind => DocumentSubject
    case VideoKind => VideoSubject
    case TextKind => TextSubject
    case OtherKind => OtherSubject
  }

  /** Each branch has its own subject: the subject tells which branch was taken. */
  lemma SubjectIdentifiesKind(k1: Kind, k2: Kind)
    ensures Subject(k1) == Subject(k2) <==> k1 == k2
  {
  }

  /** Media branches fetch an attachment; the text and "other" branches do not. */
  predicate IsMedia(k: Kind) {
    k == PhotoKind || k == DocumentKind || k == VideoKind
  }

  // ---------------------------------------------------------------- attachment

  /** `attributes[-1].file_name`, with the exceptions it can raise. */
  function LastFileName(attributes: seq<DocumentAttribute>): (r: Result<string, HandlerError>)
    ensures r.Ok? <==> |attributes| > 0 && attributes[|attributes| - 1].FileNameAttribute?
    ensures r.Ok? ==> r.value == attributes[|attributes| - 1].fileName
  {
    if |attributes| == 0 then Err(IndexError)
    else
      match attributes[|attributes| - 1]
      case OtherAttribute => Err(AttributeError)
      case FileNameAttribute(name) => Ok(name)
  }

  /** `attributes[-1].file_name or default`. */
  function FileNameOr(attributes: seq<DocumentAttribute>, default: string): Result<string, HandlerError> {
    var name :- LastFileName(attributes);
    Ok(if name != "" then name else default)
  }

  /** The filename a media branch uses when the message offers none. */
  function DefaultFileName(k: Kind, id: int): string
    requires IsMedia(k)
  {
    match k
    case PhotoKind => "image_" + ToString(id) + ".jpg"
    case DocumentKind => "file_" + ToString(id)
    case VideoKind => "video_" + ToString(id) + ".mp4"
  }

  /** Text before and after the message id in each default filename. */
  function DefaultPrefix(k: Kind): string
    requires IsMedia(k)
  {
    match k
    case PhotoKind => "image_"
    case DocumentKind => "file_"
    case VideoKind => "video_"
  }

  function DefaultSuffix(k: Kind): string
    requires IsMedia(k)
  {
    match k
    case PhotoKind => ".jpg"
    case DocumentKind => ""
    case VideoKind => ".mp4"
  }

  /**
   * A default filename is never empty, names its kind, and the message id
   * can be read back from it with `int()`.
   */
  lemma DefaultFileNameHoldsId(k: Kind, id: int)
    requires IsMedia(k)
    ensures var name, p, q := DefaultFileName(k, id), DefaultPrefix(k), DefaultSuffix(k);
      && name != ""
      && StartsWith(name, p) && EndsWith(name, q)
      && |p| + |q| <= |name|
      && ParseInt(name[|p|..|name| - |q|]) == Some(id)
  {
    var name, p, q, digits := DefaultFileName(k, id), DefaultPrefix(k), DefaultSuffix(k), ToString(id);
    assert name == p + digits + q;
    assert name[..|p|] == p;
    assert name[|name| - |q|..] == q;
    assert name[|p|..|name| - |q|] == digits;
  }

  /** The `download_media` result as `attachment_data`, or the exception it raised. */
  function AttachmentData(d: Download): Result<Option<Bytes>, HandlerError> {
    match d
    case DownloadRaised => Err(DownloadFailed)
    case NothingDownloaded => Ok(None)
    case Downloaded(data) => Ok(Some(data))
  }

  // ---------------------------------------------------------------- the handler

  /**
   * Lines 89-134: the `send_email` arguments for message `m`, or the exception
   * that ends the handler before it sends anything.
   */
  function Handle(m: Message, lookup: SenderLookup, download: Download): Result<SendRequest, HandlerError> {
    var body := Body(SenderLabel(lookup, m.chat), m.text);
    var kind := Classify(m);
    var subject := Subject(kind);
    match kind
    case PhotoKind =>
      var data :- AttachmentData(download);
      Ok(SendRequest(subject, body, data, Some(DefaultFileName(PhotoKind, m.id))))
    case DocumentKind =>
      var data :- AttachmentData(download);
      var name :- FileNameOr(m.document.value.attributes, DefaultFileName(DocumentKind, m.id));
      Ok(SendRequest(subject, body, data, Some(name)))
    case VideoKind =>
      var data :- AttachmentData(download);
      var name :- FileNameOr(m.video.value.attributes, DefaultFileName(VideoKind, m.id));
      Ok(SendRequest(subject, body, data, Some(name)))
    case TextKind =>
      Ok(SendRequest(subject, body, None, None))
    case OtherKind =>
      Ok(SendRequest(subject, body, None, None))
  }

  /** The attribute list consulted for a filename by the document and video branches. */
  function MediaAttributes(m: Message, k: Kind): seq<DocumentAttribute>
    requires k == Classify(m) && (k == DocumentKind || k == VideoKind)
  {
    if k == DocumentKind then m.document.value.attributes else m.video.value.attributes
  }

  /**
   * Whatever the branch, an email that is sent carries the branch's subject
   * and the body built from the sender label and the message text.
   */
  lemma HandleSubjectAndBody(m: Message, lookup: SenderLookup, download: Download)
    requires Handle(m, lookup, download).Ok?
    ensures var req := Handle(m, lookup, download).value;
      && req.subject == Subject(Classify(m))
      && StartsWith(req.body, BodyHeader(SenderLabel(lookup, m.chat)))
      && req.body[|BodyHeader(SenderLabel(lookup, m.chat))|..] == ShownText(m.text)
  {
    BodyLayout(SenderLabel(lookup, m.chat), m.text);
  }

  /**
   * Text-only and "other" messages never fetch media: they always lead to an
   * email, with no attachment data and no filename, whatever a download
   * would have done.
   */
  lemma NonMediaSendsTextOnly(m: Message, lookup: SenderLookup, d1: Download, d2: Download)
    requires !IsMedia(Classify(m))
    ensures Handle(m, lookup, d1).Ok?
    ensures Handle(m, lookup, d1).value.attachment.None? && Handle(m, lookup, d1).value.filename.None?
    ensures Handle(m, lookup, d1) == Handle(m, lookup, d2)
  {
  }

  /**
   * The handler ends without an email exactly when a media branch is taken
   * and either the download raises, or, for a document or a video, the last
   * attribute is missing or has no `file_name`.  A raising download wins.
   */
  lemma HandleFailsWhen(m: Message, lookup: SenderLookup, download: Download)
    ensures var k := Classify(m);
      Handle(m, lookup, download).Err? <==>
        IsMedia(k) &&
        (download.DownloadRaised? || (k != PhotoKind && LastFileName(MediaAttributes(m, k)).Err?))
    ensures IsMedia(Classify(m)) && download.DownloadRaised? ==> Handle(m, lookup, download) == Err(DownloadFailed)
  {
  }

  /**
   * In each media branch that completes, the attachment data is what the
   * download gave, and the filename is never empty: `image_<id>.jpg` for a
   * photo; for a document or video the last attribute's `file_name` when it
   * is non-empty, else `file_<id>` or `video_<id>.mp4`.
   */
  lemma MediaFileName(m: Message, lookup: SenderLookup, download: Download)
    requires IsMedia(Classify(m)) && Handle(m, lookup, download).Ok?
    ensures var k, req := Classify(m), Handle(m, lookup, download).value;
      && req.attachment == (if download.Downloaded? then Some(download.data) else None)
      && req.filename.Some? && req.filename.value != ""
      && (k == PhotoKind ==> req.filename.value == "image_" + ToString(m.id) + ".jpg")
      && (k != PhotoKind ==>
            var given := MediaAttributes(m, k)[|MediaAttributes(m, k)| - 1].fileName;
            req.filename.value == if given != "" then given else DefaultFileName(k, m.id))
  {
    var k, req := Classify(m), Handle(m, lookup, download).value;
    DefaultFileNameHoldsId(k, m.id);
    assert AttachmentData(download).Ok?;
    if k == PhotoKind {
      assert req.filename == Some(DefaultFileName(PhotoKind, m.id));
    } else {
      var attrs := MediaAttributes(m, k);
      var given := LastFileName(attrs).value;
      assert FileNameOr(attrs, DefaultFileName(k, m.id)) == Ok(if given != "" then given else DefaultFileName(k, m.id));
      assert req.filename == Some(if given != "" then given else DefaultFileName(k, m.id));
    }
  }

  /**
   * Lines 85-134 with `send_email`'s part selection: the email sent for a
   * message to the configured address, or the exception that stops it.
   */
  function Relay(toEmail: string, m: Message, lookup: SenderLookup, download: Download): Result<Email, HandlerError> {
    var req :- Handle(m, lookup, download);
    Ok(Envelope(toEmail, req))
  }

  /**
   * A sent email has an attachment part exactly when a media branch was
   * taken and the download gave non-empty data; that part holds the data.
   */
  lemma RelayAttachment(toEmail: string, m: Message, lookup: SenderLookup, download: Download)
    requires Relay(toEmail, m, lookup, download).Ok?
    ensures var e := Relay(toEmail, m, lookup, download).value;
      && e.from == toEmail && e.to == toEmail
      && (|e.parts| == 2 <==> IsMedia(Classify(m)) && download.Downloaded? && download.data != [])
      && (|e.parts| == 2 ==> e.parts[1].payload == download.data)
  {
  }

  /** Example: "hello" from Ana, with no last name and no username. */
  lemma TextFromAna(toEmail: string, id: int)
    ensures var m := Message(id, Some("hello"), None, false, None, None);
      var ana := Sender(User(Some("Ana"), None, None));
      Relay(toEmail, m, ana, NothingDownloaded)
        == Ok(Email(toEmail, toEmail, TextSubject, [PlainText("From: 用户: Ana\n\nhello")]))
  {
    var u := User(Some("Ana"), None, None);
    assert UserLabel(u) == UserPrefix + "Ana";
    assert Body(UserLabel(u), Some("hello")) == "From: 用户: Ana\n\nhello";
  }

  /**
   * Example: a document of message 42 whose last attribute has an empty file
   * name is sent as `file_42`, whatever the download gave, unless it raised.
   */
  lemma UnnamedDocument(lookup: SenderLookup, download: Download)
    ensures var m := Message(42, None, None, false, Some(Media([FileNameAttribute("")])), None);
      if download.DownloadRaised? then Handle(m, lookup, download) == Err(DownloadFailed)
      else Handle(m, lookup, download).Ok? && Handle(m, lookup, download).value.filename == Some("file_42")
  {
    assert NatToString(4) == "4";
    assert NatToString(42) == NatToString(4) + [DigitChar(2)] == "42";
    assert ToString(42) == "42";
    assert DefaultFileName(DocumentKind, 42) == "file_42";
    assert FileNameOr([FileNameAttribute("")], "file_42") == Ok("file_42");
  }
}
