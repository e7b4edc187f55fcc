# telegram_forwarder — a Dafny model of the relay logic

`src/telegram_to_email.py` relays new messages from a set of Telegram chats to
one mailbox. A Telethon user client listens to the chats. For each message it
builds an email and pipes it to `msmtp -t`. Almost all of the file is glue
around those two external programs. This project models the deterministic
logic in between, and proves what it promises:

- **Configuration** (`config.dfy`, module `Config`). This covers `get_env_var`
  and the start-up block that reads `API_ID`, `API_HASH`, `SESSION_NAME`,
  `TARGET_CHAT_IDS` and `TO_EMAIL`. The environment is a `map<string, string>`.
  The `sys.exit(1)` paths become `Err(Unset(name))` (variable not set) and
  `Err(Malformed(literal))` (`int()` raised `ValueError`). The comprehension
  `[int(x.strip()) for x in value.split(',')]` is the generic `MapOrFail`. It
  yields the values in order, or the error of the first piece that fails.
- **Python string and integer primitives** (`pystr.dfy`, `decimal.dfy`).
  These are `str.strip()`, `str.split(',')` with its inverse `','.join`,
  `int()` restricted to sign and ASCII digits, and `str()` of an `int` (used
  by the f-strings that build filenames).
- **Mail dispatch** (`mail.dfy`, module `Mail`). `send_email` fills a
  `MIMEMultipart` object in place. That object is the class `MimeMessage`.
  Assigning a header appends it to `headers`, and `attach` appends to
  `parts`. `BuildMessage` performs the same assignments and attaches as
  `send_email`. It is proved to produce the headers and parts of the pure
  `Envelope`, and `Envelope`'s properties are proved as lemmas.
- **Message handler** (`handler.dfy`, module `Handler`). This covers the
  sender label, the body, the `if`/`elif` classification into
  photo/document/video/text/other, the subject, the attachment data and the
  filename. `Handle` gives the `send_email` arguments, or the exception that
  ends the handler before anything is sent. `Relay` chains `Handle` and
  `Envelope`. The awaited library calls are inputs. `SenderLookup` says what
  the `try` block around `get_sender()` found, or that something in it raised.
  `Download` says what `download_media` returned, or that it raised.

### Behaviour worth knowing

- Only photo, document and video messages fetch media (lines 118-129).
  There is no separate branch for voice or audio messages.
- `download_media` is not inside a `try` (lines 120, 124, 128). If it raises,
  the exception escapes the handler and no email at all is sent
  (`Err(DownloadFailed)`).
- The attachment part is added when the attachment data is truthy, whatever
  the filename is (line 55).
- The document and video filename is `attributes[-1].file_name or default`.
  An empty name falls back to the default. An empty attribute list raises
  `IndexError`. A last attribute without `file_name` raises `AttributeError`.
  Both end the handler without an email. The default `file_<id>` or
  `video_<id>.mp4` is used only when the last attribute has an empty name.
- A malformed integer makes `int()` raise `ValueError`. Its message quotes
  the literal, not the variable name. For a list, the literal is the first
  bad piece, already stripped (lines 20, 23, 40-42).
- `int()` skips less whitespace than `strip()` removes. The ASCII
  separators U+001C to U+001F count as whitespace for `strip()`, but `int()`
  does not skip them. So `API_ID` set to `"\x1c5"` stops start-up, while the
  same text as a `TARGET_CHAT_IDS` piece is stripped first and reads as 5.
- `f"用户: {sender.first_name}"` prints `None` when the first name is `None`.
  The last name and username are added only when truthy (lines 97-101).

## Model

| member | source | states |
|---|---|---|
| `PyStr.Strip` | src/telegram_to_email.py:23 | `x.strip()` removes the `isspace()` characters at both ends; its properties are the lemmas below, with the set of characters as a parameter (`int()` strips a smaller set) |
| `PyStr.TrimLeftIsSuffix` | src/telegram_to_email.py:23 | trimming the left keeps exactly the suffix after the leading run of stripped characters, and that suffix does not start with one |
| `PyStr.TrimRightIsPrefix` | src/telegram_to_email.py:23 | trimming the right keeps exactly the prefix before the trailing run of stripped characters, and that prefix does not end with one |
| `PyStr.StripIsCore` | src/telegram_to_email.py:23 | `x.strip()` is the slice of `x` left after cutting a run of stripped characters from each end, and it neither starts nor ends with one |
| `PyStr.StripPadded` | src/telegram_to_email.py:23 | stripped characters on both sides of a string whose own ends are not stripped are exactly what stripping removes |
| `PyStr.StripIdempotent` | src/telegram_to_email.py:23 | stripping twice equals stripping once |
| `PyStr.Split` | src/telegram_to_email.py:23 | `value.split(',')` has at least one piece (`""` gives `[""]`), no piece contains a comma, and joining the pieces with commas gives `value` back |
| `PyStr.SplitCount` | src/telegram_to_email.py:23 | the number of pieces is the number of commas plus one |
| `PyStr.SplitJoin` | src/telegram_to_email.py:23 | splitting a comma-join of comma-free pieces gives those pieces back (the other round trip) |
| `PyStr.JoinInjective` | src/telegram_to_email.py:23 | different lists of comma-free pieces never join to the same string |
| `Decimal.NatToString` | src/telegram_to_email.py:121-129 | `str()` of a natural number is a run of digits, with no leading zero, whose decimal value is the number |
| `Decimal.ToString` | src/telegram_to_email.py:121-129 | `str(id)` has no surrounding whitespace and is made of `-` and digits; it starts with `-` exactly when `id` is negative; the digits after the sign have no leading zero; `int()` reads it back as `id` |
| `Decimal.ParseInt` | src/telegram_to_email.py:20 | `int(s)`; its meaning is stated by `ParseIntExactly` |
| `Decimal.ParseIntExactly` | src/telegram_to_email.py:20 | `int(s)` gives `n` exactly when `s` is whitespace that `int()` skips, an optional sign (`-` whenever `n < 0`, and only if `n <= 0`), any leading zeros, the digits of `str(abs(n))`, and skipped whitespace |
| `Decimal.ParseIntPadded` | src/telegram_to_email.py:20 | `int()` reads `str(n)` surrounded by the whitespace it skips as `n` |
| `Decimal.SeparatorNotSkipped` | src/telegram_to_email.py:20-23 | an ASCII separator U+001C to U+001F before `str(n)` makes `int()` raise, though it is whitespace and `strip()` removes it so that the stripped text reads as `n` |
| `Config.MapOrFail` | src/telegram_to_email.py:23 | the comprehension succeeds exactly when every element succeeds, and then gives one result per element in order; otherwise its error is one of the elements' errors |
| `Config.MapOrFailFirstError` | src/telegram_to_email.py:23 | a failed comprehension reports the error of the first element that fails |
| `Config.ParseIntList` | src/telegram_to_email.py:21-23 | the list branch fails only with a `ValueError` on a literal |
| `Config.ParseIntListPieces` | src/telegram_to_email.py:21-23 | the list parses exactly when every comma-separated piece, stripped, is an integer; the result has one value per piece, in order |
| `Config.ParseIntListFirstError` | src/telegram_to_email.py:23 | a failing list reports the stripped text of the first piece that is not an integer |
| `Config.ParseIntListLength` | src/telegram_to_email.py:23 | a parsed list has one more entry than the value has commas |
| `Config.ParseIntListBlankPiece` | src/telegram_to_email.py:23 | an empty or blank piece (`""`, `"1,,2"`, `"1,"`) makes the list fail |
| `Config.ParseIntListJoin` | src/telegram_to_email.py:21-23 | comma-joined pieces that each strip to `str(id)` parse back to exactly those ids |
| `Config.JoinIds` | src/telegram_to_email.py:35 | writing ids as `"1,2,3"` gives a `TARGET_CHAT_IDS` value that parses back to those ids |
| `Config.SeparatorIntVersusList` | src/telegram_to_email.py:19-23 | a value made of a separator U+001C to U+001F followed by `str(n)` fails in the integer branch with `ValueError` on that value, but the list branch reads it as `[n]` |
| `Config.GetEnvVar` | src/telegram_to_email.py:13-24 | an unset variable is `Unset(name)` whatever the flags; `is_int` wins over `is_list`; the integer and list branches succeed exactly when the value parses and then return that value; otherwise the string is returned as is |
| `Config.LoadConfig` | src/telegram_to_email.py:26-42 | the configuration block; its meaning is stated by `LoadConfigError` and `LoadConfigSucceeds` |
| `Config.LoadConfigError` | src/telegram_to_email.py:26-42 | start-up fails exactly when one of the five reads fails, and it fails with the error of the first failing read, in source order |
| `Config.LoadConfigSucceeds` | src/telegram_to_email.py:26-42 | start-up succeeds exactly when all five variables are set, `API_ID` is an integer and `TARGET_CHAT_IDS` is an integer list; the configuration holds those values |
| `Mail.Envelope` | src/telegram_to_email.py:49-60 | From and To are both the configured address; the subject is passed through; the text part is always first; an attachment part follows exactly when the data is non-empty, whatever the filename, and it holds that data and filename |
| `Mail.EnvelopeCarries` | src/telegram_to_email.py:53-60 | two `send_email` calls build the same message exactly when they agree on subject, body and, if the data is non-empty, data and filename |
| `Mail.MimeMessage.constructor` | src/telegram_to_email.py:49 | a new message has no headers and no parts |
| `Mail.MimeMessage.Get` | src/telegram_to_email.py:50-52 | looking up a header finds a value exactly when a header of that name was assigned (`BuildMessage` states the values found) |
| `Mail.MimeMessage.SetHeader` | src/telegram_to_email.py:50-52 | assigning a header appends it and leaves the parts unchanged |
| `Mail.MimeMessage.Attach` | src/telegram_to_email.py:53 | `attach` appends a part and leaves the headers unchanged |
| `Mail.BuildMessage` | src/telegram_to_email.py:47-60 | the message built in place has exactly the headers From, To, Subject and the parts of `Envelope`, and `get` of each header gives the configured address or the subject |
| `Handler.UserLabel` | src/telegram_to_email.py:96-101 | the label of a user; its layout is stated by `UserLabelLayout` |
| `Handler.SenderLabel` | src/telegram_to_email.py:93-105 | the `sender_info` label; which branch chose it is stated by `LabelRevealsOrigin` |
| `Handler.UserLabelLayout` | src/telegram_to_email.py:96-101 | a user label is `用户: ` plus the first name, then ` last` only if the last name is truthy, then ` (@username)` only if the username is truthy, in that order and with nothing else |
| `Handler.LabelRevealsOrigin` | src/telegram_to_email.py:93-105 | a sender gives a `用户: ` label; no sender but a chat gives `来自群组/频道: ` plus the title; otherwise, or if the lookup raised, the label is `未知来源`; the branch can be read back from the label |
| `Handler.Body` | src/telegram_to_email.py:108-111 | `body_text`; its layout is stated by `BodyLayout` and `BodyDeterminesText` |
| `Handler.BodyLayout` | src/telegram_to_email.py:108-111 | the body is `From: ` + label + blank line, followed by the text if non-empty or `[无文本内容]` otherwise, so never empty after the header |
| `Handler.BodyDeterminesText` | src/telegram_to_email.py:108-111 | for a given label, the body determines the text shown |
| `Handler.Classify` | src/telegram_to_email.py:114-131 | the branch taken is, of the kinds the message exhibits, the one with the highest priority (photo, document, video, text); it is "other" exactly when none is exhibited |
| `Handler.Subject` | src/telegram_to_email.py:114-131 | the subject of each branch; `SubjectIdentifiesKind` states that they differ |
| `Handler.SubjectIdentifiesKind` | src/telegram_to_email.py:114-131 | the five subjects are pairwise distinct, so exactly one subject belongs to each branch |
| `Handler.LastFileName` | src/telegram_to_email.py:125-129 | `attributes[-1].file_name` succeeds exactly when the list is non-empty and the last attribute has a `file_name`, and it yields that name |
| `Handler.FileNameOr` | src/telegram_to_email.py:125-129 | `attributes[-1].file_name or default`; stated by `MediaFileName` and `HandleFailsWhen` |
| `Handler.DefaultFileName` | src/telegram_to_email.py:121-129 | `image_<id>.jpg`, `file_<id>`, `video_<id>.mp4`; stated by `DefaultFileNameHoldsId` |
| `Handler.DefaultFileNameHoldsId` | src/telegram_to_email.py:121-129 | each default filename is non-empty, starts with its kind's prefix (`image_`, `file_`, `video_`), ends with its suffix (`.jpg`, none, `.mp4`), and `int()` reads the message id back from what lies between |
| `Handler.Handle` | src/telegram_to_email.py:89-134 | the `send_email` arguments or the escaping exception; stated by the four lemmas that follow |
| `Handler.HandleSubjectAndBody` | src/telegram_to_email.py:108-134 | every email that is sent carries its branch's subject and a body made of the label header and the text or placeholder |
| `Handler.NonMediaSendsTextOnly` | src/telegram_to_email.py:114-131 | text and "other" messages always send, with no attachment data and no filename, whatever a download would have done |
| `Handler.HandleFailsWhen` | src/telegram_to_email.py:118-129 | the handler sends nothing exactly when a media branch is taken and either the download raises or, for a document or video, the last attribute is missing or has no `file_name`; a raising download gives `DownloadFailed` |
| `Handler.MediaFileName` | src/telegram_to_email.py:118-129 | a completed media branch passes on the downloaded data; its filename is non-empty: `image_<id>.jpg` for a photo, and for a document or video the non-empty last `file_name`, else `file_<id>` or `video_<id>.mp4` |
| `Handler.Relay` | src/telegram_to_email.py:47-60 | `Handle` followed by `send_email`'s message building; stated by `RelayAttachment` |
| `Handler.RelayAttachment` | src/telegram_to_email.py:118-134 | a sent email goes from and to the configured address, and it has an attachment part exactly when a media branch was taken and the download gave non-empty data; the part holds that data |
| `Handler.TextFromAna` | src/telegram_to_email.py:93-134 | "hello" from Ana, with no last name or username, gives one text part `From: 用户: Ana\n\nhello` under the text subject |
| `Handler.UnnamedDocument` | src/telegram_to_email.py:122-125 | a document of message 42 whose last attribute has an empty name is sent as `file_42` whatever the download gave; a raising download sends nothing |

## Left out

- The Telethon client, session handling, `@client.on` registration, `main`,
  `run_until_disconnected` and the asyncio loop are left out. They are
  foreign library calls and an event loop. `get_sender()` and
  `download_media()` are the inputs `SenderLookup` and `Download`.
- MIME serialisation (`as_bytes`), base64 transfer encoding, the headers
  that `MIMEMultipart` adds itself, and the text part's charset are left out.
  They live inside Python's `email` library. The model keeps the headers the
  handler assigns and the order of the parts.
- The `msmtp -t` subprocess, its exit status and its stderr (lines 62-75)
  are left out. This is process I/O whose result is only logged.
- All `print` logging is left out. The text of `sys.exit` messages is left
  out too. Exiting is the `Err` result of `LoadConfig`.
- Decimal.ParseInt: accepts only an optional sign followed by ASCII digits,
  with surrounding whitespace. Python's `int()` also accepts `_` between
  digits and non-ASCII decimal digits. The model rejects those.
- Decimal.ParseInt: does not model the limit on integer string conversion.
  By default Python's `int()` raises `ValueError` on a literal of more than
  4300 digits (`sys.set_int_max_str_digits`). The model reads any length, so
  such an `API_ID` value, or such a `TARGET_CHAT_IDS` piece, is accepted
  here although lines 20 and 23 raise on it.
- Decimal.ParseIntExactly: its spellings have no length bound. Those of more
  than 4300 digits are read by the model but rejected by `int()`, as above.
- Decimal.ParseIntPadded: holds in the model for every `n`. `int()` raises
  instead when `str(n)` has more than 4300 digits.
- Decimal.ToString: `str()` of an integer with more than 4300 digits raises
  `ValueError` in Python. The model writes it. `str()` is only applied to
  message ids (lines 121-129), which are far below that size.
- Handler.Handle: `LookupRaised` covers exceptions raised before line 97
  assigns the user label, as in the lookup itself or a sender without
  `first_name`. It also covers line 103, a chat without `title`. All of these
  leave the label at `未知来源`. An exception while reading `last_name` or
  `username` (lines 98-101) would keep `用户: <first name>`. That case is not
  modelled: a sender user object always has both attributes, possibly `None`.
- Header names are compared exactly in `Mail.MimeMessage.Get`. Python's
  `email` library compares them case-insensitively. Only the three names
  `send_email` assigns are ever looked up.
- Concurrency between handler invocations is not modelled. The handler
  shares no mutable state besides the read-only configuration.
