/** The Telegram Bot API client: channel normalisation, image pre-flight
    checks, request construction for `sendMessage` and `sendPhoto`, and the
    interpretation of the platform's reply. The HTTP session is replaced by a
    `respond` function from the request sent to the (already decoded)
    response received. */
module Client {
  import opened Wrappers
  import opened Text
  import opened Decimal
  import opened StringOrder
  import opened Paths

  const BaseUrl := "https://api.telegram.org/bot"
  const PublicHost := "https://t.me/"
  const SupportedImageTypes: set<string> := {".jpg", ".jpeg", ".png", ".gif", ".webp"}
  /** 10 MiB; a file of exactly this many bytes is still accepted. */
  const MaxImageSize: nat := 10 * 1024 * 1024

  /** The outcome of a successful post. */
  datatype PostResult = PostResult(messageId: int, url: string)

  // ---------------------------------------------------------------- channels

  predicate StartsWithAt(s: string) {
    |s| > 0 && s[0] == '@'
  }

  /** `normalize_channel`: the canonical `@name` form. The input survives
      intact at the end of the result, behind at most one added '@'. */
  function NormalizeChannel(channel: string): (r: string)
    ensures StartsWithAt(r)
    ensures |channel| <= |r| <= |channel| + 1 && r[|r| - |channel|..] == channel
    ensures StartsWithAt(channel) <==> r == channel
  {
    if StartsWithAt(channel) then channel else "@" + channel
  }

  /** Normalising an already normalised channel changes nothing. */
  lemma NormalizeIdempotent(channel: string)
    ensures NormalizeChannel(NormalizeChannel(channel)) == NormalizeChannel(channel)
  {
  }

  lemma NormalizeExamples()
    ensures NormalizeChannel("myChannel") == "@myChannel"
    ensures NormalizeChannel("@myChannel") == "@myChannel"
    ensures NormalizeChannel("12345") == "@12345"
  {
  }

  // -------------------------------------------------------------------- URLs

  /** Python's `s[1:]`, which is empty for an empty string. */
  function DropFirst(s: string): (r: string)
    ensures |s| > 0 ==> r == s[1..]
    ensures |s| == 0 ==> r == ""
  {
    if |s| == 0 then "" else s[1..]
  }

  /** `_build_url`: the public link of message `messageId` in `chatId`. The
      link determines both the channel name (without its first character,
      normally the '@') and the message id. */
  function BuildUrl(chatId: string, messageId: int): (url: string)
    ensures ParseUrl(url) == Some((DropFirst(chatId), messageId))
  {
    SplitAfterHost(PublicHost, DropFirst(chatId), IntToString(messageId));
    PathRoundTrip(DropFirst(chatId), messageId);
    PublicHost + DropFirst(chatId) + "/" + IntToString(messageId)
  }

  lemma SplitAfterHost(host: string, name: string, id: string)
    ensures var url := host + name + "/" + id;
      url[..|host|] == host && url[|host|..] == name + "/" + id
  {
  }

  /** Splits a public link back into the channel name and the message id. */
  function ParseUrl(url: string): Option<(string, int)> {
    if |url| < |PublicHost| || url[..|PublicHost|] != PublicHost then None
    else ParsePath(url[|PublicHost|..])
  }

  /** Splits `name/id` at its last '/'. */
  function ParsePath(path: string): Option<(string, int)> {
    var i := RFind(path, '/');
    if i < 0 then None
    else match ParseInt(path[i + 1..])
      case None => None
      case Some(id) => Some((path[..i], id))
  }

  lemma PathRoundTrip(name: string, messageId: int)
    ensures ParsePath(name + "/" + IntToString(messageId)) == Some((name, messageId))
  {
    var id := IntToString(messageId);
    var path := name + "/" + id;
    assert path == name + ['/'] + id;
    RFindSeparator(name, '/', id);
    assert path[|name| + 1..] == id;
    assert path[..|name|] == name;
    IntToStringRoundTrip(messageId);
  }

  /** A link that parses is the one `_build_url` writes for its parts: no
      other text, such as a zero-padded id, reads back the same. */
  lemma ParseUrlCanonical(url: string, name: string, messageId: int)
    requires ParseUrl(url) == Some((name, messageId))
    ensures url == PublicHost + name + "/" + IntToString(messageId)
  {
    ParsePathCanonical(url[|PublicHost|..], name, messageId);
    PrefixThenPath(url, PublicHost, name, IntToString(messageId));
  }

  lemma PrefixThenPath(url: string, host: string, name: string, id: string)
    requires |host| <= |url| && url[..|host|] == host
    requires url[|host|..] == name + "/" + id
    ensures url == host + name + "/" + id
  {
    assert url == url[..|host|] + url[|host|..];
  }

  lemma ParsePathCanonical(path: string, name: string, messageId: int)
    requires ParsePath(path) == Some((name, messageId))
    ensures path == name + "/" + IntToString(messageId)
  {
    var i := RFind(path, '/');
    ParseIntCanonical(path[i + 1..], messageId);
    assert path == path[..i] + "/" + path[i + 1..];
  }

  /** The link of a post to a user-supplied channel drops exactly one
      leading '@' of what the user typed, and none if there was none. */
  lemma UrlOfUserChannel(channel: string, messageId: int)
    ensures BuildUrl(NormalizeChannel(channel), messageId)
            == PublicHost + (if StartsWithAt(channel) then channel[1..] else channel)
               + "/" + IntToString(messageId)
  {
    if !StartsWithAt(channel) {
      assert ("@" + channel)[1..] == channel;
    }
  }

  lemma UrlExample()
    ensures BuildUrl("@mychannel", 42) == "https://t.me/mychannel/42"
  {
    FortyTwo();
    UrlOfParts("@mychannel", 42, "42");
    assert PublicHost + "mychannel" + "/" + "42" == "https://t.me/mychannel/42";
  }

  /** `str(42)` is "42". */
  lemma FortyTwo()
    ensures IntToString(42) == "42"
  {
    assert NatToString(42) == NatToString(4) + [DigitChar(2)];
  }

  /** A link is the host, the channel without its first character, '/'
      and the id's text. */
  lemma UrlOfParts(chatId: string, messageId: int, id: string)
    requires |chatId| > 0 && IntToString(messageId) == id
    ensures BuildUrl(chatId, messageId) == PublicHost + chatId[1..] + "/" + id
  {
  }

  // ------------------------------------------------------------------ images

  datatype ImageFile = ImageFile(path: string, size: nat)

  datatype ImageError =
    | UnsupportedFormat(suffix: string)
    | TooLarge(size: nat)
  {
    /** The text of the `ValueError` the check raises. A format error names
        the suffix and lists the supported ones in sorted order; a size error
        gives the size in MiB to one decimal and the 10 MB limit. */
    function Message(): (m: string)
      ensures UnsupportedFormat? ==>
                m == "Unsupported image format '" + suffix + "'. Supported: "
                     + ".gif, .jpeg, .jpg, .png, .webp"
      ensures TooLarge? ==>
                m == "Image too large (" + OneDecimal(TenthsOfMiB(size)) + " MB). Maximum: "
                     + "10" + " MB"
    {
      match this
      case UnsupportedFormat(suffix) =>
        JoinSupportedListing();
        "Unsupported image format '" + suffix + "'. Supported: " + Join(SupportedListing, ", ")
      case TooLarge(size) =>
        MaximumInMiB();
        "Image too large (" + OneDecimal(TenthsOfMiB(size)) + " MB). Maximum: "
        + IntToString(MaxImageSize / (1024 * 1024)) + " MB"
    }
  }

  /** `f"{size / 1024 / 1024:.1f}"` counts tenths of a MiB: the quotient is
      exact in binary floating point, and formatting rounds it to the nearest
      tenth, a tie going to the even neighbour. */
  function TenthsOfMiB(size: nat): (q: nat)
    ensures -524288 <= q * 1048576 - size * 10 <= 524288
    ensures q * 1048576 - size * 10 == 524288 || q * 1048576 - size * 10 == -524288
            ==> q % 2 == 0
  {
    var q, rem := size * 10 / 1048576, size * 10 % 1048576;
    if rem > 524288 || (rem == 524288 && q % 2 == 1) then q + 1 else q
  }

  /** A count of tenths written with one decimal place, as `:.1f` does: the
      whole part reads back as `tenths / 10` and the one digit after the
      point is `tenths % 10`. */
  function OneDecimal(tenths: nat): (s: string)
    ensures |s| >= 3 && s[|s| - 2] == '.' && IsDigit(s[|s| - 1])
    ensures ParseInt(s[..|s| - 2]) == Some(tenths / 10)
    ensures s[|s| - 1] as int - '0' as int == tenths % 10
  {
    var whole := IntToString(tenths / 10);
    var s := whole + "." + [DigitChar(tenths % 10)];
    assert s[..|s| - 2] == whole;
    IntToStringRoundTrip(tenths / 10);
    s
  }

  /** `_MAX_IMAGE_SIZE / 1024 / 1024:.0f` is "10". */
  lemma MaximumInMiB()
    ensures IntToString(MaxImageSize / (1024 * 1024)) == "10"
  {
    assert MaxImageSize / (1024 * 1024) == 10;
    assert NatToString(1) == "1";
    assert NatToString(10) == NatToString(1) + [DigitChar(0)];
  }

  /** `sorted(_SUPPORTED_IMAGE_TYPES)`. */
  const SupportedListing: seq<string> := [".gif", ".jpeg", ".jpg", ".png", ".webp"]

  /** The listing above is the sorted listing of the supported set; by
      `SortedListingUnique` it is the only one. */
  lemma SupportedListingIsSorted()
    ensures SortedListing(SupportedImageTypes, SupportedListing)
  {
    assert Less(".gif", ".jpeg");
    assert Less(".jpeg", ".jpg");
    assert Less(".jpg", ".png");
    assert Less(".png", ".webp");
    assert Elements(SupportedListing) == SupportedImageTypes;
  }

  /** The unsupported-format message names the rejected suffix and lists the
      supported suffixes joined in sorted order, whichever sorted listing of
      the set one starts from. */
  lemma FormatErrorMessageListsSortedTypes(suffix: string, listing: seq<string>)
    requires SortedListing(SupportedImageTypes, listing)
    ensures UnsupportedFormat(suffix).Message()
            == "Unsupported image format '" + suffix + "'. Supported: " + Join(listing, ", ")
  {
    SupportedListingIsSorted();
    SortedListingUnique(SupportedImageTypes, listing, SupportedListing);
    JoinSupportedListing();
  }

  /** The supported suffixes joined with ", ", built up from the last two. */
  lemma JoinSupportedListing()
    ensures Join(SupportedListing, ", ") == ".gif, .jpeg, .jpg, .png, .webp"
  {
    JoinFromJpeg();
    JoinCons(".gif", [".jpeg", ".jpg", ".png", ".webp"], ", ");
    assert [".gif"] + [".jpeg", ".jpg", ".png", ".webp"] == SupportedListing;
  }

  lemma JoinFromJpeg()
    ensures Join([".jpeg", ".jpg", ".png", ".webp"], ", ") == ".jpeg, .jpg, .png, .webp"
  {
    JoinFromJpg();
    JoinCons(".jpeg", [".jpg", ".png", ".webp"], ", ");
    assert [".jpeg"] + [".jpg", ".png", ".webp"] == [".jpeg", ".jpg", ".png", ".webp"];
  }

  lemma JoinFromJpg()
    ensures Join([".jpg", ".png", ".webp"], ", ") == ".jpg, .png, .webp"
  {
    JoinCons(".png", [".webp"], ", ");
    assert [".png"] + [".webp"] == [".png", ".webp"];
    JoinCons(".jpg", [".png", ".webp"], ", ");
    assert [".jpg"] + [".png", ".webp"] == [".jpg", ".png", ".webp"];
  }

  /** `_validate_image`: the lower-cased suffix must be supported, and only
      then is the size compared with the inclusive limit. */
  function ValidateImage(image: ImageFile): (r: Outcome<ImageError>)
    ensures r.Pass? <==> Lower(PathSuffix(image.path)) in SupportedImageTypes
                         && image.size <= MaxImageSize
    ensures r.Fail? && r.error.UnsupportedFormat? ==>
              r.error.suffix == Lower(PathSuffix(image.path))
    ensures r.Fail? && r.error.TooLarge? ==> r.error.size == image.size
  {
    var suffix := Lower(PathSuffix(image.path));
    if suffix !in SupportedImageTypes then Fail(UnsupportedFormat(suffix))
    else if image.size > MaxImageSize then Fail(TooLarge(image.size))
    else Pass
  }

  /** The format is checked first: a bad suffix is reported as such whatever
      the size, and a size error implies the suffix was acceptable. */
  lemma FormatCheckedBeforeSize(image: ImageFile)
    ensures Lower(PathSuffix(image.path)) !in SupportedImageTypes ==>
              ValidateImage(image) == Fail(UnsupportedFormat(Lower(PathSuffix(image.path))))
    ensures ValidateImage(image) == Fail(TooLarge(image.size)) <==>
              Lower(PathSuffix(image.path)) in SupportedImageTypes && image.size > MaxImageSize
  {
  }

  /** The final component of `dir/file` is `file`. */
  lemma NameOfJoinedPath(dir: string, file: string)
    requires '/' !in file
    ensures Name(dir + "/" + file) == file
  {
    var path := dir + "/" + file;
    assert path == dir + ['/'] + file;
    RFindSeparator(dir, '/', file);
    assert path[|dir| + 1..] == file;
  }

  /** The suffix of `stem.ext` is `.ext` when the extension is non-empty
      and has no dot of its own, whatever dots the non-empty stem holds. */
  lemma SuffixOfStemAndExtension(stem: string, ext: string)
    requires |stem| > 0 && |ext| > 0 && '.' !in ext
    ensures Suffix(stem + "." + ext) == "." + ext
  {
    var name := stem + "." + ext;
    assert name == stem + ['.'] + ext;
    RFindSeparator(stem, '.', ext);
    assert name[|stem|..] == "." + ext;
  }

  lemma LowerCaseFacts()
    ensures Lower(".bmp") == ".bmp" && ".bmp" !in SupportedImageTypes
    ensures Lower(".JPG") == ".jpg" && ".jpg" in SupportedImageTypes
    ensures Lower("") == "" && "" !in SupportedImageTypes
  {
  }

  /** The size limit is inclusive: with a supported suffix, 10485760 bytes
      pass and one byte more is too large. */
  lemma SizeBoundary(path: string)
    requires Lower(PathSuffix(path)) in SupportedImageTypes
    ensures ValidateImage(ImageFile(path, 10485760)) == Pass
    ensures ValidateImage(ImageFile(path, 10485761)) == Fail(TooLarge(10485761))
  {
  }

  /** A `.bmp` file is rejected for its format, whatever its size. */
  lemma BmpRejected(dir: string, stem: string, size: nat)
    requires '/' !in stem && |stem| > 0
    ensures ValidateImage(ImageFile(dir + "/" + stem + ".bmp", size))
            == Fail(UnsupportedFormat(".bmp"))
  {
    var path := dir + "/" + stem + ".bmp";
    var name := stem + "." + "bmp";
    assert path == dir + "/" + name;
    NameOfJoinedPath(dir, name);
    SuffixOfStemAndExtension(stem, "bmp");
    LowerCaseFacts();
  }

  /** The suffix comparison ignores case: paths whose suffixes differ only
      in case get the same verdict. */
  lemma SuffixCaseIgnored(path1: string, path2: string, size: nat)
    requires Lower(PathSuffix(path1)) == Lower(PathSuffix(path2))
    ensures ValidateImage(ImageFile(path1, size)).Pass?
            <==> ValidateImage(ImageFile(path2, size)).Pass?
  {
  }

  /** An upper-case `.JPG` file within the limit is accepted. */
  lemma UpperCaseJpgAccepted(dir: string, stem: string, size: nat)
    requires '/' !in stem && |stem| > 0 && size <= MaxImageSize
    ensures ValidateImage(ImageFile(dir + "/" + stem + ".JPG", size)) == Pass
  {
    var path := dir + "/" + stem + ".JPG";
    var name := stem + "." + "JPG";
    assert path == dir + "/" + name;
    NameOfJoinedPath(dir, name);
    SuffixOfStemAndExtension(stem, "JPG");
    LowerCaseFacts();
  }

  /** A hidden file such as `.png` has no suffix and is rejected. */
  lemma HiddenFileRejected(dir: string, size: nat)
    ensures ValidateImage(ImageFile(dir + "/" + ".png", size)) == Fail(UnsupportedFormat(""))
  {
    var name := ".png";
    assert Suffix(name) == "" by {
      assert name == [] + ['.'] + "png";
      RFindSeparator([], '.', "png");
    }
    NameOfJoinedPath(dir, name);
    LowerCaseFacts();
  }

  // ---------------------------------------------------------------- requests

  /** What the client hands to the HTTP session: a JSON body, or form fields
      plus file fields (field name to the path of the file streamed). */
  datatype Request =
    | JsonPost(url: string, json: map<string, string>)
    | MultipartPost(url: string, data: map<string, string>, files: map<string, string>)

  /** The session's reply with its JSON already decoded: `resp.ok`,
      `resp.status_code`, `resp.text` and `resp.json()["result"]["message_id"]`. */
  datatype Response = Response(ok: bool, status: int, text: string, messageId: int)

  datatype ClientError =
    | InvalidImage(reason: ImageError)   // ValueError from the pre-flight check
    | HttpError(status: int, body: string)  // requests.HTTPError for a non-ok reply
  {
    /** `str(exc)`. An HTTP error reads "<status>: <body>", from which the
        status code and the body can be read back verbatim. */
    function Message(): (m: string)
      ensures InvalidImage? ==> m == reason.Message()
      ensures HttpError? ==> ParseErrorMessage(m) == Some((status, body))
    {
      match this
      case InvalidImage(reason) => reason.Message()
      case HttpError(status, body) =>
        ErrorMessageRoundTrip(status, body);
        IntToString(status) + ": " + body
    }
  }

  /** Reads the status code and body back out of an error message. */
  function ParseErrorMessage(msg: string): Option<(int, string)> {
    var i := Find(msg, ':');
    if i < 0 || i + 1 >= |msg| || msg[i + 1] != ' ' then None
    else match ParseInt(msg[..i])
      case None => None
      case Some(status) => Some((status, msg[i + 2..]))
  }

  /** "<status>: <body>" exposes the status code and the body verbatim,
      whatever colons the body holds. */
  lemma ErrorMessageRoundTrip(status: int, body: string)
    ensures ParseErrorMessage(IntToString(status) + ": " + body) == Some((status, body))
  {
    var code := IntToString(status);
    var msg := code + ": " + body;
    assert msg[|code|] == ':';
    assert msg[..|code|] == code;
    assert Find(msg, ':') == |code|;
    assert msg[|code| + 2..] == body;
    IntToStringRoundTrip(status);
  }

  /** An error message that parses is exactly "<status>: <body>" for the
      status and body it yields. */
  lemma ErrorMessageCanonical(msg: string, status: int, body: string)
    requires ParseErrorMessage(msg) == Some((status, body))
    ensures msg == IntToString(status) + ": " + body
  {
    var i := Find(msg, ':');
    ParseIntCanonical(msg[..i], status);
    assert msg == msg[..i] + ": " + msg[i + 2..];
  }

  /** One call of the client: the request it issued, if any, and what it
      returned or raised. */
  datatype Exchange = Exchange(request: Option<Request>, result: Result<PostResult, ClientError>)

  /** `TelegramClient`: the only state that matters is the API base URL. */
  datatype TelegramClient = TelegramClient(apiUrl: string)

  function NewClient(botToken: string): (c: TelegramClient)
    ensures |c.apiUrl| == |BaseUrl| + |botToken|
    ensures c.apiUrl[..|BaseUrl|] == BaseUrl && c.apiUrl[|BaseUrl|..] == botToken
  {
    TelegramClient(BaseUrl + botToken)
  }

  /** Two tokens give the same client exactly when they are the same token. */
  lemma TokenDeterminesClient(token1: string, token2: string)
    ensures NewClient(token1) == NewClient(token2) <==> token1 == token2
  {
    var c1, c2 := NewClient(token1), NewClient(token2);
    assert c1 == c2 ==> c1.apiUrl[|BaseUrl|..] == c2.apiUrl[|BaseUrl|..];
  }

  /** The URL of an API method: the client's URL, then '/' and the method
      name, which is the URL's last path component. */
  function Endpoint(client: TelegramClient, apiMethod: string): (url: string)
    ensures |url| > |client.apiUrl| && url[..|client.apiUrl|] == client.apiUrl
    ensures '/' !in apiMethod ==> Name(url) == apiMethod
  {
    var url := client.apiUrl + "/" + apiMethod;
    assert url[..|client.apiUrl|] == client.apiUrl;
    if '/' in apiMethod then url
    else
      NameOfJoinedPath(client.apiUrl, apiMethod);
      url
  }

  lemma EndpointOfToken(botToken: string, apiMethod: string)
    ensures Endpoint(NewClient(botToken), apiMethod) == BaseUrl + botToken + "/" + apiMethod
  {
    var u := BaseUrl + botToken;
    assert u + "/" + apiMethod == u + ("/" + apiMethod);
  }

  function Lookup(m: map<string, string>, key: string): Option<string> {
    if key in m then Some(m[key]) else None
  }

  /** The keys an optional argument contributes. */
  function OptionalKey(key: string, value: Option<string>): set<string> {
    if value.Some? then {key} else {}
  }

  /** `if value is not None: m[key] = value`. */
  function WithOptional(m: map<string, string>, key: string, value: Option<string>)
    : (r: map<string, string>)
    ensures r.Keys == m.Keys + OptionalKey(key, value)
    ensures Lookup(r, key) == (if value.Some? then value else Lookup(m, key))
    ensures forall k :: k in m && k != key ==> k in r && r[k] == m[k]
  {
    if value.Some? then m[key := value.value] else m
  }

  /** The JSON body of `sendMessage`. Reading a key back yields the argument
      it came from, so a missing parse mode is an absent key, never a null. */
  function MessageBody(chatId: string, text: string, parseMode: Option<string>)
    : (b: map<string, string>)
    ensures b.Keys == {"chat_id", "text"} + OptionalKey("parse_mode", parseMode)
    ensures Lookup(b, "chat_id") == Some(chatId)
    ensures Lookup(b, "text") == Some(text)
    ensures Lookup(b, "parse_mode") == parseMode
  {
    WithOptional(map["chat_id" := chatId, "text" := text], "parse_mode", parseMode)
  }

  /** The form fields of `sendPhoto`; the photo travels in a separate file
      field, never among these. */
  function PhotoForm(chatId: string, caption: Option<string>, parseMode: Option<string>)
    : (d: map<string, string>)
    ensures d.Keys == {"chat_id"} + OptionalKey("caption", caption)
                      + OptionalKey("parse_mode", parseMode)
    ensures "photo" !in d
    ensures Lookup(d, "chat_id") == Some(chatId)
    ensures Lookup(d, "caption") == caption
    ensures Lookup(d, "parse_mode") == parseMode
  {
    WithOptional(WithOptional(map["chat_id" := chatId], "caption", caption),
                 "parse_mode", parseMode)
  }

  /** The reply handling both operations share. */
  function Interpret(chatId: string, resp: Response): (r: Result<PostResult, ClientError>)
    ensures r.Success? <==> resp.ok
    ensures r.Failure? ==> r.error == HttpError(resp.status, resp.text)
    ensures r.Success? ==> r.value.messageId == resp.messageId
                           && r.value.url == BuildUrl(chatId, resp.messageId)
  {
    if !resp.ok then Failure(HttpError(resp.status, resp.text))
    else Success(PostResult(resp.messageId, BuildUrl(chatId, resp.messageId)))
  }

  /** `TelegramClient.send_message`: always one JSON post to the client's
      `sendMessage` endpoint carrying the chat id, the text and the parse
      mode if given. The reply decides the result: a non-ok reply is an HTTP
      error that reports its status and body, an ok one gives the new
      message's id and a link that leads back to the chat and that id. */
  function SendMessage(client: TelegramClient, chatId: string, text: string,
                       parseMode: Option<string>, respond: Request -> Response)
    : (x: Exchange)
    ensures x.request.Some? && x.request.value.JsonPost?
    ensures x.request.value.url == Endpoint(client, "sendMessage")
    ensures x.request.value.json.Keys == {"chat_id", "text"} + OptionalKey("parse_mode", parseMode)
    ensures Lookup(x.request.value.json, "chat_id") == Some(chatId)
    ensures Lookup(x.request.value.json, "text") == Some(text)
    ensures Lookup(x.request.value.json, "parse_mode") == parseMode
    ensures var resp := respond(x.request.value);
      && (x.result.Success? <==> resp.ok)
      && (!resp.ok ==> x.result.error.HttpError?
                       && ParseErrorMessage(x.result.error.Message()) == Some((resp.status, resp.text)))
      && (resp.ok ==> x.result.value.messageId == resp.messageId
                      && ParseUrl(x.result.value.url) == Some((DropFirst(chatId), resp.messageId)))
  {
    var request := JsonPost(Endpoint(client, "sendMessage"), MessageBody(chatId, text, parseMode));
    Exchange(Some(request), Interpret(chatId, respond(request)))
  }

  /** `TelegramClient.send_photo`: an image that fails the pre-flight check
      is reported with the check's error and nothing is sent; otherwise one
      multipart post to the client's `sendPhoto` endpoint with the file in
      the `photo` field and the chat id, caption and parse mode as form
      fields, whose reply decides the result as for `send_message`. */
  function SendPhoto(client: TelegramClient, chatId: string, image: ImageFile,
                     caption: Option<string>, parseMode: Option<string>,
                     respond: Request -> Response)
    : (x: Exchange)
    ensures x.request.None? <==> ValidateImage(image).Fail?
    ensures x.request.None? ==> x.result == Failure(InvalidImage(ValidateImage(image).error))
    ensures x.request.Some? ==>
              && x.request.value.MultipartPost?
              && x.request.value.url == Endpoint(client, "sendPhoto")
              && x.request.value.files == map["photo" := image.path]
              && x.request.value.data.Keys == {"chat_id"} + OptionalKey("caption", caption)
                                              + OptionalKey("parse_mode", parseMode)
              && Lookup(x.request.value.data, "chat_id") == Some(chatId)
              && Lookup(x.request.value.data, "caption") == caption
              && Lookup(x.request.value.data, "parse_mode") == parseMode
    ensures x.request.Some? ==>
              var resp := respond(x.request.value);
              && (x.result.Success? <==> resp.ok)
              && (!resp.ok ==> x.result.error.HttpError?
                               && ParseErrorMessage(x.result.error.Message())
                                  == Some((resp.status, resp.text)))
              && (resp.ok ==> x.result.value.messageId == resp.messageId
                              && ParseUrl(x.result.value.url)
                                 == Some((DropFirst(chatId), resp.messageId)))
  {
    match ValidateImage(image)
    case Fail(e) => Exchange(None, Failure(InvalidImage(e)))
    case Pass =>
      var request := MultipartPost(Endpoint(client, "sendPhoto"),
                                   PhotoForm(chatId, caption, parseMode),
                                   map["photo" := image.path]);
      Exchange(Some(request), Interpret(chatId, respond(request)))
  }

  /** What `send_message` does for a client built from `botToken`, end to
      end: the URL it posts to, the keys of its body, and the result or error
      it derives from the reply. */
  lemma SendMessageContract(botToken: string, chatId: string, text: string,
                            parseMode: Option<string>, respond: Request -> Response)
    ensures var x := SendMessage(NewClient(botToken), chatId, text, parseMode, respond);
      && x.request.Some? && x.request.value.JsonPost?
      && x.request.value.url == BaseUrl + botToken + "/" + "sendMessage"
      && x.request.value.json.Keys == {"chat_id", "text"} + OptionalKey("parse_mode", parseMode)
      && var resp := respond(x.request.value);
      && (!resp.ok ==> x.result.Failure? && x.result.error.Message()
                         == IntToString(resp.status) + ": " + resp.text)
      && (resp.ok ==> x.result == Success(PostResult(resp.messageId,
                                     PublicHost + DropFirst(chatId) + "/" + IntToString(resp.messageId))))
  {
  }

  /** `send_photo` issues no request exactly when the image fails the
      pre-flight check, and then fails with that check's error. */
  lemma SendPhotoRejectsBeforeUpload(client: TelegramClient, chatId: string, image: ImageFile,
                                     caption: Option<string>, parseMode: Option<string>,
                                     respond: Request -> Response)
    ensures var x := SendPhoto(client, chatId, image, caption, parseMode, respond);
      && (x.request.None? <==> !(Lower(PathSuffix(image.path)) in SupportedImageTypes
                                 && image.size <= MaxImageSize))
      && (x.request.None? ==> x.result.Failure? && x.result.error.InvalidImage?)
  {
  }

  /** What `send_photo` does with an acceptable image, for a client built
      from `botToken`: the URL, the form fields, the file field, and the
      result or error it derives from the reply. */
  lemma SendPhotoContract(botToken: string, chatId: string, image: ImageFile,
                          caption: Option<string>, parseMode: Option<string>,
                          respond: Request -> Response)
    requires ValidateImage(image).Pass?
    ensures var x := SendPhoto(NewClient(botToken), chatId, image, caption, parseMode, respond);
      && x.request.Some? && x.request.value.MultipartPost?
      && x.request.value.url == BaseUrl + botToken + "/" + "sendPhoto"
      && x.request.value.files == map["photo" := image.path]
      && x.request.value.data.Keys == {"chat_id"} + OptionalKey("caption", caption)
                                      + OptionalKey("parse_mode", parseMode)
      && var resp := respond(x.request.value);
      && (!resp.ok ==> x.result.Failure? && x.result.error.Message()
                         == IntToString(resp.status) + ": " + resp.text)
      && (resp.ok ==> x.result == Success(PostResult(resp.messageId,
                                   PublicHost + DropFirst(chatId) + "/"
                                   + IntToString(resp.messageId))))
  {
    var client := NewClient(botToken);
    var x := SendPhoto(client, chatId, image, caption, parseMode, respond);
    EndpointOfToken(botToken, "sendPhoto");
    var resp := respond(x.request.value);
    assert x.result == Interpret(chatId, resp);
  }

  /** A `PostResult` only ever comes from a request that was sent and
      answered with an ok reply, and it carries that reply's message id. */
  lemma PostResultOnlyFromOkReply(x: Exchange, client: TelegramClient, chatId: string,
                                  text: string, image: ImageFile, caption: Option<string>,
                                  parseMode: Option<string>, respond: Request -> Response)
    requires x == SendMessage(client, chatId, text, parseMode, respond)
          || x == SendPhoto(client, chatId, image, caption, parseMode, respond)
    ensures x.result.Success? ==>
              && x.request.Some?
              && respond(x.request.value).ok
              && x.result.value.messageId == respond(x.request.value).messageId
    ensures x.request.Some? && !respond(x.request.value).ok ==>
              x.result == Failure(HttpError(respond(x.request.value).status,
                                            respond(x.request.value).text))
  {
  }
}
