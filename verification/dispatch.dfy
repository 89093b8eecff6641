/** The part of `main()` that both command-line entry points share once a bot
    token is in hand: normalise the channel, check the image exists, resolve
    the text or caption, make one client call, and turn its result into the
    printed link or an exit status. Files and standard input are replaced by
    their contents, the HTTP session by a `respond` function. */
module Dispatch {
  import opened Wrappers
  import opened Text
  import opened Client

  /** The parsed command line (`--reset-keys` aside). */
  datatype Args = Args(
    text: Option<string>,      // positional message text
    fromFile: Option<string>,  // --from-file
    image: Option<string>,     // --image
    channel: string,           // --channel
    parseMode: Option<string>) // --parse-mode, passed through untouched

  /** What the program would read: the `--from-file` contents, standard
      input, and the size of the `--image` file (`None` when it does not
      exist). */
  datatype World = World(fromFileText: string, stdinText: string, imageSize: Option<nat>)

  /** Python truthiness of an optional string: present and non-empty. */
  predicate Given(s: Option<string>) {
    s.Some? && s.value != ""
  }

  /** `s or None`. */
  function NonEmpty(s: string): (r: Option<string>)
    ensures r.None? <==> s == ""
    ensures r.Some? ==> r.value == s
  {
    if s == "" then None else Some(s)
  }

  /** The text of a post and whether standard input had to be read for it. */
  datatype PostText = PostText(text: string, readStdin: bool)

  /** `_read_post_text`: a non-empty positional text wins, then the stripped
      contents of `--from-file` (even when they strip to nothing), and only
      then stripped standard input. */
  function ReadPostText(args: Args, world: World): (r: PostText)
    ensures r.readStdin <==> !Given(args.text) && args.fromFile.None?
    ensures Given(args.text) ==> r.text == args.text.value
    ensures !Given(args.text) && args.fromFile.Some? ==> r.text == Strip(world.fromFileText)
    ensures r.readStdin ==> r.text == Strip(world.stdinText)
  {
    if Given(args.text) then PostText(args.text.value, false)
    else if args.fromFile.Some? then PostText(Strip(world.fromFileText), false)
    else PostText(Strip(world.stdinText), true)
  }

  /** Why an invocation calls `sys.exit(1)`. */
  datatype Reason =
    | MissingToken
    | ImageNotFound(path: string)
    | EmptyText
    | ImageRejected(error: ImageError)

  /** The single client call `main()` settles on, or the reason it stops first. */
  datatype Plan =
    | Abort(reason: Reason)
    | PostMessage(chatId: string, text: string, parseMode: Option<string>)
    | PostPhoto(chatId: string, image: ImageFile, caption: Option<string>,
                parseMode: Option<string>)

  datatype Decision = Decision(plan: Plan, readStdin: bool)

  /** The caption of a photo post: the positional text if non-empty, else
      the stripped `--from-file` contents if that option is given and they
      are non-empty; otherwise none. */
  function Caption(args: Args, world: World): (c: Option<string>)
    ensures c.Some? ==> c.value != ""
    ensures Given(args.text) ==> c == args.text
    ensures !Given(args.text) && args.fromFile.Some? ==> c == NonEmpty(Strip(world.fromFileText))
    ensures !Given(args.text) && args.fromFile.None? ==> c.None?
  {
    var text := if Given(args.text) then args.text.value else "";
    if args.fromFile.Some? && !Given(args.text) then NonEmpty(Strip(world.fromFileText))
    else NonEmpty(text)
  }

  /** The decisions of `main()` that precede the client call: an image that
      exists is always handed to `send_photo` with its caption, a missing
      one stops the run, and without an image the post text is sent unless
      it is empty. */
  function Decide(args: Args, world: World): (d: Decision)
    ensures args.image.Some? ==> !d.readStdin
    ensures args.image.None? ==> d.readStdin == ReadPostText(args, world).readStdin
    ensures d.plan.PostPhoto? <==> args.image.Some? && world.imageSize.Some?
    ensures d.plan.PostPhoto? ==> d.plan.image == ImageFile(args.image.value, world.imageSize.value)
                                  && d.plan.caption == Caption(args, world)
    ensures d.plan.PostMessage? <==> args.image.None? && ReadPostText(args, world).text != ""
    ensures d.plan.PostMessage? ==> d.plan.text == ReadPostText(args, world).text
    ensures d.plan.Abort? ==> d.plan.reason == (if args.image.Some? then ImageNotFound(args.image.value)
                                                else EmptyText)
    ensures !d.plan.Abort? ==> d.plan.chatId == NormalizeChannel(args.channel)
                               && d.plan.parseMode == args.parseMode
  {
    var chatId := NormalizeChannel(args.channel);
    match args.image
    case Some(path) =>
      if world.imageSize.None? then Decision(Abort(ImageNotFound(path)), false)
      else
        var image := ImageFile(path, world.imageSize.value);
        Decision(PostPhoto(chatId, image, Caption(args, world), args.parseMode), false)
    case None =>
      var post := ReadPostText(args, world);
      if post.text == "" then Decision(Abort(EmptyText), post.readStdin)
      else Decision(PostMessage(chatId, post.text, args.parseMode), post.readStdin)
  }

  /** How an invocation ends: `sys.exit(1)` after a message on standard
      error, the success text on standard output, or an exception the
      program does not catch (which the interpreter also turns into exit
      status 1, after a request has been sent). */
  datatype Ending =
    | Exit1(reason: Reason)
    | Posted(output: string)
    | Raised(error: ClientError)

  /** Everything observable about one invocation. */
  datatype Invocation = Invocation(readStdin: bool, request: Option<Request>, outcome: Ending)

  /** The text printed after a successful post. */
  function SuccessOutput(result: PostResult): string {
    "Message posted!\n" + result.url
  }

  /** The aftermath of one client call. Only `send_photo` sits inside a
      `try` that turns its validation error into `sys.exit(1)`; anything
      else the call raises propagates. */
  function Finish(readStdin: bool, x: Exchange, catchesValidation: bool): (inv: Invocation)
    ensures inv.readStdin == readStdin && inv.request == x.request
    ensures x.result.Success? ==> inv.outcome == Posted(SuccessOutput(x.result.value))
    ensures x.result.Failure? && x.result.error.InvalidImage? && catchesValidation ==>
              inv.outcome == Exit1(ImageRejected(x.result.error.reason))
    ensures x.result.Failure? && !(x.result.error.InvalidImage? && catchesValidation) ==>
              inv.outcome == Raised(x.result.error)
  {
    var outcome := match x.result
      case Success(result) => Posted(SuccessOutput(result))
      case Failure(InvalidImage(e)) =>
        if catchesValidation then Exit1(ImageRejected(e)) else Raised(InvalidImage(e))
      case Failure(e) => Raised(e);
    Invocation(readStdin, x.request, outcome)
  }

  /** The client call and its aftermath, for a client built from the token. */
  function Execute(botToken: string, d: Decision, respond: Request -> Response)
    : (inv: Invocation)
    ensures inv.readStdin == d.readStdin
    ensures d.plan.Abort? ==> inv.request.None? && inv.outcome == Exit1(d.plan.reason)
  {
    var client := NewClient(botToken);
    match d.plan
    case Abort(reason) => Invocation(d.readStdin, None, Exit1(reason))
    case PostMessage(chatId, text, parseMode) =>
      Finish(d.readStdin, SendMessage(client, chatId, text, parseMode, respond), false)
    case PostPhoto(chatId, image, caption, parseMode) =>
      Finish(d.readStdin, SendPhoto(client, chatId, image, caption, parseMode, respond), true)
  }

  /** `main()` from the channel normalisation onwards, for a known token.
      The run calls `sys.exit(1)` exactly when it sends nothing, and never
      for want of a token; whatever it sends goes to the normalised channel;
      it reports success only after an ok reply. */
  function Proceed(args: Args, world: World, botToken: string, respond: Request -> Response)
    : (inv: Invocation)
    ensures inv.request.None? <==> inv.outcome.Exit1?
    ensures inv.outcome.Exit1? ==> !inv.outcome.reason.MissingToken?
    ensures inv.request.Some? ==>
              Lookup(Fields(inv.request.value), "chat_id") == Some(NormalizeChannel(args.channel))
    ensures inv.outcome.Posted? ==> inv.request.Some? && respond(inv.request.value).ok
  {
    var d := Decide(args, world);
    ExecuteRequest(botToken, d, respond);
    ExecuteOutcome(botToken, d, respond);
    ExecuteFields(botToken, d, respond);
    Execute(botToken, d, respond)
  }

  /** The fields a request carries besides any file. */
  function Fields(request: Request): map<string, string> {
    match request
    case JsonPost(_, json) => json
    case MultipartPost(_, data, _) => data
  }

  /** The request `Execute` sends for each plan, if any. */
  lemma ExecuteRequest(botToken: string, d: Decision, respond: Request -> Response)
    ensures var inv := Execute(botToken, d, respond);
      && (d.plan.Abort? ==> inv.request.None?)
      && (d.plan.PostMessage? ==>
            inv.request == Some(JsonPost(Endpoint(NewClient(botToken), "sendMessage"),
                                         MessageBody(d.plan.chatId, d.plan.text,
                                                     d.plan.parseMode))))
      && (d.plan.PostPhoto? && inv.request.Some? ==>
            inv.request == Some(MultipartPost(Endpoint(NewClient(botToken), "sendPhoto"),
                                              PhotoForm(d.plan.chatId, d.plan.caption,
                                                        d.plan.parseMode),
                                              map["photo" := d.plan.image.path])))
      && (d.plan.PostPhoto? ==> (inv.request.None? <==> ValidateImage(d.plan.image).Fail?))
      && (d.plan.PostPhoto? && ValidateImage(d.plan.image).Fail? ==>
            inv.outcome == Exit1(ImageRejected(ValidateImage(d.plan.image).error)))
  {
    match d.plan
    case Abort(_) =>
    case PostMessage(c, text, pm) =>
    case PostPhoto(c, image, caption, pm) =>
      var x := SendPhoto(NewClient(botToken), c, image, caption, pm, respond);
      assert ValidateImage(image).Fail? ==> x.request.None? && x.result.error.InvalidImage?;
  }

  /** Once a request is sent, the reply alone decides the outcome. */
  lemma ExecuteOutcome(botToken: string, d: Decision, respond: Request -> Response)
    ensures var inv := Execute(botToken, d, respond);
      inv.request.Some? ==>
        && (d.plan.PostMessage? || d.plan.PostPhoto?)
        && var resp := respond(inv.request.value);
        && (!resp.ok ==> inv.outcome == Raised(HttpError(resp.status, resp.text)))
        && (resp.ok ==> inv.outcome == Posted(SuccessOutput(PostResult(
                          resp.messageId, BuildUrl(d.plan.chatId, resp.messageId)))))
  {
    if d.plan.PostMessage? {
      MessageOutcome(botToken, d, respond);
    } else if d.plan.PostPhoto? {
      PhotoOutcome(botToken, d, respond);
    }
  }

  lemma MessageOutcome(botToken: string, d: Decision, respond: Request -> Response)
    requires d.plan.PostMessage?
    ensures var inv := Execute(botToken, d, respond);
      && inv.request.Some?
      && var resp := respond(inv.request.value);
      && (!resp.ok ==> inv.outcome == Raised(HttpError(resp.status, resp.text)))
      && (resp.ok ==> inv.outcome == Posted(SuccessOutput(PostResult(
                        resp.messageId, BuildUrl(d.plan.chatId, resp.messageId)))))
  {
    var x := SendMessage(NewClient(botToken), d.plan.chatId, d.plan.text, d.plan.parseMode,
                         respond);
    assert Execute(botToken, d, respond) == Finish(d.readStdin, x, false);
    assert x.result == Interpret(d.plan.chatId, respond(x.request.value));
  }

  lemma PhotoOutcome(botToken: string, d: Decision, respond: Request -> Response)
    requires d.plan.PostPhoto?
    ensures var inv := Execute(botToken, d, respond);
      inv.request.Some? ==>
        && var resp := respond(inv.request.value);
        && (!resp.ok ==> inv.outcome == Raised(HttpError(resp.status, resp.text)))
        && (resp.ok ==> inv.outcome == Posted(SuccessOutput(PostResult(
                          resp.messageId, BuildUrl(d.plan.chatId, resp.messageId)))))
  {
    var x := SendPhoto(NewClient(botToken), d.plan.chatId, d.plan.image, d.plan.caption,
                       d.plan.parseMode, respond);
    assert Execute(botToken, d, respond) == Finish(d.readStdin, x, true);
    assert x.request.Some? ==> x.result == Interpret(d.plan.chatId, respond(x.request.value));
  }

  /** A request, when sent, carries the plan's chat id and parse mode. */
  lemma ExecuteFields(botToken: string, d: Decision, respond: Request -> Response)
    ensures var inv := Execute(botToken, d, respond);
      inv.request.Some? ==>
        && !d.plan.Abort?
        && Lookup(Fields(inv.request.value), "chat_id") == Some(d.plan.chatId)
        && Lookup(Fields(inv.request.value), "parse_mode") == d.plan.parseMode
  {
    if d.plan.PostMessage? {
      MessageFields(botToken, d, respond);
    } else if d.plan.PostPhoto? {
      PhotoFields(botToken, d, respond);
    }
  }

  lemma MessageFields(botToken: string, d: Decision, respond: Request -> Response)
    requires d.plan.PostMessage?
    ensures var inv := Execute(botToken, d, respond);
      && inv.request.Some?
      && Fields(inv.request.value) == MessageBody(d.plan.chatId, d.plan.text, d.plan.parseMode)
  {
  }

  lemma PhotoFields(botToken: string, d: Decision, respond: Request -> Response)
    requires d.plan.PostPhoto?
    ensures var inv := Execute(botToken, d, respond);
      inv.request.Some? ==>
        Fields(inv.request.value) == PhotoForm(d.plan.chatId, d.plan.caption, d.plan.parseMode)
  {
    ExecuteRequest(botToken, d, respond);
  }

  // ------------------------------------------------------------ properties

  /** Whatever is sent goes to the channel as normalised, with the parse
      mode passed through unchanged. */
  lemma ChannelIsNormalized(args: Args, world: World, botToken: string,
                            respond: Request -> Response)
    ensures var inv := Proceed(args, world, botToken, respond);
      inv.request.Some? ==>
        && Lookup(Fields(inv.request.value), "chat_id") == Some(NormalizeChannel(args.channel))
        && Lookup(Fields(inv.request.value), "parse_mode") == args.parseMode
  {
    ExecuteFields(botToken, Decide(args, world), respond);
  }

  /** A missing image file stops the run before any client call, and before
      any text is read. */
  lemma MissingImageStopsEarly(args: Args, world: World, botToken: string,
                               respond: Request -> Response)
    requires args.image.Some? && world.imageSize.None?
    ensures Proceed(args, world, botToken, respond)
            == Invocation(false, None, Exit1(ImageNotFound(args.image.value)))
  {
  }

  /** Without an image, the message text is the first of: the non-empty
      positional text, the stripped `--from-file` contents, the stripped
      standard input; standard input is read only in the last case. An empty
      result stops the run with nothing sent. */
  lemma TextPriority(args: Args, world: World, botToken: string,
                     respond: Request -> Response)
    requires args.image.None?
    ensures var inv := Proceed(args, world, botToken, respond);
      var text := if Given(args.text) then args.text.value
                  else if args.fromFile.Some? then Strip(world.fromFileText)
                  else Strip(world.stdinText);
      && (inv.readStdin <==> !Given(args.text) && args.fromFile.None?)
      && (text == "" ==> inv.request.None? && inv.outcome == Exit1(EmptyText))
      && (text != "" ==> inv.request.Some? && inv.request.value.JsonPost?
                         && Lookup(inv.request.value.json, "text") == Some(text))
  {
    ExecuteRequest(botToken, Decide(args, world), respond);
  }

  /** With an image that exists, standard input is never read and the
      caption sent is the positional text if non-empty, else the non-empty
      stripped `--from-file` contents, else none at all. */
  lemma PhotoCaption(args: Args, world: World, botToken: string,
                     respond: Request -> Response)
    requires args.image.Some? && world.imageSize.Some?
    ensures var inv := Proceed(args, world, botToken, respond);
      && !inv.readStdin
      && (inv.request.Some? <==> ValidateImage(ImageFile(args.image.value, world.imageSize.value)).Pass?)
      && (inv.request.Some? ==>
            && inv.request.value.MultipartPost?
            && inv.request.value.files == map["photo" := args.image.value]
            && Lookup(inv.request.value.data, "caption")
               == (if Given(args.text) then args.text
                   else if args.fromFile.Some? then NonEmpty(Strip(world.fromFileText))
                   else None))
  {
    ExecuteRequest(botToken, Decide(args, world), respond);
  }

  /** A rejected image calls `sys.exit(1)` with no upload; the error is
      the one the pre-flight check reports. */
  lemma RejectedImageExits(args: Args, world: World, botToken: string,
                           respond: Request -> Response)
    requires args.image.Some? && world.imageSize.Some?
    requires ValidateImage(ImageFile(args.image.value, world.imageSize.value)).Fail?
    ensures Proceed(args, world, botToken, respond)
            == Invocation(false, None, Exit1(ImageRejected(
                 ValidateImage(ImageFile(args.image.value, world.imageSize.value)).error)))
  {
    ExecuteRequest(botToken, Decide(args, world), respond);
  }

  /** A non-ok reply is not caught: it propagates as the HTTP error, for
      messages and photos alike. */
  lemma HttpErrorsPropagate(args: Args, world: World, botToken: string,
                            respond: Request -> Response)
    ensures var inv := Proceed(args, world, botToken, respond);
      inv.request.Some? && !respond(inv.request.value).ok ==>
        inv.outcome == Raised(HttpError(respond(inv.request.value).status,
                                        respond(inv.request.value).text))
  {
    ExecuteOutcome(botToken, Decide(args, world), respond);
  }

  /** Success is reported only after an ok reply, and prints the public link
      of the new message in the channel the user named. */
  lemma SuccessPrintsLink(args: Args, world: World, botToken: string,
                          respond: Request -> Response)
    ensures var inv := Proceed(args, world, botToken, respond);
      inv.outcome.Posted? ==>
        && inv.request.Some? && respond(inv.request.value).ok
        && inv.outcome.output == "Message posted!\n"
                                 + BuildUrl(NormalizeChannel(args.channel),
                                            respond(inv.request.value).messageId)
  {
    ExecuteOutcome(botToken, Decide(args, world), respond);
  }

  /** `sys.exit(1)` is called exactly for a missing image, empty text
      without an image, or an existing image the pre-flight check rejects;
      in each case nothing was sent. */
  lemma ExitReasons(args: Args, world: World, botToken: string,
                    respond: Request -> Response)
    ensures var inv := Proceed(args, world, botToken, respond);
      && (inv.outcome.Exit1? ==> inv.request.None?)
      && (inv.outcome.Exit1? ==> !inv.outcome.reason.MissingToken?)
      && (inv.request.None? <==> inv.outcome.Exit1?)
      && (inv.outcome.Exit1? <==>
            || (args.image.Some? && world.imageSize.None?)
            || (args.image.None? && ReadPostText(args, world).text == "")
            || (args.image.Some? && world.imageSize.Some?
                && ValidateImage(ImageFile(args.image.value, world.imageSize.value)).Fail?))
  {
    ExecuteRequest(botToken, Decide(args, world), respond);
    ExecuteOutcome(botToken, Decide(args, world), respond);
  }
}
