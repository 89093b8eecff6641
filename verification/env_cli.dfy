/** `main()` of the entry point that reads the bot token from the
    environment after loading a `.env` file. The environment is a map, taken
    after that file has been loaded. */
module EnvCli {
  import opened Wrappers
  import opened Text
  import opened Client
  import opened Dispatch
  import PosterCli

  const TokenVariable := "BOT_TOKEN"

  /** `os.getenv("BOT_TOKEN", "")`. */
  function EnvToken(env: map<string, string>): string {
    if TokenVariable in env then env[TokenVariable] else ""
  }

  /** `main()`: a missing or empty token ends the run at once; otherwise the
      shared post-token flow runs with it. */
  function Main(args: Args, env: map<string, string>, world: World,
                respond: Request -> Response): (inv: Invocation)
    ensures EnvToken(env) == "" ==> inv == Invocation(false, None, Exit1(MissingToken))
  {
    var token := EnvToken(env);
    if token == "" then Invocation(false, None, Exit1(MissingToken))
    else Proceed(args, world, token, respond)
  }

  /** A missing token is the only cause of the token error, and when it
      occurs nothing else has happened. */
  lemma TokenCheckedFirst(args: Args, env: map<string, string>, world: World,
                          respond: Request -> Response)
    ensures var inv := Main(args, env, world, respond);
      (inv.outcome == Exit1(MissingToken) <==> EnvToken(env) == "")
  {
    if EnvToken(env) != "" {
      ExitReasons(args, world, EnvToken(env), respond);
    }
  }

  /** Every request goes to the API endpoint of the environment's token. */
  lemma RequestsUseEnvToken(args: Args, env: map<string, string>, world: World,
                            respond: Request -> Response)
    ensures var inv := Main(args, env, world, respond);
      inv.request.Some? ==>
        && EnvToken(env) != ""
        && (inv.request.value.url == Endpoint(NewClient(EnvToken(env)), "sendMessage")
            || inv.request.value.url == Endpoint(NewClient(EnvToken(env)), "sendPhoto"))
  {
    var d := Decide(args, world);
    if EnvToken(env) != "" {
      ExecuteRequest(EnvToken(env), d, respond);
    }
  }

  /** The channel is normalised and the parse mode passed through. */
  lemma ChannelIsNormalized(args: Args, env: map<string, string>, world: World,
                            respond: Request -> Response)
    ensures var inv := Main(args, env, world, respond);
      inv.request.Some? ==>
        && Lookup(Fields(inv.request.value), "chat_id") == Some(NormalizeChannel(args.channel))
        && Lookup(Fields(inv.request.value), "parse_mode") == args.parseMode
  {
    if EnvToken(env) != "" {
      Dispatch.ChannelIsNormalized(args, world, EnvToken(env), respond);
    }
  }

  /** With a token, a missing image stops the run before the client call and
      before any text is read. */
  lemma MissingImageStopsEarly(args: Args, env: map<string, string>, world: World,
                               respond: Request -> Response)
    requires EnvToken(env) != "" && args.image.Some? && world.imageSize.None?
    ensures Main(args, env, world, respond)
            == Invocation(false, None, Exit1(ImageNotFound(args.image.value)))
  {
  }

  /** With a token and no image: positional text, then `--from-file`, then
      standard input; empty text stops the run with nothing sent. */
  lemma TextPriority(args: Args, env: map<string, string>, world: World,
                     respond: Request -> Response)
    requires EnvToken(env) != "" && args.image.None?
    ensures var inv := Main(args, env, world, respond);
      var text := if Given(args.text) then args.text.value
                  else if args.fromFile.Some? then Strip(world.fromFileText)
                  else Strip(world.stdinText);
      && (inv.readStdin <==> !Given(args.text) && args.fromFile.None?)
      && (text == "" ==> inv.request.None? && inv.outcome == Exit1(EmptyText))
      && (text != "" ==> inv.request.Some? && inv.request.value.JsonPost?
                         && Lookup(inv.request.value.json, "text") == Some(text))
  {
    Dispatch.TextPriority(args, world, EnvToken(env), respond);
  }

  /** With a token and an existing image: no standard input, and the caption
      is the positional text, else the non-empty stripped `--from-file`
      contents, else none; a rejected image calls `sys.exit(1)`. */
  lemma PhotoCaption(args: Args, env: map<string, string>, world: World,
                     respond: Request -> Response)
    requires EnvToken(env) != "" && args.image.Some? && world.imageSize.Some?
    ensures var inv := Main(args, env, world, respond);
      && !inv.readStdin
      && (inv.request.Some? <==> ValidateImage(ImageFile(args.image.value, world.imageSize.value)).Pass?)
      && (inv.request.Some? ==>
            Lookup(Fields(inv.request.value), "caption")
            == (if Given(args.text) then args.text
                else if args.fromFile.Some? then NonEmpty(Strip(world.fromFileText))
                else None))
      && (ValidateImage(ImageFile(args.image.value, world.imageSize.value)).Fail? ==>
            inv.request.None? && inv.outcome.Exit1? && inv.outcome.reason.ImageRejected?)
  {
    Dispatch.PhotoCaption(args, world, EnvToken(env), respond);
    if ValidateImage(ImageFile(args.image.value, world.imageSize.value)).Fail? {
      Dispatch.RejectedImageExits(args, world, EnvToken(env), respond);
    }
  }

  /** Success prints the link of the new message. */
  lemma SuccessPrintsLink(args: Args, env: map<string, string>, world: World,
                          respond: Request -> Response)
    ensures var inv := Main(args, env, world, respond);
      inv.outcome.Posted? ==>
        && inv.request.Some? && respond(inv.request.value).ok
        && inv.outcome.output == "Message posted!\n"
                                 + BuildUrl(NormalizeChannel(args.channel),
                                            respond(inv.request.value).messageId)
  {
    if EnvToken(env) != "" {
      Dispatch.SuccessPrintsLink(args, world, EnvToken(env), respond);
    }
  }

  /** The two entry points differ only in where the token comes from: given
      the same non-empty token, from the environment here and from the store
      there, they behave identically. */
  lemma VariantsAgree(args: Args, env: map<string, string>, config: map<string, string>,
                      answer: string, world: World, respond: Request -> Response)
    requires EnvToken(env) != "" && PosterCli.Stored(config) == EnvToken(env)
    ensures Main(args, env, world, respond)
            == PosterCli.Main(args, false, config, answer, world, respond).invocation
  {
  }
}
