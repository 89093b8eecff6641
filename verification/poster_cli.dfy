/** `main()` of the entry point that keeps the bot token in a key-value
    configuration store and asks for it on first use. The store is a map;
    the interactive prompt is replaced by the answer the user would type. */
module PosterCli {
  import opened Wrappers
  import opened Client
  import opened Dispatch

  const TokenKey := "bot_token"

  /** `config.get("bot_token")`, with an absent key read as "". */
  function Stored(config: map<string, string>): string {
    if TokenKey in config then config[TokenKey] else ""
  }

  /** `--reset-keys`: the store with the token removed; other keys stay. */
  function ResetKeys(config: map<string, string>): (c: map<string, string>)
    ensures TokenKey !in c
    ensures forall k :: k in config && k != TokenKey ==> k in c && c[k] == config[k]
    ensures c.Keys == config.Keys - {TokenKey}
  {
    config - {TokenKey}
  }

  /** The token `main()` ends up with, and whether the user was asked. */
  datatype TokenResolution = TokenResolution(prompted: bool, token: Option<string>)

  /** The token in the store if there is a non-empty one; otherwise the
      user's answer to the prompt, and no token at all when that answer is
      empty. */
  function ResolveToken(config: map<string, string>, resetKeys: bool, answer: string)
    : (t: TokenResolution)
    ensures t.token.Some? ==> t.token.value != ""
    ensures t.prompted <==> Stored(if resetKeys then ResetKeys(config) else config) == ""
    ensures !t.prompted ==> t.token == Some(Stored(config))
    ensures t.prompted ==> t.token == NonEmpty(answer)
  {
    var store := if resetKeys then ResetKeys(config) else config;
    if Stored(store) != "" then TokenResolution(false, Some(Stored(store)))
    else TokenResolution(true, NonEmpty(answer))
  }

  /** One run of the program: whether the user was prompted for the token,
      and everything else observable about it. */
  datatype Session = Session(prompted: bool, invocation: Invocation)

  /** `main()`: the token is resolved first; without one the run calls
      `sys.exit(1)` before anything is read or sent, and only then does it
      end with `Exit1(MissingToken)`. */
  function Main(args: Args, resetKeys: bool, config: map<string, string>, answer: string,
                world: World, respond: Request -> Response): (s: Session)
    ensures var t := ResolveToken(config, resetKeys, answer);
      && s.prompted == t.prompted
      && (s.invocation.outcome == Exit1(MissingToken) <==> t.token.None?)
      && (t.token.None? ==> s.invocation.request.None? && !s.invocation.readStdin)
  {
    var t := ResolveToken(config, resetKeys, answer);
    match t.token
    case None => Session(t.prompted, Invocation(false, None, Exit1(MissingToken)))
    case Some(token) => Session(t.prompted, Proceed(args, world, token, respond))
  }

  /** `--reset-keys` drops the stored token before it is looked at, so the
      user is always asked, and an empty answer ends the run even when a
      token had been stored. */
  lemma ResetForcesPrompt(args: Args, config: map<string, string>, answer: string,
                          world: World, respond: Request -> Response)
    ensures var s := Main(args, true, config, answer, world, respond);
      && s.prompted
      && (answer == "" ==> s.invocation == Invocation(false, None, Exit1(MissingToken)))
  {
  }

  /** Without a token the run stops before the channel, the image or the
      text are looked at, and nothing is sent. */
  lemma MissingTokenStopsFirst(args: Args, resetKeys: bool, config: map<string, string>,
                               world: World, respond: Request -> Response)
    requires resetKeys || Stored(config) == ""
    ensures Main(args, resetKeys, config, "", world, respond).invocation
            == Invocation(false, None, Exit1(MissingToken))
  {
  }

  /** A stored token is used as is, without asking, and every request goes
      to the API under that token. */
  lemma StoredTokenUsed(args: Args, config: map<string, string>, answer: string,
                        world: World, respond: Request -> Response)
    requires Stored(config) != ""
    ensures var s := Main(args, false, config, answer, world, respond);
      && !s.prompted
      && s.invocation == Proceed(args, world, Stored(config), respond)
  {
  }

  /** With a token in hand, the run is the shared post-token flow. */
  lemma TokenThenProceed(args: Args, resetKeys: bool, config: map<string, string>,
                         answer: string, world: World, respond: Request -> Response)
    ensures var t := ResolveToken(config, resetKeys, answer);
      t.token.Some? ==>
        Main(args, resetKeys, config, answer, world, respond).invocation
        == Proceed(args, world, t.token.value, respond)
  {
  }
}
