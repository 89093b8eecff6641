# telegram-post-cli, modelled in Dafny

`telegram-post-cli` is a small command-line tool. It posts a text message or
a photo with an optional caption to a Telegram channel through the Telegram
Bot API, and then prints the public link of the new post. This project
models its core as pure Dafny functions and proves what that core promises.
The core covers:

- **the client** (`src/telegram_post/client.py`):
  - `normalize_channel`;
  - the image pre-flight check `_validate_image`;
  - the link builder `_build_url`;
  - `TelegramClient` with `send_message` and `send_photo`, and the
    `PostResult` they return;
- **the config-store entry point** (`src/telegram_post/cli.py`):
  `_read_post_text` and the decision logic of `main()`. These are
  `--reset-keys`, the token prompt, channel normalisation, the image
  existence check, text and caption resolution, the single client call and
  its success or exit-1 outcome;
- **the environment entry point** (`src/tg/cli.py`): the same flow with the
  bot token taken from `BOT_TOKEN`.

Files:

| file | module | contents |
|---|---|---|
| `wrappers.dfy` | `Wrappers` | `Option`, `Result`, `Outcome` |
| `text.dfy` | `Text` | Python `str.strip`, `str.lower`, `find`/`rfind` and `join` |
| `decimal.dfy` | `Decimal` | `str(int)` and the parser that inverts it |
| `string_order.dfy` | `StringOrder` | Python's string order; a sorted listing of a set is unique |
| `paths.dfy` | `Paths` | `PurePosixPath.name` and `.suffix` |
| `client.dfy` | `Client` | the API client |
| `dispatch.dfy` | `Dispatch` | the part of `main()` both entry points share once a token is known |
| `poster_cli.dfy` | `PosterCli` | `main()` with the config store |
| `env_cli.dfy` | `EnvCli` | `main()` with the environment token |

The model replaces the program's effects with values:

- The HTTP session is a function `respond: Request -> Response`. A `Request`
  records the URL, the JSON body or form fields, and the file fields. A
  `Response` carries `ok`, the status code, the body text and the decoded
  `message_id`.
- Files and standard input are replaced by a `World`. It holds the
  `--from-file` contents, the standard-input contents and the size of the
  `--image` file (`None` when the file does not exist).
- The config store is a `map<string, string>`. The token prompt is the
  answer the user would type.
- The environment is a `map<string, string>`, taken after `.env` has been
  loaded.
- One run is an `Invocation`. It records:
  - whether standard input was read;
  - the request sent, if any;
  - how the run ended (an `Ending`): `Exit1(reason)` for a call of
    `sys.exit(1)`, `Posted(output)`, or `Raised(error)` for an exception the
    program does not catch.

## Model

| member | source | states |
|---|---|---|
| Text.Strip | src/telegram_post/cli.py:46-49 | the stripped text is the input with a whitespace-only prefix and a whitespace-only suffix cut off; it neither starts nor ends with whitespace, so the cut is the largest; it is empty exactly when the input is all whitespace |
| Text.StripIdempotent | src/telegram_post/cli.py:46-49 | stripping twice is the same as stripping once |
| Text.Lower | src/telegram_post/client.py:134 | lower-casing keeps the length and maps each character on its own, A-Z to a-z and all others unchanged |
| Text.LowerIdempotent | src/telegram_post/client.py:134 | a lower-cased string has no upper-case letter, and lower-casing it again changes nothing |
| Decimal.IntToString | src/telegram_post/client.py:149 | `str(message_id)` is non-empty, starts with '-' exactly for negative ids, has no leading zero (and no `-0`), and contains neither ':' nor '/' |
| Decimal.IntToStringRoundTrip | src/telegram_post/client.py:149 | the rendered id parses back to the same integer |
| Decimal.ParseIntCanonical | src/telegram_post/client.py:149 | the parser accepts only `str`'s own rendering: a string that parses to an integer is that integer's rendering, so `042` and `-0` are refused |
| Decimal.IntToStringInjective | src/telegram_post/client.py:149 | different message ids give different renderings, so different links |
| StringOrder.LessIrreflexive | src/telegram_post/client.py:138 | no string sorts before itself |
| StringOrder.LessAsymmetric | src/telegram_post/client.py:138 | two strings never sort before each other |
| StringOrder.SortedListingUnique | src/telegram_post/client.py:138 | two strictly sorted listings of the same set are equal, so `sorted` of the supported set is determined |
| Paths.Name | src/telegram_post/client.py:134 | the final component of a path is a tail of the path that holds no '/' |
| Paths.Suffix | src/telegram_post/client.py:134 | a suffix is empty, or a dot and at least one more character that end the name and are shorter than it |
| Paths.PathSuffix | src/telegram_post/client.py:134 | the suffix of a path is empty or starts with a dot |
| Paths.NameShape | src/telegram_post/client.py:134 | the file name is the part of the path after its last '/' and holds no '/' |
| Paths.SuffixShape | src/telegram_post/client.py:134 | a suffix is empty or a dot followed by non-dot characters that ends the name; it is empty exactly when the name has no dot, ends in a dot, or has its only dot in front |
| Paths.PathSuffixShape | src/telegram_post/client.py:134 | the suffix of a whole path is empty or starts with its only dot and holds no '/' |
| Client.NormalizeChannel | src/telegram_post/client.py:123-130 | the result starts with '@' and ends with the whole input behind at most one added '@'; it equals the input exactly when the input already started with '@' |
| Client.NormalizeIdempotent | src/telegram_post/client.py:123-130 | normalising twice is the same as normalising once |
| Client.NormalizeExamples | tests/test_client.py:138-145 | `myChannel` and `12345` gain an '@'; `@myChannel` stays as it is |
| Client.BuildUrl | src/telegram_post/client.py:148-149 | a post link parses back into the channel name without its first character and the message id |
| Client.ParseUrlCanonical | src/telegram_post/client.py:148-149 | a link that parses to a channel name and an id is exactly the host, the name, '/' and the id's rendering, so with `BuildUrl` the link text is determined |
| Client.PathRoundTrip | src/telegram_post/client.py:149 | splitting `name/id` at its last '/' gives back the name and the id, whatever slashes the name holds |
| Client.UrlOfUserChannel | src/telegram_post/client.py:148-149 | the link of a normalised channel contains the user's channel without a leading '@' if it had one, and unchanged otherwise |
| Client.UrlExample | tests/test_client.py:48-56 | message 42 in `@mychannel` links to `https://t.me/mychannel/42` |
| Client.SupportedListingIsSorted | src/telegram_post/client.py:12 | `.gif, .jpeg, .jpg, .png, .webp` is a strictly sorted listing of the supported suffixes |
| Client.ImageError.Message | src/telegram_post/client.py:136-145 | a format error reads `Unsupported image format '<suffix>'. Supported: .gif, .jpeg, .jpg, .png, .webp`; a size error reads `Image too large (<size in MiB to one decimal> MB). Maximum: 10 MB` |
| Client.TenthsOfMiB | src/telegram_post/client.py:143 | the size in tenths of a MiB is within half a tenth of the exact value, and a tie goes to the even count |
| Client.OneDecimal | src/telegram_post/client.py:143 | the one-decimal text reads back as the whole part without leading zeros, a point and the tenths digit |
| Client.MaximumInMiB | src/telegram_post/client.py:144 | the limit of 10 MiB is written as `10` |
| Client.FormatErrorMessageListsSortedTypes | src/telegram_post/client.py:136-139 | the format error's message equals the one built from any strictly sorted listing of the supported set, so `sorted` fixes the list |
| Client.JoinSupportedListing | src/telegram_post/client.py:138 | the sorted supported suffixes joined with ", " give `.gif, .jpeg, .jpg, .png, .webp` |
| Client.ValidateImage | src/telegram_post/client.py:133-145 | an image passes exactly when its lower-cased suffix is supported and its size is at most 10 MiB; a format error carries that suffix and a size error carries the size |
| Client.FormatCheckedBeforeSize | src/telegram_post/client.py:133-145 | an unsupported suffix is reported as such whatever the size; a size error happens exactly for a supported suffix with more than 10 MiB |
| Client.NameOfJoinedPath | src/telegram_post/client.py:134 | the name of `dir/file` is `file` |
| Client.SuffixOfStemAndExtension | src/telegram_post/client.py:134 | the suffix of `stem.ext` is `.ext` whatever dots the stem holds |
| Client.SizeBoundary | src/telegram_post/client.py:140-141 | with a supported suffix, 10485760 bytes pass and 10485761 bytes are too large |
| Client.BmpRejected | tests/test_client.py:107-113 | any `dir/stem.bmp` is rejected as format `.bmp`, whatever its size |
| Client.SuffixCaseIgnored | src/telegram_post/client.py:134-135 | paths whose suffixes differ only in letter case get the same verdict |
| Client.UpperCaseJpgAccepted | src/telegram_post/client.py:134-135 | `dir/stem.JPG` within the limit is accepted |
| Client.HiddenFileRejected | src/telegram_post/client.py:134-135 | a hidden file named `.png` has an empty suffix and is rejected |
| Client.ErrorMessageCanonical | src/telegram_post/client.py:76-78 | an error message that parses to a status and a body is exactly `<status>: <body>` with the status as `str` writes it |
| Client.ErrorMessageRoundTrip | src/telegram_post/client.py:76-78 | `<status>: <body>` gives back the status code and the body verbatim, whatever colons the body holds |
| Client.ClientError.Message | src/telegram_post/client.py:76-78 | `str(exc)` of an HTTP error gives back its status code and body; that of a validation error is the check's message |
| Client.TokenDeterminesClient | src/telegram_post/client.py:58-59 | two tokens give the same client exactly when they are the same token |
| Client.Endpoint | src/telegram_post/client.py:74 | an endpoint extends the client's URL, and its last path component is the method name |
| Client.EndpointOfToken | src/telegram_post/client.py:74 | a method is posted to the base URL, then the token, then '/' and the method name |
| Client.WithOptional | src/telegram_post/client.py:71-72 | an optional argument adds its key exactly when it is not None, and leaves every other key unchanged |
| Client.MessageBody | src/telegram_post/client.py:70-72 | the JSON body has keys `chat_id`, `text` and `parse_mode` only when one is given, and each key reads back its argument |
| Client.PhotoForm | src/telegram_post/client.py:100-104 | the form has `chat_id`, plus `caption` and `parse_mode` only when given; each reads back its argument; `photo` is never a form field |
| Client.Interpret | src/telegram_post/client.py:75-83 | a reply succeeds exactly when it is ok; otherwise the error carries its status and body; a success carries the reply's message id and the link `_build_url` gives for it |
| Client.SendMessage | src/telegram_post/client.py:62-83 | always one JSON post to the client's `sendMessage` endpoint whose keys are `chat_id`, `text` and `parse_mode` when given, each reading back its argument; it succeeds exactly on an ok reply; a failure's message gives back the status and body; a success carries the reply's message id and a link that parses back to the chat and that id |
| Client.SendPhoto | src/telegram_post/client.py:85-120 | nothing is sent exactly when the image is rejected, and the result is then the check's error; otherwise one multipart post to the client's `sendPhoto` endpoint with the file in `photo` and form keys `chat_id` plus `caption` and `parse_mode` when given, each reading back its argument; the reply decides the result as for `send_message` |
| Client.SendMessageContract | src/telegram_post/client.py:62-83 | for a client made from a token: the URL, the body's keys, the `<status>: <body>` error for a non-ok reply and the result with its link for an ok one |
| Client.SendPhotoRejectsBeforeUpload | src/telegram_post/client.py:98 | no request is made exactly when the suffix is unsupported or the file is too large, and the error is then a validation error |
| Client.SendPhotoContract | src/telegram_post/client.py:98-120 | for an acceptable image and a client made from a token: the URL, the file field, the form keys, the error message for a non-ok reply and the result with its link for an ok one |
| Client.PostResultOnlyFromOkReply | src/telegram_post/client.py:112-120 | a `PostResult` arises only from a sent request with an ok reply and carries its message id; a non-ok reply always gives the HTTP error |
| Dispatch.ReadPostText | src/telegram_post/cli.py:43-49 | a non-empty positional text wins, then the stripped file contents, then stripped standard input, which is read only in that last case |
| Dispatch.Caption | src/telegram_post/cli.py:86-89 | the caption is never empty; it is the positional text when that is non-empty, else the stripped `--from-file` contents if given and non-empty, else none |
| Dispatch.Decide | src/telegram_post/cli.py:72-93 | an image that exists is always planned for upload, with its caption; a missing image stops the run with `ImageNotFound`; without an image the post text is sent exactly when it is non-empty, else the run stops with `EmptyText`; standard input is read only as `_read_post_text` does; every planned call targets the normalised channel with the given parse mode |
| Dispatch.Proceed | src/telegram_post/cli.py:72-102 | once the token is known, the run calls `sys.exit(1)` exactly when it sends nothing and never for want of a token; whatever it sends goes to the normalised channel; success is reported only after an ok reply |
| Dispatch.Finish | src/telegram_post/cli.py:90-102 | a successful call prints the success text; only the photo call turns a validation error into `sys.exit(1)`; every other error propagates |
| Dispatch.Execute | src/telegram_post/cli.py:84-102 | an early stop sends nothing and calls `sys.exit(1)` with its reason |
| Dispatch.ExecuteRequest | src/telegram_post/cli.py:84-100 | the exact request sent for each plan; a photo request is missing exactly when the image is rejected, and the run then calls `sys.exit(1)` with the check's error |
| Dispatch.ExecuteOutcome | src/telegram_post/cli.py:90-102 | once a request is sent, a non-ok reply raises the HTTP error and an ok reply prints the link of the new message |
| Dispatch.ExecuteFields | src/telegram_post/cli.py:90-100 | any request sent carries the planned chat id and parse mode |
| Dispatch.ChannelIsNormalized | src/telegram_post/cli.py:72 | whatever is sent goes to the normalised channel, with the parse mode passed through |
| Dispatch.MissingImageStopsEarly | src/telegram_post/cli.py:74-77 | with a missing image file the run calls `sys.exit(1)` before any text is read or any request is sent |
| Dispatch.TextPriority | src/telegram_post/cli.py:79-82 | without an image: the text's priority order, standard input read only as the last resort, `sys.exit(1)` with nothing sent for empty text, and otherwise that text sent |
| Dispatch.PhotoCaption | src/telegram_post/cli.py:86-93 | with an existing image: no standard input; the photo is uploaded exactly when the pre-flight check passes; the file is in `photo`, and the caption is the positional text, else the non-empty stripped file contents, else none |
| Dispatch.RejectedImageExits | src/telegram_post/cli.py:90-96 | with a rejected image the run calls `sys.exit(1)` with the check's error and nothing uploaded |
| Dispatch.HttpErrorsPropagate | src/telegram_post/cli.py:97-100 | a non-ok reply is not caught and propagates as the HTTP error |
| Dispatch.SuccessPrintsLink | src/telegram_post/cli.py:102 | success is printed only after an ok reply and shows the link of the new message in the normalised channel |
| Dispatch.ExitReasons | src/telegram_post/cli.py:74-96 | `sys.exit(1)` is called exactly for a missing image, for empty text without an image, or for an existing image the pre-flight check rejects; exactly then nothing was sent, and never for a missing token once the token is known |
| PosterCli.ResetKeys | src/telegram_post/cli.py:56-57 | `--reset-keys` removes the token and keeps every other key |
| PosterCli.ResolveToken | src/telegram_post/cli.py:56-71 | the user is asked exactly when no non-empty token is stored after any reset; a stored token is used as is; an asked-for token is the non-empty answer; a token is never empty |
| PosterCli.Main | src/telegram_post/cli.py:52-102 | the user is asked exactly when the token resolution asks; the missing-token exit happens exactly when no token results, and then nothing is read or sent |
| PosterCli.ResetForcesPrompt | src/telegram_post/cli.py:56-71 | with `--reset-keys` the user is always asked, and an empty answer ends the run even when a token had been stored |
| PosterCli.MissingTokenStopsFirst | src/telegram_post/cli.py:59-72 | with no usable stored token and an empty answer, the run calls `sys.exit(1)` before anything is read or sent |
| PosterCli.StoredTokenUsed | src/telegram_post/cli.py:59-71 | a stored token is used without asking, and the run is the shared flow under that token |
| PosterCli.TokenThenProceed | src/telegram_post/cli.py:71-102 | once a token is known, the run is the shared flow under that token |
| EnvCli.Main | src/tg/cli.py:56-59 | with an unset or empty `BOT_TOKEN` the run calls `sys.exit(1)` with nothing read or sent |
| EnvCli.TokenCheckedFirst | src/tg/cli.py:56-59 | the missing-token exit happens exactly when `BOT_TOKEN` is unset or empty |
| EnvCli.RequestsUseEnvToken | src/tg/cli.py:73 | every request goes to the `sendMessage` or `sendPhoto` endpoint of the environment's token |
| EnvCli.ChannelIsNormalized | src/tg/cli.py:61 | whatever is sent goes to the normalised channel, with the parse mode passed through |
| EnvCli.MissingImageStopsEarly | src/tg/cli.py:63-66 | with a missing image file the run calls `sys.exit(1)` before any text is read or any request is sent |
| EnvCli.TextPriority | src/tg/cli.py:68-71 | without an image: positional text, then file, then standard input; empty text leads to `sys.exit(1)` with nothing sent |
| EnvCli.PhotoCaption | src/tg/cli.py:75-85 | with an existing image: no standard input, the photo uploaded exactly when the pre-flight check passes, the caption's priority order, and `sys.exit(1)` without upload for a rejected image |
| EnvCli.SuccessPrintsLink | src/tg/cli.py:91 | success is printed only after an ok reply and shows the link of the new message |
| EnvCli.VariantsAgree | src/tg/cli.py:61-91 | given the same non-empty token, the environment entry point and the config-store entry point behave identically |

## Left out

- HTTP transport is left out: the session, connection errors, timeouts and retries. The session is the `respond` parameter.
- Client.Interpret: takes `resp.ok` as a field of the reply; in `requests` it is false exactly for status codes from 400 to 599.
- Client.Interpret: models `resp.json()["result"]["message_id"]` as an already decoded integer. A reply without that key or with a malformed body is not modelled; the program would raise `KeyError` or a JSON error there.
- Decimal.IntToString: message ids are unbounded integers; Telegram's 64-bit ids fit in them.
- Client.TenthsOfMiB: rounds the exact quotient `size / 2**20`. Python first converts the size to a float, which is exact only below 2**53 bytes; larger files are not modelled.
- Client.ValidateImage: `path.stat()` is the `size` field of `ImageFile`. A file removed between the existence check and `stat` is not modelled.
- Client.SendPhoto: the file is named by its path in the `photo` file field. Opening and streaming it are I/O, and an open that fails is not modelled.
- Paths.NameShape: `PurePosixPath` collapses trailing and repeated slashes and `.` components before taking the name. The model takes the text after the last '/' as it stands, so a path ending in '/' has an empty name here.
- Paths.Name, Paths.Suffix: the source uses `pathlib.Path`, which is `WindowsPath` on Windows, where `\` also separates path components and a drive letter may lead the path. The model is the POSIX behaviour only, with '/' as the sole separator.
- Text.Strip: strips the ASCII whitespace characters Python's `str.strip` removes (space, tab to carriage return, 0x1C to 0x1F). Unicode whitespace such as U+00A0 or U+2028 is kept.
- Text.Lower: maps only A-Z. Python's `str.lower` also lower-cases non-ASCII letters. No accept-or-reject verdict depends on this, but the suffix a format error reports does: for `a.É` the model reports `.É` where Python reports `.é`.
- Argument parsing is left out: argparse, `--channel` being required and the `--parse-mode` choices. Arguments arrive as an already parsed `Args`. `--image` given at all counts as truthy, as a `pathlib.Path` always does.
- Printed text other than the success output is left out: the first-time setup banner, the "Enter message text" prompt and the error messages on standard error. An `Exit1` outcome names its reason instead; for a rejected image the printed text is that error's `Message()`.
- Reading `--from-file` is left out: a missing or undecodable file is not modelled. Its contents arrive in `World.fromFileText`. The file is read at most once per run, either for the message text or for the caption.
- The config store is left out. `ConfigStore`, `JsonConfigStore` and `prompt_if_missing` (`src/telegram_post/config.py`) are not part of this model. The assumption is that `prompt_if_missing` returns the stored token when it is non-empty and otherwise asks. An empty answer ends the run with exit status 1, and a non-empty answer is used. Writing the answer back to the store is not modelled.
- PosterCli.ResolveToken: assumes `prompt_if_missing` exits on an empty answer. Its source is not part of this model.
- `.env` loading (`dotenv.load_dotenv`) is left out. The environment map is taken after it has run.
- The `TelegramAPI` protocol is left out: it only declares the two methods.
- `src/tg/client.py` is not part of this model. The environment entry point is assumed to use a client identical to `src/telegram_post/client.py`.
- Exceptions are not modelled as such. A non-ok reply propagates from `main()` as an uncaught `requests.HTTPError`, which the model records as `Raised(HttpError(status, body))`.
- Dispatch.ExitReasons: `Exit1` stands for a call of `sys.exit(1)` only. A `Raised` ending also terminates the Python process with exit status 1, after a traceback, and in that case a request has been sent. So the statement "nothing is sent exactly when the run ends in `Exit1`" holds for `sys.exit(1)`, not for the process's exit status.
