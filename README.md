# shivabot: command resolution for `/add`

A Dafny model of the part of the ShivaTube Telegram bot (`main.py`) that
decides what to download and where to send it:

- the `ALLOWED` list built at start-up from the comma-separated
  `ALLOWED_CHANNELS` value: blank pieces skipped, numeric pieces read with
  `int()`, other pieces turned into `@handle`s;
- the `QUALITY_FMT` table of six yt-dlp format expressions;
- `pick_quality`: lower-case the token, drop trailing `p`s, look the key up
  as it is and with one `p` put back;
- `pick_channel`: the same numeric/`@` normalisation as the start-up loop,
  and a destination only when it is allowed;
- the argument loop of `add`: each argument after the URL is tried as a
  quality, then as a destination; the first argument that is neither ends
  the command; later arguments override earlier ones; the format is the
  chosen quality's expression or `best[filesize<=MAX_SIZE]/best`.

Modules:

- `Wrappers`: `Option` and `Result`. `ValueError` is the Python exception
  `int()` raises.
- `Strings`: Python's `strip`, `lstrip(c)`, `rstrip(c)`, `split(",")`,
  `lower` and `startswith`.
- `Decimal`: `isdigit`, `int()` on a checked token, and `str()` of an
  integer.
- `Destinations`: destinations, their normalisation, `pick_channel`, and
  the start-up loop. The loop is the method `BuildAllowed`, proved against
  the function `ParseAllowed`.
- `Quality`: the table, its tiers and `pick_quality`.
- `AddCommand`: the argument loop. It is the method `Add`, proved against
  the function `Resolve`.
- `Scenarios`: whole commands and their outcomes.

Behaviour of the code that is easy to miss:

- A destination that is not allowed is not a separate "unauthorized"
  error. `pick_channel` gives `None`, and the command answers
  `Unrecognised arg: <arg>` (`Outcome.Unrecognised`).
- A token such as `--5` passes the `lstrip("-").isdigit()` test. `int()`
  then raises `ValueError`.
  - At start-up this stops the bot: `ParseAllowed` gives `ValueError`.
  - Inside `/add` the exception escapes the handler: `Outcome.Raised`.
- The size limit appears only inside the default format expression. The
  code has no size check after the download and no file cleanup, so
  neither is modelled.

## Model

| member | source | states |
|---|---|---|
| Strings.LStripCharSpec | main.py:31 | `s.lstrip(c)` is a suffix of `s`; everything removed is `c`; the result does not start with `c` |
| Strings.RStripCharSpec | main.py:67 | `s.rstrip(c)` is a prefix of `s`; everything removed is `c`; the result does not end with `c` |
| Strings.RStripCharAppend | main.py:67 | one more trailing `c` does not change `rstrip(c)` |
| Strings.LStripSpec | main.py:28 | left whitespace strip: a suffix, only whitespace removed, no leading whitespace left |
| Strings.RStripSpec | main.py:28 | right whitespace strip: a prefix, only whitespace removed, no trailing whitespace left |
| Strings.StripSpec | main.py:28 | `part.strip()` is a middle slice with only whitespace on either side and no whitespace at either end |
| Strings.StripBlank | main.py:28-30 | a piece strips to empty exactly when every character is whitespace |
| Strings.LowerIdempotent | main.py:67 | after `lower()` no ASCII capital and no Kelvin sign is left, so lower-casing twice is lower-casing once |
| Strings.JoinSplit | main.py:27 | the pieces of `split(",")` contain no comma, and joining them with commas gives the input back |
| Strings.SplitJoin | main.py:27 | splitting comma-free pieces joined by commas gives the pieces back |
| Strings.SplitFree | main.py:27 | a value with no comma splits into itself alone |
| Strings.SplitPrefix | main.py:27 | a comma-free head and a comma split into the head followed by the split of the rest |
| Strings.JoinAppend | main.py:27 | joining two lists of pieces is joining each and putting a comma between |
| Strings.SplitConcat | main.py:27 | splitting `a + "," + b` is splitting `a` followed by splitting `b` |
| Decimal.NatDigits | main.py:103 | the decimal digits of `n` are digits, have value `n` and have no leading zero |
| Decimal.IntLiteral | main.py:32 | `int()` on a token that passed the digit test fails exactly on two or more leading dashes; otherwise it gives the digits' value, negated after one `-` |
| Decimal.LeadingZero | main.py:32 | a leading `0` does not change a number's value |
| Decimal.IntRoundTrip | main.py:32 | `int(str(n)) == n` for every integer, and `str(n)` passes the digit test |
| Decimal.IntToStringInjective | main.py:103 | different integers are written differently |
| Destinations.Normalise | main.py:31-36 | a normalised piece is an integer or a handle starting with `@`; a failure carries the token `int()` rejected |
| Destinations.NormaliseNumeric | main.py:31-32 | normalising fails exactly on a numeric token with two leading dashes; it gives an integer exactly for numeric tokens, with the signed digit value |
| Destinations.NormaliseHandle | main.py:34-36 | a token starting with `@` stays as it is; any other non-numeric token gets `@` in front |
| Destinations.NormaliseRender | main.py:31-36 | every well-formed destination, written out, normalises back to itself |
| Destinations.NormaliseLeadingZero | main.py:58-59 | leading zeros do not change which id a token names (`"007"` is id 7) |
| Destinations.PickChannel | main.py:57-63 | `pick_channel` raises exactly when normalising raises; it returns a destination exactly when the normalised token is allowed, and then that destination, which is in `ALLOWED` (so nothing when `ALLOWED` is empty) |
| Destinations.ParseSegment | main.py:28-36 | one piece of the value is skipped exactly when it is blank; a non-blank piece fails exactly when `int()` rejects its stripped text, and otherwise becomes the well-formed entry its stripped text normalises to |
| Destinations.ParseAllowed | main.py:26-36 | the allow-list has at most one entry per comma-separated piece |
| Destinations.BuildAllowed | main.py:26-36 | the start-up loop builds exactly `ParseAllowed` of the value, stopping at the first `int()` failure |
| Destinations.CollectFrom | main.py:32-36 | every entry of the list comes from some piece |
| Destinations.CollectOk | main.py:27-36 | the list is built exactly when no piece fails |
| Destinations.CollectContains | main.py:32-36 | every entry a piece yields is in the list |
| Destinations.CollectAppend | main.py:27-36 | the list for two runs of pieces is the first run's entries followed by the second run's, and the first failure wins |
| Destinations.ParseAllowedConcat | main.py:27-36 | entries keep the order of the pieces: parsing `a + "," + b` is `a`'s entries then `b`'s |
| Destinations.ParseAllowedSingle | main.py:28-36 | a value with no comma gives no entry when blank and its single entry otherwise |
| Destinations.ParseAllowedEntries | main.py:31-36 | every entry is an integer or an `@` handle, read from some non-blank piece |
| Destinations.ParseAllowedOk | main.py:27-36 | the bot starts exactly when no piece fails `int()` |
| Destinations.ConfigAndLookupAgree | main.py:31-36 | any non-blank stripped piece, given to `pick_channel`, selects exactly the entry the start-up loop made of it |
| Quality.TableKeys | main.py:40-47 | the table's keys are exactly the six tier labels |
| Quality.SelectorInjective | main.py:40-47 | different tiers have different format expressions |
| Quality.PickQuality | main.py:66-72 | `pick_quality` gives `None` or one of the table's expressions |
| Quality.RStripPs | main.py:67 | stripping trailing `p`s after a stem gives the stem back |
| Quality.LookupStem | main.py:68-71 | each tier's stem finds that tier's expression |
| Quality.LookupOnlyStem | main.py:68-72 | a key without trailing `p` finds a tier's expression only when it is that tier's stem |
| Quality.PickQualityTier | main.py:66-72 | `pick_quality` gives a tier's expression exactly when the lower-cased token is that tier's stem followed by any number of `p`s |
| Quality.PickQualityNone | main.py:66-72 | `pick_quality` gives `None` exactly when the token spells no tier |
| Quality.PickQualityTrailingP | main.py:67 | an extra trailing `p` or `P` does not change the answer |
| Quality.PickQualityLower | main.py:67 | case does not change the answer |
| Quality.PickQuality720 | main.py:43 | `720`, `720p`, `720P` and `720pp` all give the 720p expression |
| Quality.PickQuality2K | main.py:45 | `2K` and `2kp` give the 2k expression |
| Quality.PickQuality1440 | main.py:45 | `1440p` is not a tier, although the 2k expression caps the height at 1440 |
| Quality.PickQualityFirstChar | main.py:66-72 | a token whose first lower-cased character starts no stem (an id or a handle) is not a quality |
| AddCommand.Classify | main.py:89-96 | an argument is a quality exactly when `pick_quality` finds it, and then carries exactly that table expression; otherwise it is a destination exactly when `pick_channel` returns one, and then it is that allowed, normalised destination; it is unknown exactly when `pick_channel` returns `None`; an `int()` failure carries the argument |
| AddCommand.ScanArgs | main.py:88-98 | the loop stops only on an unrecognised argument or an `int()` failure |
| AddCommand.Resolve | main.py:78-103 | the usage reply exactly when there are no arguments; an unrecognised argument is one of those after the URL; a download is of the first argument |
| AddCommand.Add | main.py:78-103 | the `/add` handler ends exactly as `Resolve` says: usage, an unrecognised argument, an exception, or a download request |
| AddCommand.ScanSettled | main.py:88-98 | the loop runs to the end exactly when it accepts every argument |
| AddCommand.ScanStops | main.py:88-98 | the first argument the loop does not accept decides how the command ends; nothing after it is read |
| AddCommand.ScanLastWins | main.py:88-96 | at the end of the loop the target is the last destination argument and the expression the last quality argument, or the starting ones when there are none |
| AddCommand.ScanStaysAllowed | main.py:88-96 | the loop only moves the target to allowed destinations and the expression to table expressions |
| AddCommand.ScanAppend | main.py:88-98 | reading two runs of arguments is reading the first and, unless it stopped, going on with the second |
| AddCommand.ResolveDownloads | main.py:79-100 | no arguments give the usage reply; a download happens exactly when every argument after the URL is a quality or an allowed destination |
| AddCommand.ResolveRejects | main.py:88-98 | the first argument that is neither a quality nor an allowed destination gives `Unrecognised arg` (or the `int()` exception), with no download |
| AddCommand.ResolveRequest | main.py:83-103 | the URL is the first argument; the target is allowed, or the invoking chat when `ALLOWED` is empty; the format is a table expression or the size-capped default; the last destination and the last quality win; with none, `ALLOWED[0]`/the chat and the default |
| AddCommand.ResolveSwap | main.py:88-96 | a quality argument and a destination argument next to each other can change places without changing the outcome |
| AddCommand.DefaultFormatNotTier | main.py:103 | the size-capped default is none of the table's expressions |
| AddCommand.DefaultFormatInjective | main.py:103 | different size limits give different default expressions |
| Scenarios.QualityToInvokingChat | main.py:5-6 | `/add <url> 480p` with no allow-list downloads the 480p expression to the invoking chat |
| Scenarios.HandleWithDefaultFormat | main.py:5-7 | `/add <url> @news` with `@news` allowed downloads the 2 GB-capped default to `@news` |
| Scenarios.NegativeIdIsChannel | main.py:89-95 | a negative channel id, written out, is read as that channel under any allow-list that contains it |
| Scenarios.QualityArg720 | main.py:89-92 | `720p` is read as the 720p quality whatever the allow-list |
| Scenarios.QualityThenChannel | main.py:88-96 | `/add <url> 720p <id>` downloads the 720p expression to that channel |
| Scenarios.ChannelThenQuality | main.py:88-96 | `/add <url> <id> 720p` does the same |
| Scenarios.UnknownArgument | main.py:97-98 | `/add foo bar` with `@bar` not allowed replies `Unrecognised arg: bar` |
| Scenarios.QualityBeforeChannel | main.py:89-92 | `720` is read as a quality even when `@720` is allowed |
| Scenarios.LeadingZerosSelectId | main.py:58-60 | `007` selects the allowed id 7 |
| Scenarios.DoubleDashRaises | main.py:58-59 | `--5` makes `int()` raise inside the handler |
| Scenarios.DoubleDashStopsStartUp | main.py:27-32 | `ALLOWED_CHANNELS=--5` makes `int()` raise while the allow-list is built, so the bot does not start |
| Scenarios.EmptyAllowListTargetsChat | main.py:85-95 | with an empty allow-list every download goes to the invoking chat |

## Left out

- Reading `BOT_TOKEN`, `ALLOWED_CHANNELS` and `MAX_FILESIZE` from the environment (main.py:22-24, 27, 38). The allow-list value, the size limit and the invoking chat id are parameters. The `int()` parse of `MAX_FILESIZE` is not modelled.
- The yt-dlp options other than `format` (output template, geo bypass) and the download itself (main.py:102-117). These are a foreign library doing network and file I/O. The model stops at the request: URL, format expression and target.
- The upload with `send_video`, the `reply_text` notices ("Downloading…", the usage text), the `Updater`/`CommandHandler` wiring, polling and logging. These are Telegram transport and process set-up. The usage reply and the `Unrecognised arg` reply are kept as outcomes.
- A size check after the download and removal of the downloaded file: the code does neither.
- What the Telegram library does with the `ValueError` that escapes the handler. The model ends the command with `Outcome.Raised`.
- Destinations.Normalise: treats only ASCII digits as digits. Python's `isdigit` also accepts other Unicode digits: `pick_channel` and the start-up loop read `"٧"` as id 7, and `int()` raises on `"²"`. The model turns both into the handles `"@٧"` and `"@²"`.
- Decimal.IntLiteral: does not model Python's limit on the number of digits `int()` converts.
- Strings.Lower: lowers ASCII letters and the Kelvin sign only, one character for one. Python's full Unicode case mapping, under which `"İ".lower()` is two characters, is left out. No other character lowers to a character that occurs in a table key, so the answers of `pick_quality` are unaffected.
- Concurrency between overlapping commands. The handler has no shared mutable state; `ALLOWED` is read-only after start-up.
