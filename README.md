# QR code generator: verified model of its string logic

`qr_generator.py` turns a URL into a QR code image. Almost all of its work
is delegated to the `qrcode` and PIL libraries. What remains is a small
amount of string logic, and this project models it in Dafny and proves
its properties:

- **URL normalisation** (`validate_url`, module `Url`). It strips
  surrounding whitespace. It then prepends `https://` unless the text
  already starts with `http://` or `https://`. The scheme test is
  case-sensitive.
- **Output-filename resolution** (module `Filename`). With no name, the
  default is `qr_code_<YYYYMMDD_HHMMSS>.png`. Any name that does not end
  in `.png` in some letter case gets `.png` appended. The current time
  is a parameter (`Timestamp`).
- **Input selection** in `main` (module `Cli`). Command-line arguments are
  used first. Otherwise the two interactive answers are used, and a blank
  URL answer ends the run. `Plan` joins selection, normalisation and
  filename resolution into the URL and filename handed to the encoder.

Python's `str.strip()` and `str.lower()` are modelled over ASCII
(module `Text`). The whitespace set is the characters below 0x80 that
`str.isspace()` accepts: 0x09–0x0D and 0x1C–0x20.

Two behaviours of the code that are easy to miss:
- An empty or blank URL given as a command-line argument is not rejected.
  It is normalised to `https://`. Only the interactive prompt rejects a
  blank URL.
- An empty filename argument (`argv[2] == ""`) is not treated as
  "no filename". It resolves to `.png`.

Files: `wrappers.dfy` (Option), `text.dfy`, `url.dfy`, `filename.dfy`,
`cli.dfy`.

## Model

| member | source | states |
|---|---|---|
| Text.Strip | qr_generator.py:75 | `strip()` returns a string with no whitespace at either end, no longer than its input |
| Text.StripRemovesOnlySpace | qr_generator.py:75 | the input is the stripped result with only whitespace before and after it |
| Text.StripUnique | qr_generator.py:75 | a stripped string surrounded by any whitespace strips back to exactly itself, so the two facts above determine `strip()` |
| Text.StripIdempotent | qr_generator.py:96 | stripping twice, as the interactive path does (line 96, then line 75), equals stripping once |
| Text.StripAbsorbsSpace | qr_generator.py:75 | adding whitespace around the input does not change the result of `strip()` |
| Text.StripEmptyIffAllSpace | qr_generator.py:96-97 | `strip()` gives the empty string exactly when the input is all whitespace, the condition behind `if not url` |
| Text.Lower | qr_generator.py:46 | `lower()` keeps the length and lowers each ASCII capital, leaving other characters alone |
| Url.HasScheme | qr_generator.py:78 | the scheme test passes exactly when the text starts with lower-case `http` followed by `://` or `s://` |
| Url.ValidateUrl | qr_generator.py:65-81 | the result always starts with `http://` or `https://` and ends with the stripped input; it equals the stripped input exactly when that already has a scheme, otherwise `https://` plus it |
| Url.ValidateUrlIsStripped | qr_generator.py:75-81 | the normalised URL has no surrounding whitespace |
| Url.ValidateUrlIdempotent | qr_generator.py:75-81 | normalising a normalised URL changes nothing |
| Url.ValidateUrlIgnoresSurroundingSpace | qr_generator.py:75 | whitespace around the input, or stripping it first, does not change the normalised URL |
| Url.BlankUrlBecomesBarePrefix | qr_generator.py:75-79 | all-whitespace input, including empty input, gives exactly `https://` |
| Url.UpperCaseSchemeIsPrefixed | qr_generator.py:78-79 | `HTTP://…` is not recognised as a scheme and gets `https://` in front |
| Url.BareHostGetsScheme | qr_generator.py:78-79 | `example.com` becomes `https://example.com` |
| Url.SchemeKept | qr_generator.py:78 | `https://openai.com` is returned unchanged |
| Filename.PadDigits | qr_generator.py:42 | zero-padded rendering gives exactly `width` decimal digits that read back as the number |
| Filename.FormatTimestamp | qr_generator.py:42 | `%Y%m%d_%H%M%S` gives 15 characters: 8 digits, `_`, 6 digits |
| Filename.ParseFormatTimestamp | qr_generator.py:42 | every field of the timestamp can be read back from its rendering |
| Filename.DefaultName | qr_generator.py:41-43 | the default name is 27 characters: `qr_code_`, the 15-character timestamp, `.png` |
| Filename.DefaultNameInjective | qr_generator.py:42-43 | distinct local clock readings (to the second) give distinct default names |
| Filename.HasPngExtension | qr_generator.py:46 | `lower().endswith('.png')` holds exactly when the last four characters are `.` and then p, n, g, each in either case |
| Filename.EnsurePngExtension | qr_generator.py:46-47 | the result ends in `.png` ignoring case and starts with the given name; a name that already ends in `.png` in any case is kept, and any other name gets `.png` appended |
| Filename.ResolveFilename | qr_generator.py:41-47 | the resolved name always ends in `.png` ignoring case, and a supplied name is its prefix |
| Filename.DefaultNameIsFinal | qr_generator.py:41-47 | with no name supplied, the result is exactly the default name, with no second `.png` |
| Filename.SuppliedNameResolution | qr_generator.py:46-47 | a supplied `.png` name (any case) is unchanged; any other gets exactly `.png`, four characters, appended once |
| Filename.ResolveFilenameIdempotent | qr_generator.py:46-47 | resolving an already resolved name returns it unchanged |
| Filename.UpperCaseExtensionKept | qr_generator.py:46 | `<stem>.PNG` is kept with its upper-case extension |
| Filename.MissingExtensionAdded | qr_generator.py:46-47 | `mycode` becomes `mycode.png` |
| Cli.SelectRequest | qr_generator.py:90-104 | with an argument, the URL is `argv[1]` as given and the filename is `argv[2]` or none; without one, the URL is the stripped answer, the run stops exactly when it is blank, and a blank filename answer means none |
| Cli.ExtraArgumentsIgnored | qr_generator.py:90-93 | arguments after the second, and the prompts, do not affect the selection when an argument is given |
| Cli.Plan | qr_generator.py:90-112 | the run stops early exactly in interactive mode with a blank URL; otherwise the URL has a scheme and no surrounding whitespace, and the filename ends in `.png`; a valid clock reading is required only when the default name is built |
| Cli.InteractiveMatchesCommandLine | qr_generator.py:90-107 | typed answers give the same URL and filename as passing the URL answer as the first argument and the stripped filename answer as the second, or no second argument when that answer is blank (a raw, unstripped filename argument would differ) |
| Cli.EmptyUrlArgumentAccepted | qr_generator.py:90-107 | an empty URL argument is encoded as `https://` under the default name |
| Cli.EmptyFilenameArgument | qr_generator.py:93 | an empty filename argument is kept as a name and resolves to `.png` |
| Cli.BareHostWithDefaultName | qr_generator.py:90-112 | `example.com` with no filename gives `https://example.com` under the default name |
| Cli.SchemeKeptAndExtensionAdded | qr_generator.py:90-112 | `https://openai.com mycode` gives `https://openai.com` saved as `mycode.png` |

## Left out

- QR symbol construction (lines 26-38) is done by the external `qrcode` library and is not modelled. This covers the version, error-correction, box-size and border settings and the fit mode.
- Saving the image with PIL (line 53) is file I/O in an external library and is not modelled.
- The output path (lines 50-51) is not modelled. Joining the script's directory with the filename uses OS path rules from `os.path`.
- `datetime.now()` (line 42) is a clock read. The model takes the local clock reading as a `Timestamp` parameter. That reading carries no time zone, so it repeats during a daylight-saving fall-back hour or after the clock is set back. Two runs more than a second apart can then get the same default name, and the second save (line 53) overwrites the first. The model promises distinct names only for distinct readings.
- Console output, `input()` prompts and the `try`/`except` handlers (lines 55-63, 85-86, 109-122) are not modelled. This includes the `KeyboardInterrupt` farewell and the `None` return after a library failure. The prompt answers are parameters of `SelectRequest` and `Plan`.
- Text.Strip: strips ASCII whitespace only. Python's `strip()` also removes non-ASCII whitespace such as U+00A0 and U+2028.
- Text.Lower: lowers ASCII letters only. Python's `lower()` also lowers other Unicode letters. This does not affect its one use, the `.png` test: no non-ASCII character lowers to `.`, `p`, `n` or `g`, so `HasPngExtension` decides that test as Python does for every string.
- Filename.FormatTimestamp: requires a four-digit year (1000-9999). `%Y` is not fixed-width outside that range.
