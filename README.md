# imgswift command dispatcher in Dafny

imgswift is a small command-line tool with four subcommands: `resize`, `dpi`,
`convert` and `compress`. All pixel work is done by the `image` crate. This
project models the tool's own logic in `src/main.rs`. That logic takes the
argument vector and decides one thing: which usage text to print, which
error or panic to end with, or which calls to make into the image library,
in what order and with which paths, formats and numbers.

`src/main.rs` is a chain of immutable bindings, matches and early returns,
so the model is made of pure functions:

- `numeric.dfy` (module `Numeric`) models `str::parse` into `u32` and `u8`.
  An optional `+` is accepted, then decimal digits. A lone sign is an
  invalid digit. Any other non-digit character is an invalid digit too,
  unless the digits before it already overflow. A value above the type's
  maximum is an overflow. The parser is proved against a right-to-left definition of the
  value of a digit string, and against printing (`Decimal`): a printed
  number parses back to itself.
- `formats.dfy` (module `Formats`) models `get_format` and the format-name
  match of `convert`. `Path::extension` is modelled in three steps. First,
  trailing `/` separators and trailing `.` components are dropped
  (`TrimTrailing`). Then the file name is the text after the last `/`; an
  empty name, `.` and `..` have none. Last, the extension is the text after
  the last dot of the file name, unless there is no dot or that dot is the
  name's first character. This is proved equal to a suffix test on the
  trimmed path (`ExtensionIsDottedSuffix`). So `GetFormat` gives JPEG exactly
  when the trimmed path ends in `.jpg` or `.jpeg` and that dot does not begin
  the final component, and likewise WebP for `.webp`; everything else is PNG.
  For example, `photo.jpg/` is JPEG, while `.jpg`, `dir/.jpg` and `photo.JPG`
  are PNG. `ConvertFormat` lowercases its argument first. It is proved to
  ignore case, and to agree with `get_format` on the lowercase extensions.
- `cli.dfy` (module `Cli`) holds `main` (`Dispatch`) and the four handlers.
  Each handler turns the arguments into an `Outcome`:
  - `Usage`: the full usage text is printed and the run succeeds.
  - `CommandUsage`: one handler's usage line is printed and the run succeeds.
  - `IndexOutOfRange`: an `args[i]` read past the end panics.
  - `BadNumber`: a `parse()?` fails.
  - `Planned`: a `Plan` of library calls (`Open`, `ResizeTo`,
    `SaveWithFormat`, `SaveByPath`) plus the confirmation message to print
    afterwards.

  `Execute` runs an outcome against a file world, given as the set of paths
  that open as images and the set of paths that can be written. It stops at
  the first failing call, which is what `?` does.

Every `args[i]` goes through a bounds-checked read (`At`). Because of that,
the handlers' argument-count guards can be checked instead of assumed. The
guards are a parameter, `Guards`:

- `AS_WRITTEN` is the counts the code tests (5 for `resize`, 4 for the
  others).
- `INTENDED` is the counts that cover the highest index each handler reads
  (6 and 5).

Most properties are proved for any guards, so they hold of the code as
written and of the corrected code alike.

Where the code does something other than a reader of its usage text
(`src/main.rs:26-33`) would expect, the model follows the code:

- The usage line `resize <input> <output> <width> <height>` suggests an
  image of exactly that size. The code calls `DynamicImage::resize`, which
  keeps the aspect ratio. The model records the requested size only.
- The usage lines name four arguments after `resize` and three after the
  other subcommands. With the program name and the subcommand that is six
  and five entries of `args`, but the guards test five and four. The code
  then reads one index further. See Findings.
- `dpi` saves in the format inferred from the output path, but the non-JPEG
  branch of `compress` does not. It calls the path-based `save`, so the
  `image` crate picks the format.
- A JPEG quality is commonly read as 0–100. The code accepts any `u8` and
  passes it on unclamped.
- The fall-through arm of `main` (line 19) yields `()` where the other arms
  yield a `Result`, so the code as shown does not type-check. The model
  takes the evident intent: print the usage text and succeed.

## Model

| member | source | states |
|---|---|---|
| `Numeric.ParseUnsigned` | src/main.rs:44-45 | A string parses exactly when it is an optional `+` followed by one or more decimal digits whose value fits the target type. The result is that value. Only the empty string is `Empty`. A well-formed literal that is too large is `PosOverflow`. |
| `Numeric.ParseErrorKinds` | src/main.rs:44-45 | A failed parse reports an overflow exactly when some run of leading digits, after the optional `+`, is already above the maximum. It reports an invalid digit exactly when the string is non-empty, is no literal, and no run of leading digits overflows. |
| `Numeric.ParseDecimalRoundTrip` | src/main.rs:63-69 | A number printed in decimal, with or without a leading `+`, parses back to itself when it fits the type, and overflows otherwise. |
| `Formats.ExtensionIsDottedSuffix` | src/main.rs:124 | For a non-empty candidate with no dot and no separator, the extension of a path is that candidate exactly when the trimmed path ends in `.` plus the candidate and the dot does not begin the final component. |
| `Formats.TrimTrailing` | src/main.rs:124 | The trimmed path is a prefix of the path, and only `/` and `.` characters are dropped. Unless it is the root `/` on its own, it ends in neither a separator nor a `/.` component, and a path that already ends in neither is left unchanged. Trimming stops at the longest such prefix: every longer prefix still ends in a separator or a `/.` component. |
| `Formats.Extension` | src/main.rs:124 | An extension holds no dot and no separator. The trimmed path ends in a dot followed by it, and that dot does not begin the final component. `ExtensionIsDottedSuffix` gives the converse. |
| `Formats.GetFormat` | src/main.rs:123-129 | Total: the result is always JPEG at quality 85, PNG or WebP. |
| `Formats.GetFormatBySuffix` | src/main.rs:123-129 | The inferred format is JPEG exactly when the trimmed path ends in `.jpg` or `.jpeg` and that dot does not begin the final component. It is WebP exactly when the same holds for `.webp`, and PNG in every other case: `.png`, a missing extension, any other extension. The test is case-sensitive. |
| `Formats.GetFormatOfNamedFile` | src/main.rs:124-128 | A file named `stem.e` has extension `e`, and its format is the one assigned to `e`. |
| `Formats.AsciiLower` | src/main.rs:81 | The lowercased name has the same length, and each character is the ASCII lowercase of the character at the same place. |
| `Formats.ConvertFormat` | src/main.rs:81-92 | A name is recognised exactly when its lowercase form is `jpg`, `jpeg`, `png` or `webp`. The chosen format is the one `get_format` assigns to that lowercase extension. |
| `Formats.ConvertFormatIgnoresCase` | src/main.rs:81 | Two names that differ only in ASCII letter case select the same format, or are both unsupported. |
| `Formats.ConvertAgreesWithExtension` | src/main.rs:84-92 | A recognised name, in any case, makes `convert` choose the format `get_format` infers from that name as a lowercase extension. The same name with a capital letter in it, used as an extension, falls back to PNG. |
| `Cli.CommandNamed` | src/main.rs:14-19 | A subcommand is selected only by an exact, case-sensitive match with its own word. Any other word selects none. |
| `Cli.NumberAt` | src/main.rs:44-45 | `args[i].parse()?` yields a value exactly when `args[i]` exists and parses, and the value is the parsed one. A missing argument is an index past the end. A parse error is reported at index `i` with the parser's error kind. |
| `Cli.ResizeImage` | src/main.rs:36-53 | Below its guard it returns the usage line. It plans work exactly when there are at least six arguments and both numbers fit `u32`. The plan opens `args[2]`, resizes to the parsed width and height, and saves by path to `args[3]`. Any other early return is a read past the end or a failed parse. |
| `Cli.ChangeDpi` | src/main.rs:55-71 | Below its guard it returns the usage line. It plans work exactly when `args[4]` is present and fits `u32`. The plan saves `args[2]`'s image to `args[3]` in the format inferred from `args[3]`. The dpi appears only in the message. |
| `Cli.ConvertImage` | src/main.rs:73-97 | Below its guard it returns the usage line. With `args[4]` present it always opens `args[2]`. It then saves to `args[3]` in the named format, or prints the supported list without saving. Its only other early return is a read past the end. |
| `Cli.CompressImage` | src/main.rs:99-121 | Below its guard it returns the usage line. It plans work exactly when `args[4]` fits `u8`. For an output path inferred as JPEG it saves as JPEG at the parsed quality. Otherwise it saves by path with the JPEG-only message. |
| `Cli.CompressPlan` | src/main.rs:110-119 | The compress plan opens the input and then makes one save, to the output path. |
| `Cli.Dispatch` | src/main.rs:6-23 | The usage text results exactly when there is no subcommand or no exact match. A usage line is only for a known command below its guard. A panic is always a read past the end. A number error is at index 4 or 5. Every plan opens `args[2]` first and nothing else, and saves only to `args[3]`. |
| `Cli.Completed` | src/main.rs:47-49 | Gives the number of library calls that succeed before the first failure. Every call before it succeeds, and the call at it fails. |
| `Cli.Execute` | src/main.rs:9-22 | The usage outcomes print their text, succeed and touch no file. Only a read past the end panics, and a number error fails. Only a plan performs effects, and what it performs is a prefix of the plan whose calls all succeeded. A plan succeeds exactly when all its calls succeed, and then it performs every call and prints its confirmation. A failed plan stopped at a failing call. |
| `Cli.NoCommandPrintsUsage` | src/main.rs:9-19 | With fewer than two arguments or an unknown subcommand, the run prints the usage text, succeeds and touches no file. |
| `Cli.ShortCommandPrintsItsUsage` | src/main.rs:37-40 | A known subcommand with fewer arguments than its guard prints its own usage line, succeeds and touches no file. |
| `Cli.BadNumberTouchesNoFile` | src/main.rs:44-47 | A number error fails the run before any image is read or written. |
| `Cli.NumbersParsedBeforeOpening` | src/main.rs:44-47 | Once the guard has passed and the numeric argument is present, a width, height, dpi or quality that does not parse is reported at its index, with the parser's error kind. This holds whatever the paths are. |
| `Cli.QualityAboveByteIsRejected` | src/main.rs:107-109 | A quality above 255 (for example `256`) is an overflow, and nothing is opened or saved. |
| `Cli.QualityPassedUnclamped` | src/main.rs:107-113 | Every quality from 0 to 255, values above 100 included, reaches the JPEG save unchanged when the output path names a JPEG file. |
| `Cli.QualityIgnoredUnlessJpeg` | src/main.rs:110-118 | When the output path is not inferred as JPEG, two `compress` runs that differ only in a valid quality give the same outcome. |
| `Cli.DpiValueNotSaved` | src/main.rs:63-69 | Two `dpi` runs that differ only in the dpi value perform the same effects. The save uses the format inferred from the output path. |
| `Cli.ConvertIgnoresOutputExtension` | src/main.rs:81-94 | `convert` saves in the format its argument names, whatever extension the output path has. |
| `Cli.UnreadableInputFails` | src/main.rs:83 | If the input cannot be opened, every plan fails before anything is saved. This includes an unsupported `convert` format. |
| `Cli.UnsupportedFormatSavesNothing` | src/main.rs:83-91 | An unsupported `convert` format with a readable input opens the input, prints the supported list and succeeds without saving. |
| `Cli.ResizeGuardReadsPastEnd` | src/main.rs:37-45 | With the guards as written, `resize` panics exactly when there are five arguments and the width parses. The panic reads index 5 of 5. |
| `Cli.ShortGuardsReadPastEnd` | src/main.rs:56-63 | With the guards as written, `dpi`, `convert` and `compress` panic exactly when there are four arguments. The panic reads index 4 of 4. |
| `Cli.IntendedGuardsStayInRange` | src/main.rs:37-45 | With guards of 6 and 5, no argument vector reads past the end. These guards differ from the written ones only on vectors one argument short, which now get their usage line. |

## Left out

- Image work in the `image` crate (`open`, decoding, `resize` with Lanczos3, `save`, `save_with_format`) is opaque effect records. Nothing is claimed about pixels or output dimensions, and `DynamicImage::resize` keeps the aspect ratio.
- What `save` does with an unrecognised extension, and how it picks a format from the path, is library behaviour. `SaveByPath` records only the path.
- `Execute` treats a failed open or decode as "path not readable" and every save failure as "path not writable". It does not let save failures depend on the format.
- The exact text printed by `println!` is left out. A `Message` or `Output` tag carries the values the text would show.
- `Box<dyn Error>` and exit codes are reduced to the `Success`, `Failure` and `Panic` statuses. The unused `use std::fs` is left out.
- `env::args` collection is left out, including its panic on arguments that are not valid Unicode. Arguments are given as a sequence of strings.
- Formats.Extension: `Path::extension` is modelled for `/`-separated paths only. Trailing separators and trailing `.` components are dropped, and the final component is the text after the last `/`. Windows prefixes and `\` separators are not modelled.
- Formats.AsciiLower: `str::to_lowercase` is modelled only for ASCII letters. The result is the same for every name `convert` recognises. No Unicode character lowercases to text containing one of the letters of the four names, so a recognised name is all ASCII, and on ASCII the two agree. The `Converted` message, which shows the lowercased name, is printed only for a recognised name.
- Numeric.ParseUnsigned: the string is modelled as characters, not UTF-8 bytes. A non-ASCII character is an invalid digit either way.

## Findings

| source | as written | input that shows it | evidently intended | confidence | as-written member | corrected member |
|---|---|---|---|---|---|---|
| src/main.rs:37-45 | `resize` prints its usage line only when `args.len() < 5`, then reads `args[5]` | `imgswift resize in.png out.png 800` (five arguments, width parses): `args[5]` panics | print the usage line when there are fewer than six arguments | high; not executed | `Cli.ResizeGuardReadsPastEnd` | `Cli.IntendedGuardsStayInRange` |
| src/main.rs:56-63 | `dpi`, `convert` (lines 74-81) and `compress` (lines 100-107) print their usage line only when `args.len() < 4`, then read `args[4]` | `imgswift dpi in.png out.png` (four arguments): `args[4]` panics | print the usage line when there are fewer than five arguments | high; not executed | `Cli.ShortGuardsReadPastEnd` | `Cli.IntendedGuardsStayInRange` |
