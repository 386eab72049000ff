# QuickGet decision logic in Dafny

QuickGet is a small desktop program. It serves one local file over HTTP, through an embedded NanoHTTPD server, and shows a QR code of the file's external URL. This project models the logic under its Swing window and proves properties of it:

- **Request routing.** `ServerThread.serve` answers 405 to anything but GET. It strips one leading `/`, compares the path case-insensitively with the served name, answers 404 when the file cannot be opened, and sends the file chunked above 64 KiB and fixed-length otherwise. Every other path goes to NanoHTTPD's default handler. See `FileServer.Route` and its lemmas.
- **Serving configuration.** `ServerThread.setFile` falls back to the file's base name and to `application/octet-stream`, but only for `null`. It is modelled as a class (`FileServer.ServerThread`) whose methods update its fields.
- **The window's controller state.** The class `Controller.QuickGet` covers:
  - the start guard of `startServer`;
  - the start/stop button;
  - `updateServer`, which pushes the configuration only while a server exists and a file is selected;
  - `updateCode`, which makes a new code image only when the URL changes;
  - the URL composition of `evaluateCode`.
- **Configuration helpers.**
  - `emptyString`, and the precedence rule of `getSetting` (system property, then environment variable, then default).
  - `parsePort` (module `Settings`), over a model of `Integer.parseInt` (module `JavaInteger`).
  - The content-type list of the MIME box (module `MimeTypes`).
  - The IPv4 log formatting with `i8u` (module `Addresses`).
  - The `java.lang.String` operations these depend on: `trim`, `equalsIgnoreCase` and `split` (module `JavaString`).
- **`Util.getImage`.** It maps a QR code's module matrix to a `size × size` ARGB pixel array, with null colours defaulting to white and black (module `CodeImage`). The method keeps the source's two loops over a row buffer.

The model follows the code as written in two places where the code's own choices are odd:
- `parsePort` accepts 65536.
- The start guard `port > 1` refuses port 1.

`Controller.StartGuardPorts` states both.

## Model

| member | source | states |
|---|---|---|
| Settings.EmptyStringIff | src/main/java/de/zvxeb/quickget/QuickGet.java:140-144 | a string is blank exactly when it is null or consists only of code units up to U+0020 |
| Settings.GetSettingPrecedence | src/main/java/de/zvxeb/quickget/QuickGet.java:146-158 | a non-blank system property decides the setting, trimmed, whatever the environment and default are; a blank property counts as unset; a non-blank environment variable then decides it, trimmed, whatever the default is; otherwise the default is returned |
| Settings.GetSettingUsedIsTrimmed | src/main/java/de/zvxeb/quickget/QuickGet.java:148-155 | a value taken from the property or the environment is non-blank and already trimmed |
| Settings.ParsePortOutcomes | src/main/java/de/zvxeb/quickget/QuickGet.java:550-558 | -1 exactly when the text is not an integer; -2 exactly when it is an integer outside 1..65536; otherwise the integer itself; nothing else is returned |
| Settings.ParsePortDecimal | src/main/java/de/zvxeb/quickget/QuickGet.java:550-558 | every port 1..65536 written in decimal parses back to itself, 65536 included |
| Settings.ParsePortDoesNotTrim | src/main/java/de/zvxeb/quickget/QuickGet.java:552 | a port text with a leading blank is rejected as not a number (-1) |
| JavaInteger.ParseIntDecimal | src/main/java/de/zvxeb/quickget/QuickGet.java:552 | `Integer.parseInt` reads back the decimal numeral of every non-negative int |
| JavaInteger.ParseIntRejectsNonDigit | src/main/java/de/zvxeb/quickget/QuickGet.java:552 | `Integer.parseInt` rejects any text holding a code unit that is neither a digit nor a leading sign |
| Controller.StartGuardPorts | src/main/java/de/zvxeb/quickget/QuickGet.java:161-163 | the start guard lets through exactly the texts that parse to 2..65536: port 1 is refused, 65536 is accepted, 65537 is refused |
| Controller.QuickGet.StartServer | src/main/java/de/zvxeb/quickget/QuickGet.java:160-177 | without a selected file nothing changes; with one and a port at most 1, only an `Invalid port` error is logged and the server is unchanged; otherwise a fresh server on that port serves the entered file, name and MIME type, the button reads `Stop`, it listens exactly when the port could be bound, and the log and code image are updated |
| Controller.QuickGet.LaunchServer | src/main/java/de/zvxeb/quickget/QuickGet.java:164-173 | the accepting branch of the start guard: a fresh server configured by `updateServer`, labelled `Stop`, listening exactly when bound, with the two log lines in order |
| Controller.QuickGet.ToggleServer | src/main/java/de/zvxeb/quickget/QuickGet.java:212-224 | with a server: it is stopped and dropped with its configuration untouched, the button reads `Start`, one log line is added; without one: the button reads `Stop` and `startServer` runs, so the label reads `Stop` even when the guard refuses |
| Controller.QuickGet.UpdateServer | src/main/java/de/zvxeb/quickget/QuickGet.java:281-287 | only while a server exists and a file is selected does the server take the entered file, name and MIME type, with a log line and a code refresh; otherwise the server, log and code are unchanged |
| Controller.QuickGet.EditName | src/main/java/de/zvxeb/quickget/QuickGet.java:334-353 | editing the name field propagates the new name to a running server exactly as `updateServer` does, and to nothing else |
| Controller.QuickGet.SelectMime | src/main/java/de/zvxeb/quickget/QuickGet.java:404-411 | selecting a MIME type propagates it to a running server exactly as `updateServer` does |
| Controller.QuickGet.UpdateCode | src/main/java/de/zvxeb/quickget/QuickGet.java:424-429 | the shown code becomes the given URL, and a new image is made exactly when the URL differs from the current one |
| Controller.QuickGet.EvaluateCode | src/main/java/de/zvxeb/quickget/QuickGet.java:431-440 | the code shows the composed URL of the URL field and the name field |
| Controller.ComposeUrlShape | src/main/java/de/zvxeb/quickget/QuickGet.java:431-440 | the composed URL starts with the base, ends with the name preceded by `/`, adds a `/` only when the base lacks one, and does not depend on whether the base already ended in `/` |
| Controller.QuickGet.constructor | src/main/java/de/zvxeb/quickget/QuickGet.java:71-74 | a new window has no server, an empty code URL and the button labelled `Start` |
| MimeTypes.BuildMimeList | src/main/java/de/zvxeb/quickget/QuickGet.java:373-401 | the loop builds exactly the list `MimeList` describes, and the selected item is the `mime` setting, which is in the list |
| MimeTypes.MimeListProperties | src/main/java/de/zvxeb/quickget/QuickGet.java:373-390 | the list starts with the four built-in types in order, holds exactly the built-in, non-blank extra and selected types, always holds the selected type and never holds a type twice |
| MimeTypes.AppendAbsentProperties | src/main/java/de/zvxeb/quickget/QuickGet.java:380-384 | adding each absent type keeps the list as a prefix, yields exactly the union of the elements, and adds no duplicates |
| MimeTypes.AppendAbsentOrder | src/main/java/de/zvxeb/quickget/QuickGet.java:380-384 | new extra types appear in the list in the order of their first occurrence in the setting |
| MimeTypes.ExtraMimesAreFields | src/main/java/de/zvxeb/quickget/QuickGet.java:378 | the extra types are exactly the non-blank comma-separated fields of the setting, whatever `split` does with trailing empty fields |
| MimeTypes.NonBlankMembers | src/main/java/de/zvxeb/quickget/QuickGet.java:378 | the blank filter keeps exactly the non-blank strings |
| JavaString.JoinFields | src/main/java/de/zvxeb/quickget/QuickGet.java:378 | splitting at a separator and joining the fields with it gives back the string |
| Addresses.I8uRoundTrip | src/main/java/de/zvxeb/quickget/QuickGet.java:76-78 | `i8u` and the `(byte)` cast are inverse to each other on signed bytes and on 0..255 |
| Addresses.FormatIPv4RoundTrip | src/main/java/de/zvxeb/quickget/QuickGet.java:80-83 | the dotted address splits into exactly four fields, each parsing to the unsigned value of its byte |
| FileServer.ServerThread.constructor | src/main/java/de/zvxeb/quickget/QuickGet.java:509-512 | a new server keeps its port, is not listening, and is configured as `setFile` configures it |
| FileServer.ServerThread.SetFile | src/main/java/de/zvxeb/quickget/QuickGet.java:514-518 | the file is installed; the name is the given one unless null, then the file's base name; the MIME type is the given one unless null, then `application/octet-stream` |
| FileServer.BaseName | src/main/java/de/zvxeb/quickget/QuickGet.java:516 | the base name holds no `/`, ends the path, and is preceded by a `/` when shorter than the path |
| FileServer.RouteRefusesOtherMethods | src/main/java/de/zvxeb/quickget/QuickGet.java:522-524 | every method but GET gets a 405 plain-text response and never the file, whatever the path and file |
| FileServer.RouteServesIff | src/main/java/de/zvxeb/quickget/QuickGet.java:520-547 | the file is sent exactly for a GET of the served name that can be opened; the default handler answers exactly the GETs of other paths; 404 exactly for a GET of the served name whose file cannot be opened |
| FileServer.RouteFileResponse | src/main/java/de/zvxeb/quickget/QuickGet.java:532-543 | a file response has status 200, the configured file and MIME type, is chunked exactly above 65536 bytes and otherwise carries the exact length |
| FileServer.RouteAnyCase | src/main/java/de/zvxeb/quickget/QuickGet.java:525-531 | a GET of `/` and the served name in any mix of cases sends an openable file |
| FileServer.RouteStripsOneSlash | src/main/java/de/zvxeb/quickget/QuickGet.java:527-529 | only one leading `/` is stripped: `//name` goes to the default handler |
| FileServer.RouteAfterRename | src/main/java/de/zvxeb/quickget/QuickGet.java:525-546 | after a rename beyond case, the old name goes to the default handler and the new name sends the file |
| JavaString.EqualsIgnoreCaseEquivalence | src/main/java/de/zvxeb/quickget/QuickGet.java:531 | the case-insensitive comparison is reflexive, symmetric and transitive |
| JavaString.TrimIdempotent | src/main/java/de/zvxeb/quickget/QuickGet.java:149 | trimming a trimmed value changes nothing |
| JavaString.TrimIsInfix | src/main/java/de/zvxeb/quickget/QuickGet.java:142 | the trimmed string is an infix of the original with only code units up to U+0020 cut off either side |
| FileServer.Route | src/main/java/de/zvxeb/quickget/QuickGet.java:520-547 | the response `serve` returns for a method, a URI, the serving configuration, whether the file opens and its length: 405 for non-GET, the default handler for unmatched paths, otherwise 404, chunked or fixed-length; its properties are the Route lemmas below |
| FileServer.ServerThread.Start | src/main/java/de/zvxeb/quickget/QuickGet.java:169 | after `start()` the server listens exactly when the port could be bound |
| FileServer.ServerThread.Stop | src/main/java/de/zvxeb/quickget/QuickGet.java:218 | after `stop()` the server no longer listens |
| Settings.EmptyString | src/main/java/de/zvxeb/quickget/QuickGet.java:140-144 | whether a setting is null or blank after trimming; characterised by `Settings.EmptyStringIff` |
| Settings.GetSetting | src/main/java/de/zvxeb/quickget/QuickGet.java:146-158 | the first non-blank of property and environment value, trimmed, else the default; characterised by `Settings.GetSettingPrecedence` |
| Settings.ParsePort | src/main/java/de/zvxeb/quickget/QuickGet.java:550-558 | `parsePort` over the `parseInt` model; the result is -1, -2 or a port in 1..65536 |
| JavaInteger.ParseInt | src/main/java/de/zvxeb/quickget/QuickGet.java:552 | `Integer.parseInt`: a value within the int range for a well-formed signed numeral, none otherwise |
| JavaInteger.ParseIntUnsigned | src/main/java/de/zvxeb/quickget/QuickGet.java:552 | an unsigned numeral is accepted exactly when its value fits an int, and then parses to that value |
| JavaInteger.Decimal | src/main/java/de/zvxeb/quickget/QuickGet.java:82 | the `%d` rendering of a non-negative number: non-empty, digits only, no leading zero except for 0; read back by `JavaInteger.DecimalValue` and `JavaInteger.ParseIntDecimal` |
| JavaInteger.DecimalValue | src/main/java/de/zvxeb/quickget/QuickGet.java:82 | the digits `%d` writes denote the number itself |
| CodeImage.GetRGB | src/main/java/de/zvxeb/quickget/Util.java:33-34 | `Color.getRGB`: the alpha, red, green and blue bytes packed from the top down, as a signed 32-bit int; characterised by `CodeImage.GetRGBInjective` and `CodeImage.DefaultColours` |
| CodeImage.PackedArgb | src/main/java/de/zvxeb/quickget/Util.java:33-34 | the packed ARGB bits lie in the unsigned 32-bit range |
| FileServer.StripLeadingSlash | src/main/java/de/zvxeb/quickget/QuickGet.java:527-529 | the path with exactly one leading `/` removed when it starts with one, otherwise unchanged |
| JavaString.Trim | src/main/java/de/zvxeb/quickget/QuickGet.java:142 | `String.trim`; characterised by `JavaString.TrimIsInfix` and `JavaString.TrimEnds` |
| JavaString.EqualsIgnoreCase | src/main/java/de/zvxeb/quickget/QuickGet.java:531 | `equalsIgnoreCase` as a per-code-unit comparison; an equivalence by `JavaString.EqualsIgnoreCaseEquivalence` |
| JavaString.Split | src/main/java/de/zvxeb/quickget/QuickGet.java:378 | `split(",")`: the whole string when the separator is absent, else the fields with trailing empty ones dropped; related to the raw fields by `MimeTypes.ExtraMimesAreFields` and `JavaString.JoinFields` |
| Controller.ComposeUrl | src/main/java/de/zvxeb/quickget/QuickGet.java:431-440 | the URL `evaluateCode` encodes; its shape is `Controller.ComposeUrlShape` |
| Controller.ServingMessage | src/main/java/de/zvxeb/quickget/QuickGet.java:284 | the `Serving … as … (…)` log line of `updateServer` |
| Addresses.I8u | src/main/java/de/zvxeb/quickget/QuickGet.java:76-78 | `b & 0xff`: a value in 0..255 congruent to the byte modulo 256 |
| Addresses.FormatIPv4 | src/main/java/de/zvxeb/quickget/QuickGet.java:80-83 | the dotted decimal text of the four unsigned bytes; its round trip is `Addresses.FormatIPv4RoundTrip` |
| MimeTypes.ExtraMimes | src/main/java/de/zvxeb/quickget/QuickGet.java:376-378 | the non-blank fields of the `extraMimes` setting split at commas, untrimmed |
| MimeTypes.AppendAbsent | src/main/java/de/zvxeb/quickget/QuickGet.java:380-384 | appends each element not yet present, in order; characterised by `MimeTypes.AppendAbsentProperties` and `MimeTypes.AppendAbsentOrder` |
| MimeTypes.MimeList | src/main/java/de/zvxeb/quickget/QuickGet.java:373-390 | built-ins, then absent extra types, then the selected type if absent; characterised by `MimeTypes.MimeListProperties` |
| CodeImage.GetImage | src/main/java/de/zvxeb/quickget/Util.java:25-46 | the image is `size × size`; each pixel is the dark colour's int where the module is set and the light colour's elsewhere, with null light as white and null dark as black; every pixel has one of the two colours, and when the colours differ a pixel is dark exactly when its module is set |
| CodeImage.SetRow | src/main/java/de/zvxeb/quickget/Util.java:42 | writing a row sets that row to the line buffer and leaves every other row as it was |
| CodeImage.GetRGBInjective | src/main/java/de/zvxeb/quickget/Util.java:33-34 | two colours with the same `getRGB` value are the same colour |
| CodeImage.DefaultColours | src/main/java/de/zvxeb/quickget/Util.java:26-31 | the default white is -1 and the default black is -16777216 as ARGB ints |

## Left out

- The Swing window, its layout, the log area's widget, the status bar and `ImageScaler`'s painting are not modelled. The texts of the fields, the selected MIME type, the button label and the log entries are fields of `Controller.QuickGet`.
- NanoHTTPD's sockets, threads and lifecycle are not modelled. `start()` and `stop()` become a `listening` flag, and whether the port could be bound is a parameter (`bound`). The body of NanoHTTPD's own `serve` is the opaque response `DefaultHandler`.
- File access is not modelled: whether the file opens and its length are inputs of `FileServer.Route`. The response bodies are not streamed.
- Concurrent `serve` calls racing with `setFile` on worker threads are not modelled; all calls are sequential.
- Network-interface enumeration, `formatIPv6Address`, QR encoding (`QrCode.encodeText`) and SLF4J logging are foreign calls or I/O and are not modelled. A QR code is given as its square module matrix.
- The start-up sequence of `run` (reading the `file`, `name` and `start` settings) and `selectFile` with its file chooser are not modelled; the selected file is a field.
- System properties and environment variables are not read: `Settings.GetSetting` takes their values as parameters.
- JavaString.EqualsIgnoreCase: case folding covers ASCII letters only, where Java folds all of Unicode.
- JavaInteger.ParseInt: only ASCII digits are accepted, where Java also accepts other Unicode decimal digits.
- MimeTypes.BuildMimeList: the loop at QuickGet.java:392-398 that looks up the list's own copy of the selected string is not modelled. Strings are values here, so it changes nothing.
- Controller.QuickGet.StartServer: the combo box's selection is taken as a non-null string, so a null selection (a `NullPointerException` at line 164) is not modelled.
- Controller.QuickGet.StartServer: port 65536 passes the guard, but no TCP listener can be opened on it, so `StartServer`, `ToggleServer` and `LaunchServer` require `bound` to be false for that port: `start()` is taken to fail there as it does when the port cannot be bound. The exception Java raises for that port is not part of this model.
- Controller.QuickGet.UpdateCode: `QrCode.encodeText` failing on a URL too long for any QR code is not modelled. In the source, `codeUri` is already set at QuickGet.java:426 when the exception is thrown at :427, so the old image stays and a later call with the same URL does not redraw it. The exception also escapes `startServer`'s `catch` of `IOException`, so `start()` at :169 never runs. The model assumes every URL can be encoded: `Valid` (the image shows `codeUri`) and the ensures of `UpdateCode`, `EvaluateCode`, `UpdateServer`, `EditName`, `SelectMime`, `LaunchServer`, `StartServer` and `ToggleServer` hold only for URLs that fit in a QR code.
- Addresses.FormatIPv4: `String.format` uses the default locale, which in some locales prints `%d` with non-ASCII digits. The model always writes ASCII digits.
- FileServer.BaseName: paths are taken in `File`'s normal form, with no trailing `/` and no `//`. For a path such as `dir/`, `File.getName` gives `dir` while `BaseName` gives the empty string.
- `setText` firing two document events (remove, then insert) is modelled as one edit by `Controller.QuickGet.EditName`.
