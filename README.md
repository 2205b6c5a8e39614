# debug_error, modelled in Dafny

The `debug_error` crate provides `DebugError`, an error value that carries a human-readable
message and the source location (file, line, column) at which it was built. It also provides
two macros that build one: `debug_error!`, which is silent, and `debug_error_with_log!`, which
also writes one error-level record to the global logger of the `log` crate before it returns
the value. The error's `Display` is `"<message> at <file>:<line>:<column>"`. Log-scraping
tooling depends on that format.

The model has two modules:

- `StdDisplay` (`std_display.dfy`) holds what the model assumes of Rust's standard library.
  `Location` is `std::panic::Location`: a file name, and a line and column of type `u32`.
  Its `Display` is `"{file}:{line}:{col}"` (`LocationText`). The decimal `Display` of an
  unsigned integer is `NatToString`, proved to be a bijection onto decimals without leading
  zeros. The module also holds a scraper, `ScrapeLocation`. It splits a line at its last two
  colons and reads back the line and column. This is the reference the render format is
  checked against.
- `DebugErrors` (`debug_error.dfy`) models `src/error.rs` itself. `DebugError` is a datatype.
  `New`, `Render` (the `Display` impl), `LogText` (the record text of line 108) and
  `MakeDebugError` (`debug_error!`) are functions. The global logger is a `Logger` object whose
  `records` sequence grows by one entry per accepted log call. `MakeDebugErrorWithLog`
  (`debug_error_with_log!`) is a method that modifies that object.

Both macros take the message already formatted and the call site as an explicit `Location`.
Neither has a failure path: none of the modelled operations (`New`, `Render`, `LogText`,
`Logger.Log`, `MakeDebugError`, `MakeDebugErrorWithLog`) has a `requires`; only the digit
helpers and the lemmas have preconditions.
In `MakeDebugErrorWithLog` the log call comes before the value is returned, as in the source.

## Model

| member | source | states |
|---|---|---|
| `DebugErrors.New` | src/error.rs:58-61 | total; the result holds exactly the given message and location |
| `DebugErrors.Clone` | src/error.rs:45-50 | the derived clone equals the original |
| `DebugErrors.Render` | src/error.rs:66-69 | the text starts with the message, then `" at "`, then the file, and continues past the file |
| `DebugErrors.RenderScrapes` | src/error.rs:66-69 | a scraper reading the rendered text from the right recovers the line and the column exactly, and message + `" at "` + file before them |
| `DebugErrors.RenderFieldwise` | src/error.rs:68 | the rendered text is message, `" at "`, file, `":"`, decimal line, `":"`, decimal column, in that order |
| `DebugErrors.RenderClone` | src/error.rs:45-50 | rendering a clone gives the same text as rendering the original |
| `DebugErrors.RenderDetermines` | src/error.rs:66-69 | equal rendered texts mean equal line and column; with equal messages, equal errors |
| `DebugErrors.DistinctCallSitesRenderDistinctly` | src/error.rs:58-69 | one message built at two different locations renders as two different texts |
| `DebugErrors.LogText` | src/error.rs:108 | the log record's text, built field by field, equals `"Error: "` followed by the rendered error |
| `DebugErrors.LogTextScrapes` | src/error.rs:108 | a scraper reading the log record recovers the error's line and column, and `"Error: "` + message + `" at "` + file before them |
| `DebugErrors.Logger.Log` | src/error.rs:108 | one log call appends exactly one `(level, text)` record when a logger is installed, and changes nothing otherwise |
| `DebugErrors.MakeDebugError` | src/error.rs:142-146 | `debug_error!` returns an error with the given message and location and has no logger to touch |
| `DebugErrors.MakeDebugErrorWithLog` | src/error.rs:104-110 | returns exactly what `debug_error!` returns for the same arguments; the logger gains exactly one record, at error level, reading `"Error: "` + the rendered error, when installed; nothing else in the logger changes |
| `StdDisplay.NatToString` | src/error.rs:108 | a `u32` prints as a non-empty run of decimal digits with no leading zero, one digit exactly when below ten |
| `StdDisplay.NatToStringRoundTrip` | src/error.rs:108 | reading the printed digits back gives the number printed |
| `StdDisplay.NatToStringInjective` | src/error.rs:108 | different numbers print as different text |
| `StdDisplay.CanonicalDecimalRoundTrip` | src/error.rs:108 | every decimal without leading zeros is the printed form of the number it denotes |
| `StdDisplay.LocationText` | src/error.rs:68 | a location displays as its file, then `":"`, then more text |
| `StdDisplay.ScrapeAfterLocation` | src/error.rs:68 | whatever precedes a displayed location, the scraper reads back its line and column and everything up to the file's end |

## Left out

- `format!` substitution (src/error.rs:105, src/error.rs:143): both macros take the message as an already formatted string.
- `std::panic::Location::caller()` (src/error.rs:106, src/error.rs:144): the call site is a compiler intrinsic, so it is passed in as a parameter.
- The `Display` of `std::panic::Location` is assumed to be `"{file}:{line}:{col}"` with decimal `u32` line and column. The standard library is not part of this model.
- The `log` crate and `env_logger`: logger installation, level filtering, record metadata and thread safety are left out. The only ambient state kept is whether a logger is installed (`Logger.installed`). Without one, a log call does nothing and the macro returns the same value.
- `impl std::error::Error for DebugError` (src/error.rs:72) is an empty marker impl. The derived `Debug` output (src/error.rs:45) is compiler-generated formatting.
- The demo programs (examples/basic_usage.rs, examples/real_world_scenario.rs) only show usage, such as wrapping a received error's text into a new message with `map_err`. They have no logic of their own.
- `Location` in Rust is a `&'static` reference. The model holds it by value, and no code compares the reference's identity.
