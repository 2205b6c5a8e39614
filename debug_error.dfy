/** The `debug_error` library (src/error.rs): an error value that carries its message and the
    call site it was built at, its `Display`, and the two constructing macros, one silent and
    one that also writes a record to the global logger. The message arrives already formatted
    and the call site arrives as an explicit `Location`. */
module DebugErrors {
  import opened StdDisplay

  /** `DebugError`: a message and the location at which the value was built. Both fields are
      fixed once the value exists; equality is equality of the two fields. */
  datatype DebugError = DebugError(message: string, location: Location)

  /** `DebugError::new`: total, stores both arguments verbatim. */
  function New(message: string, location: Location): (e: DebugError)
    ensures e.message == message && e.location == location
  {
    DebugError(message, location)
  }

  /** The derived `Clone`: a field-by-field copy, equal to the original. */
  function Clone(e: DebugError): (c: DebugError)
    ensures c == e
  {
    DebugError(e.message, e.location)
  }

  /** `impl Display for DebugError`: "{message} at {location}". The message comes first,
      followed by " at " and the file. */
  function Render(e: DebugError): (r: string)
    ensures |r| > |e.message| + 4 + |e.location.file|
    ensures r[..|e.message| + 4 + |e.location.file|] == e.message + " at " + e.location.file
  {
    e.message + " at " + LocationText(e.location)
  }

  /** The line and column can be read back off the end of the rendered text by a scraper,
      and what precedes them is the message, " at " and the file. */
  lemma RenderScrapes(e: DebugError)
    ensures ScrapeLocation(Render(e))
         == Some(Scraped(e.message + " at " + e.location.file, e.location.line, e.location.column))
  {
    ScrapeAfterLocation(e.message + " at ", e.location);
  }

  /** The rendered text spelled out field by field: message, " at ", file, ":", line, ":",
      column, with line and column in plain decimal. */
  lemma RenderFieldwise(e: DebugError)
    ensures Render(e)
         == e.message + " at " + e.location.file + ":" + NatToString(e.location.line)
            + ":" + NatToString(e.location.column)
  {
  }

  /** Rendering reads nothing but the two immutable fields: rendering a clone gives the same text. */
  lemma RenderClone(e: DebugError)
    ensures Render(Clone(e)) == Render(e)
  {
  }

  /** Two errors whose rendered texts agree were built at the same line and column; if they
      also carry the same message, they are the same value. */
  lemma RenderDetermines(e1: DebugError, e2: DebugError)
    ensures Render(e1) == Render(e2)
            ==> e1.location.line == e2.location.line && e1.location.column == e2.location.column
    ensures Render(e1) == Render(e2) && e1.message == e2.message ==> e1 == e2
  {
    RenderScrapes(e1);
    RenderScrapes(e2);
    if Render(e1) == Render(e2) && e1.message == e2.message {
      var p := e1.message + " at ";
      assert p + e1.location.file == p + e2.location.file;
      assert e1.location.file == (p + e1.location.file)[|p|..];
    }
  }

  /** The same message built at two different call sites renders as two different texts. */
  lemma DistinctCallSitesRenderDistinctly(message: string, here: Location, there: Location)
    requires here != there
    ensures Render(New(message, here)) != Render(New(message, there))
  {
    RenderDetermines(New(message, here), New(message, there));
  }

  /** The text of the record `debug_error_with_log!` hands to `log::error!`, built from the
      fields one by one; it is "Error: " followed by exactly what `Display` renders. */
  function LogText(e: DebugError): (r: string)
    ensures r == "Error: " + Render(e)
  {
    "Error: " + e.message + " at " + e.location.file + ":" + NatToString(e.location.line)
    + ":" + NatToString(e.location.column)
  }

  /** A scraper reading the log record recovers the file, line and column of the error. */
  lemma LogTextScrapes(e: DebugError)
    ensures ScrapeLocation(LogText(e))
         == Some(Scraped("Error: " + e.message + " at " + e.location.file,
                         e.location.line, e.location.column))
  {
    var head := "Error: " + e.message + " at " + e.location.file;
    var lineText, columnText := NatToString(e.location.line), NatToString(e.location.column);
    assert LogText(e) == head + ":" + lineText + ":" + columnText;
    ScrapeSplit(head, lineText, columnText);
    NatToStringRoundTrip(e.location.line);
    NatToStringRoundTrip(e.location.column);
  }

  /** The severities of the `log` crate. */
  datatype Level = Error | Warn | Info | Debug | Trace

  /** The process-wide logger of the `log` crate, reduced to what this library touches:
      whether a logger has been installed, and the records it has accepted, oldest first.
      Without an installed logger a log call is accepted and does nothing. */
  class Logger {
    const installed: bool
    var records: seq<(Level, string)>

    constructor (installed: bool)
      ensures this.installed == installed && records == []
    {
      this.installed := installed;
      records := [];
    }

    /** One log call (`log::error!` and its siblings): never fails. */
    method Log(level: Level, text: string)
      modifies this
      ensures records == if installed then old(records) + [(level, text)] else old(records)
    {
      if installed {
        records := records + [(level, text)];
      }
    }
  }

  /** `debug_error!`: builds the error from the formatted message and the call site, and
      touches no logger. */
  function MakeDebugError(message: string, location: Location): (e: DebugError)
    ensures e.message == message && e.location == location
  {
    New(message, location)
  }

  /** `debug_error_with_log!`: builds the same error as `debug_error!`, then logs one record
      at error level whose text is "Error: " followed by the rendered error, then returns
      the error. Nothing else in the logger changes, and nothing can fail. */
  method MakeDebugErrorWithLog(logger: Logger, message: string, location: Location)
    returns (e: DebugError)
    modifies logger
    ensures e == MakeDebugError(message, location)
    ensures logger.records
         == old(logger.records) + if logger.installed then [(Level.Error, "Error: " + Render(e))] else []
  {
    e := New(message, location);
    logger.Log(Level.Error, LogText(e));
  }
}
