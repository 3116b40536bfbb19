/**
 * User-facing error summaries: `LYNetworkError.summaryFrom(error:response:)`
 * and `NSError.lyDescription()`. Both are Swift `switch` statements over
 * integer ranges, so the first case that matches wins even where later
 * cases overlap it.
 *
 * The messages are Chinese text in the library; the model names them by
 * meaning and keeps the number each one interpolates.
 */
module ErrorSummary {
  import opened Common

  /** The parts of an `NSError` the classifier reads. */
  datatype NSErr = NSErr(inUrlDomain: bool, code: int)

  datatype Message =
    | ClientError(status: int)      // "client error (HTTP error code: …)"
    | ServerError(status: int)      // "network problem, please retry (HTTP error code: …)"
    | NetworkRetry(code: int)       // "network problem, please retry (error code: …)"
    | Silent                        // the empty string
    | CheckConnection               // "network connection error, check the network settings"
    | Reinstall(code: int)          // "system problem, please reinstall the app (error code: …)"
    | RestartApp(code: int)         // "network problem, please restart the app (error code: …)"
    | Localized                     // the error's own `localizedDescription`

  /** `lyDescription()`: the cases in the order the `switch` lists them. */
  function LyDescription(e: NSErr): (m: Message)
    // cancellation and the -1000 … -1007 codes are silent, although the
    // later case -1008..<(-999) also contains them
    ensures e.inUrlDomain && -1007 <= e.code <= -999 ==> m == Silent
    ensures e.inUrlDomain && e.code == -1008 ==> m == NetworkRetry(-1008)
    ensures e.inUrlDomain && e.code == -1009 ==> m == CheckConnection
    ensures e.inUrlDomain && -1 <= e.code < 110 ==> m == NetworkRetry(e.code)
    ensures !e.inUrlDomain ==> m == Localized
  {
    if !e.inUrlDomain then Localized
    else
      var c := e.code;
      if -1 <= c < 110 then NetworkRetry(c)             // Network errors
      else if 110 <= c < 119 then NetworkRetry(c)       // SOCKS4 errors
      else if 120 <= c < 130 then NetworkRetry(c)       // SOCKS5 errors
      else if 200 <= c < 300 then NetworkRetry(c)       // FTP errors
      else if 300 <= c < 400 then NetworkRetry(c)       // HTTP errors
      else if c == -998 then NetworkRetry(c)            // unknown
      else if c == -999 then Silent                     // cancelled
      else if c == -1000 then Silent                    // bad URL
      else if c == -1001 then Silent                    // timed out
      else if c == -1002 then Silent                    // unsupported URL
      else if c == -1003 then Silent                    // cannot find host
      else if c == -1004 then Silent                    // cannot connect to host
      else if c == -1005 then Silent                    // connection lost
      else if c == -1006 then Silent                    // DNS lookup failed
      else if c == -1007 then Silent                    // too many redirects
      else if -1008 <= c < -999 then NetworkRetry(c)    // CFURLConnection & CFURLProtocol
      else if c == -1009 then CheckConnection           // not connected to the internet
      else if c == -1010 then NetworkRetry(c)           // redirect to non-existent location
      else if c == -1011 then Silent                    // bad server response
      else if c == -1012 then Silent                    // user cancelled authentication
      else if c == -1013 then Silent                    // authentication required
      else if c == -1014 then Silent                    // zero-byte resource
      else if c == -1015 then Silent                    // cannot decode raw data
      else if c == -1016 then Silent                    // cannot decode content data
      else if c == -1017 then Silent                    // cannot parse response
      else if c == -1018 then Silent                    // international roaming off
      else if c == -1019 then Silent                    // call is active
      else if c == -1020 then Silent                    // data not allowed
      else if c == -1021 then Silent                    // request body stream exhausted
      else if c == -1022 then Silent                    // ATS requires secure connection
      else if -1103 <= c < -1099 then Reinstall(c)      // FTP errors
      else if -1999 <= c < -1199 then NetworkRetry(c)   // SSL errors
      else if -3007 <= c < -1999 then Reinstall(c)      // download and file I/O errors
      else if c == -4000 then RestartApp(c)             // cookie errors
      else if -73000 <= c < -71000 then NetworkRetry(c) // CFNetServices errors
      else Localized
  }

  // An independent, order-free description of the same classification:
  // the code sets each message is given for, written as disjoint ranges.

  predicate SilentCode(c: int) {
    -1007 <= c <= -999 || -1022 <= c <= -1011
  }

  predicate RetryCode(c: int) {
    || -1 <= c <= 118 || 120 <= c <= 129 || 200 <= c <= 399
    || c == -998 || c == -1008 || c == -1010
    || -1999 <= c <= -1200 || -73000 <= c <= -71001
  }

  predicate ReinstallCode(c: int) {
    -1103 <= c <= -1100 || -3007 <= c <= -2000
  }

  /** The code sets are pairwise disjoint and miss the connectivity and cookie codes. */
  lemma CodeSetsDisjoint(c: int)
    ensures !(SilentCode(c) && RetryCode(c))
    ensures !(SilentCode(c) && ReinstallCode(c))
    ensures !(RetryCode(c) && ReinstallCode(c))
    ensures c == -1009 || c == -4000 ==> !SilentCode(c) && !RetryCode(c) && !ReinstallCode(c)
  {
  }

  /** The first-match `switch` agrees with the order-free description, in both directions. */
  lemma DescriptionByCodeSets(e: NSErr)
    requires e.inUrlDomain
    ensures LyDescription(e) == Silent <==> SilentCode(e.code)
    ensures LyDescription(e) == NetworkRetry(e.code) <==> RetryCode(e.code)
    ensures LyDescription(e) == Reinstall(e.code) <==> ReinstallCode(e.code)
    ensures LyDescription(e) == CheckConnection <==> e.code == -1009
    ensures LyDescription(e) == RestartApp(e.code) <==> e.code == -4000
    ensures LyDescription(e) == Localized <==>
      !SilentCode(e.code) && !RetryCode(e.code) && !ReinstallCode(e.code) && e.code != -1009 && e.code != -4000
  {
  }

  /** `summaryFrom(error:response:)`: `status` is the HTTP response's status code, `None` without a response. */
  function SummaryFrom(e: NSErr, status: Option<int>): (m: Message)
    ensures status.Some? && 400 <= status.value < 500 ==> m == ClientError(status.value)
    ensures status.Some? && 500 <= status.value < 600 ==> m == ServerError(status.value)
    ensures (status.None? || !(400 <= status.value < 600)) ==> m == LyDescription(e)
  {
    match status
    case Some(s) =>
      if 400 <= s < 500 then ClientError(s)
      else if 500 <= s < 600 then ServerError(s)
      else LyDescription(e)
    case None => LyDescription(e)
  }
}
