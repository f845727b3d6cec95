/**
 * Turning a URL into the key path of its trie node (`parse_url_parts` and `TrackerError` in
 * native/src/tracker.rs). The URL parser itself is not modelled: each URL arrives together
 * with what the parser made of it.
 */
module UrlParsing {
  import opened Wrappers
  import opened Primitives

  /** The parts of a parsed URL that are used: its host, if any, and its path segments, if any. */
  datatype ParsedUrl = ParsedUrl(host: Option<string>, pathSegments: Option<seq<string>>)
  {
    /**
     * What the URL parser guarantees of its output: a host is not empty, and neither the host
     * nor any path segment contains `/`.
     */
    ghost predicate WellFormed() {
      && (host.Some? ==> KeyOk(host.value))
      && (pathSegments.Some? ==> forall i :: 0 <= i < |pathSegments.value| ==> '/' !in pathSegments.value[i])
    }
  }

  /** A URL as the extension sends it, with the parser's verdict on it (a message on failure). */
  datatype UrlText = UrlText(text: string, parsed: Result<ParsedUrl, string>)

  datatype TrackerError =
    | InvalidUrl(detail: string)
    | TabNotFound(tabId: u32)
    | UrlParseError(detail: string)
  {
    /** The error's `Display` text, as sent back to the extension. */
    function Message(): (s: string)
      ensures InvalidUrl? ==> s == "Invalid URL: " + detail
      ensures TabNotFound? ==> |s| > 14 && s[..4] == "Tab " && s[|s| - 10..] == " not found"
      ensures UrlParseError? ==> s == "URL parsing error: " + detail
    {
      match this
      case InvalidUrl(d) => "Invalid URL: " + d
      case TabNotFound(id) => "Tab " + DecimalString(id) + " not found"
      case UrlParseError(d) => "URL parsing error: " + d
    }
  }

  /** The path segments kept as keys: those longer than one byte, in order. */
  function KeepLong(segments: seq<string>): (r: seq<string>)
    ensures |r| <= |segments|
    ensures forall s :: s in r <==> s in segments && Utf8Len(s) > 1
  {
    if segments == [] then []
    else if Utf8Len(segments[0]) > 1 then [segments[0]] + KeepLong(segments[1..])
    else KeepLong(segments[1..])
  }

  /** Filtering distributes over concatenation. */
  lemma {:induction false} KeepLongAppend(a: seq<string>, b: seq<string>)
    ensures KeepLong(a + b) == KeepLong(a) + KeepLong(b)
  {
    if a == [] {
      assert a + b == b;
    } else {
      assert (a + b)[1..] == a[1..] + b;
      KeepLongAppend(a[1..], b);
    }
  }

  /** Filtering twice is filtering once. */
  lemma {:induction false} KeepLongIdempotent(segments: seq<string>)
    ensures KeepLong(KeepLong(segments)) == KeepLong(segments)
  {
    if segments != [] {
      KeepLongIdempotent(segments[1..]);
      if Utf8Len(segments[0]) > 1 {
        assert ([segments[0]] + KeepLong(segments[1..]))[1..] == KeepLong(segments[1..]);
      }
    }
  }

  /** The keys a parsed URL yields before the emptiness check: the host, then the long segments. */
  function UrlKeys(p: ParsedUrl): seq<string> {
    (if p.host.Some? then [p.host.value] else [])
    + (if p.pathSegments.Some? then KeepLong(p.pathSegments.value) else [])
  }

  /**
   * `parse_url_parts`: an empty text is refused before parsing; a parser failure is reported as
   * such; a URL that yields no key is refused with its text. Otherwise the keys are the host
   * followed by the path segments longer than one byte.
   */
  function ParseUrlParts(url: UrlText): (r: Result<seq<string>, TrackerError>)
    ensures url.text == [] ==> r == Err(InvalidUrl("Empty URL"))
    ensures url.text != [] && url.parsed.Err? ==> r == Err(UrlParseError(url.parsed.error))
    ensures url.text != [] && url.parsed.Ok? && UrlKeys(url.parsed.value) == [] ==>
      r == Err(InvalidUrl("No parseable parts in URL: " + url.text))
    ensures r.Ok? <==> url.text != [] && url.parsed.Ok? && UrlKeys(url.parsed.value) != []
    ensures r.Ok? ==> r.value == UrlKeys(url.parsed.value) && r.value != []
    ensures r.Ok? && url.parsed.value.WellFormed() ==> AllKeysOk(r.value)
  {
    if url.text == [] then Err(InvalidUrl("Empty URL"))
    else match url.parsed
      case Err(e) => Err(UrlParseError(e))
      case Ok(p) =>
        var parts := UrlKeys(p);
        if parts == [] then Err(InvalidUrl("No parseable parts in URL: " + url.text))
        else
          assert p.WellFormed() ==> AllKeysOk(parts) by {
            if p.WellFormed() {
              forall i | 0 <= i < |parts| ensures KeyOk(parts[i]) {
                assert parts[i] in parts;
              }
            }
          }
          Ok(parts)
  }
}
