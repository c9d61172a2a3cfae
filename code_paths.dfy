/**
 * File-name and path helpers of the code component (assets/js/components.js):
 * `getFileName`, the path normalisation done before fetching in
 * `readCodeFile`, the error text it produces, and the duplicate
 * normalisation in `downloadCodeFile`.
 */
module CodePaths {
  import opened Wrappers
  import opened Strings

  predicate IsPathSep(c: char) {
    c == '/' || c == '\\'
  }

  /** `getFileName`: "code.txt" for an absent or empty path, else the text after the last '/' or '\'. */
  function GetFileName(filePath: string): (r: string)
    ensures filePath == [] ==> r == "code.txt"
    ensures filePath != [] ==> EndsWith(filePath, r)
    ensures filePath != [] ==> forall i :: 0 <= i < |r| ==> !IsPathSep(r[i])
    ensures filePath != [] && |r| < |filePath| ==> IsPathSep(filePath[|filePath| - |r| - 1])
  {
    if filePath == [] then "code.txt" else LastSegment(filePath, IsPathSep)
  }

  /** A path with neither separator is its own file name. */
  lemma FileNameOfPlainName(filePath: string)
    requires filePath != []
    requires forall i :: 0 <= i < |filePath| ==> !IsPathSep(filePath[i])
    ensures GetFileName(filePath) == filePath
  {
    LastSegmentOfPlain(filePath, IsPathSep);
  }

  /** A path that ends in a separator has an empty file name (not "code.txt"). */
  lemma FileNameOfDirectory(dir: string)
    requires dir != [] && IsPathSep(dir[|dir| - 1])
    ensures GetFileName(dir) == ""
  {
  }

  /** Root-relative form: drop one leading "./", then add "/" unless it starts with "/" or "http". */
  function NormalizePath(filePath: string): (r: string)
    ensures StartsWith(r, "/") || StartsWith(r, "http")
    ensures StartsWith(filePath, "/") || StartsWith(filePath, "http") ==> r == filePath
  {
    var p := if StartsWith(filePath, "./") then filePath[2..] else filePath;
    if !StartsWith(p, "/") && !StartsWith(p, "http") then "/" + p else p
  }

  /** Normalising a normalised path changes nothing. */
  lemma NormalizeIdempotent(filePath: string)
    ensures NormalizePath(NormalizePath(filePath)) == NormalizePath(filePath)
  {
  }

  /** "./a/b.js" and "a/b.js" reach the same root-relative path. */
  lemma NormalizeDotSlash(rest: string)
    requires !StartsWith(rest, "/") && !StartsWith(rest, "http") && !StartsWith(rest, "./")
    ensures NormalizePath("./" + rest) == NormalizePath(rest) == "/" + rest
  {
    assert ("./" + rest)[2..] == rest;
  }

  /** What `fetch` makes of one request. */
  datatype FetchOutcome =
    | Response(status: int, statusText: string, body: string)
    | NetworkError(message: string)

  predicate IsOk(o: FetchOutcome) {
    o.Response? && 200 <= o.status <= 299
  }

  /** The message of the error `readCodeFile` catches. */
  function ErrorMessage(o: FetchOutcome): string {
    match o
    case Response(status, statusText, _) => "HTTP " + IntToString(status) + ": " + statusText
    case NetworkError(message) => message
  }

  const ErrorPrefix := "// Error: Could not load file "

  /**
   * `readCodeFile`: fetches the normalised path through `fetch` and yields the
   * body on a 2xx status, or a two-line error comment naming the file and the
   * failure otherwise.
   */
  function ReadCodeFile(filePath: string, fetch: string -> FetchOutcome): (r: string)
    ensures IsOk(fetch(NormalizePath(filePath))) ==> r == fetch(NormalizePath(filePath)).body
    ensures !IsOk(fetch(NormalizePath(filePath))) ==>
              r == ErrorPrefix + GetFileName(filePath) + "\n// " + ErrorMessage(fetch(NormalizePath(filePath)))
    ensures !IsOk(fetch(NormalizePath(filePath))) ==>
              StartsWith(r, ErrorPrefix + GetFileName(filePath) + "\n// ")
              && EndsWith(r, ErrorMessage(fetch(NormalizePath(filePath))))
  {
    var o := fetch(NormalizePath(filePath));
    if IsOk(o) then o.body
    else
      var r := ErrorPrefix + GetFileName(filePath) + "\n// " + ErrorMessage(o);
      assert r[..|ErrorPrefix + GetFileName(filePath) + "\n// "|] == ErrorPrefix + GetFileName(filePath) + "\n// ";
      r
  }

  /** A failed load names the HTTP status in its text. */
  lemma ReadReportsStatus(filePath: string, fetch: string -> FetchOutcome, status: int, statusText: string, body: string)
    requires fetch(NormalizePath(filePath)) == Response(status, statusText, body)
    requires !(200 <= status <= 299)
    ensures EndsWith(ReadCodeFile(filePath, fetch), "HTTP " + IntToString(status) + ": " + statusText)
  {
  }

  /** The anchor `downloadCodeFile` clicks: its `href` and its `download` name. */
  datatype Download = Download(href: string, fileName: string)

  /** `downloadCodeFile`: nothing for an empty path; otherwise its own copy of the normalisation. */
  function DownloadCodeFile(filePath: string): (r: Option<Download>)
    ensures r.None? <==> filePath == []
    ensures r.Some? ==> r.value.fileName == GetFileName(filePath)
  {
    if filePath == [] then None
    else
      var p := if StartsWith(filePath, "./") then filePath[2..] else filePath;
      var href := if !StartsWith(p, "/") && !StartsWith(p, "http") then "/" + p else p;
      Some(Download(href, GetFileName(filePath)))
  }

  /** The download link points where the read fetches from. */
  lemma DownloadAgreesWithRead(filePath: string)
    requires filePath != []
    ensures DownloadCodeFile(filePath) == Some(Download(NormalizePath(filePath), GetFileName(filePath)))
  {
  }
}
