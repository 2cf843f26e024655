/**
 * The Azure tool (azure/tool.py): the operation id taken from the `Operation-Location`
 * header, the loop polling `get_read_result`, the flattening of the Read results into line
 * texts, and `main`'s configuration checks and page loop. The service is a parameter: for
 * page `i` the header `locations[i]` (missing when `None`) and for an operation id the
 * results `get_read_result` gives, in order.
 */
module AzureRead {
  import opened Wrappers
  import opened Text

  datatype Line = Line(text: string)
  datatype ReadPage = ReadPage(lines: seq<Line>)

  /** A `get_read_result` answer; `analyzeResult` is `None` when the service sent none. */
  datatype ReadResult = ReadResult(status: string, analyzeResult: Option<seq<ReadPage>>)

  // ---------------------------------------------------------------- operation id

  /** An operation id after the last "/" of a location is read back unchanged. */
  lemma OperationIdRoundTrip(prefix: string, id: string)
    requires '/' !in id
    ensures LastSegment(prefix + "/" + id, '/') == id
  {
    var s := prefix + "/" + id;
    var r := LastSegment(s, '/');
    assert s[|s| - |id| - 1] == '/';
    if |r| > |id| {
      assert false;
    } else if |r| < |id| {
      assert false;
    }
    assert s[|s| - |id|..] == id;
  }

  // ---------------------------------------------------------------- polling

  /** The statuses for which `send_image_to_azure` polls again. */
  predicate InProgress(status: string)
  {
    status == "notStarted" || status == "running"
  }

  /** Index of the first result from `i` on whose status ends the loop, or `|polls|`. */
  function ReadStop(polls: seq<ReadResult>, i: nat): (k: nat)
    requires i <= |polls|
    ensures i <= k <= |polls|
    ensures forall j :: i <= j < k ==> InProgress(polls[j].status)
    ensures k < |polls| ==> !InProgress(polls[k].status)
    decreases |polls| - i
  {
    if i == |polls| || !InProgress(polls[i].status) then i else ReadStop(polls, i + 1)
  }

  /** How `send_image_to_azure` ends for one page. */
  datatype ReadOutcome =
    | ReadDone(pages: seq<ReadPage>)  // `analyze_result.read_results` returned
    | NoLocationHeader                // `headers["Operation-Location"]` raised KeyError
    | NoAnalyzeResult                 // `analyze_result` was None: AttributeError
    | StillReading                    // no result left the loop: it would poll on

  /** The outcome decided by the first result whose status is neither notStarted nor running. */
  function ReadOutcomeOf(polls: seq<ReadResult>): (o: ReadOutcome)
    ensures o.StillReading? <==> forall j :: 0 <= j < |polls| ==> InProgress(polls[j].status)
    ensures !o.StillReading? ==>
      exists k :: 0 <= k < |polls| && !InProgress(polls[k].status)
                  && (forall j :: 0 <= j < k ==> InProgress(polls[j].status))
                  && (o.ReadDone? <==> polls[k].analyzeResult.Some?)
                  && (o.ReadDone? ==> o.pages == polls[k].analyzeResult.value)
    ensures !o.NoLocationHeader?
  {
    var k := ReadStop(polls, 0);
    if k == |polls| then StillReading
    else if polls[k].analyzeResult.None? then NoAnalyzeResult
    else ReadDone(polls[k].analyzeResult.value)
  }

  /** The page outcome: a missing header fails at once; otherwise the id's results decide. */
  function PageOutcome(location: Option<string>, results: string -> seq<ReadResult>): (o: ReadOutcome)
    ensures o.NoLocationHeader? <==> location.None?
  {
    match location
    case None => NoLocationHeader
    case Some(loc) => ReadOutcomeOf(results(LastSegment(loc, '/')))
  }

  /**
   * `send_image_to_azure` after the upload: the id from the header, then the `while True` loop;
   * `polled` is the operation id polled, if any.
   */
  method SendImageToAzure(location: Option<string>, results: string -> seq<ReadResult>)
    returns (outcome: ReadOutcome, polled: Option<string>)
    ensures outcome == PageOutcome(location, results)
    ensures polled.Some? <==> location.Some?
    ensures polled.Some? ==> '/' !in polled.value && polled.value == LastSegment(location.value, '/')
  {
    if location.None? {
      return NoLocationHeader, None;
    }
    var operationId := LastSegment(location.value, '/');
    polled := Some(operationId);
    var polls := results(operationId);
    var i := 0;
    while i < |polls|
      invariant i <= |polls|
      invariant ReadStop(polls, 0) == ReadStop(polls, i)
    {
      var readResult := polls[i];
      if !InProgress(readResult.status) {
        if readResult.analyzeResult.None? {
          return NoAnalyzeResult, polled;
        }
        return ReadDone(readResult.analyzeResult.value), polled;
      }
      i := i + 1;
    }
    outcome := StillReading;
  }

  // ---------------------------------------------------------------- line texts

  /** The text of each line. */
  function LinesTexts(lines: seq<Line>): (r: seq<string>)
    ensures |r| == |lines| && forall j :: 0 <= j < |lines| ==> r[j] == lines[j].text
  {
    if lines == [] then [] else LinesTexts(lines[..|lines| - 1]) + [lines[|lines| - 1].text]
  }

  /** Every line's text, page by page and line by line. */
  function LineTexts(pages: seq<ReadPage>): seq<string>
  {
    if pages == [] then [] else LineTexts(pages[..|pages| - 1]) + LinesTexts(pages[|pages| - 1].lines)
  }

  /** The number of lines on `pages`. */
  function LineCount(pages: seq<ReadPage>): nat
  {
    if pages == [] then 0 else LineCount(pages[..|pages| - 1]) + |pages[|pages| - 1].lines|
  }

  /** The texts of the first `p + 1` pages extend those of the first `p` by page `p`'s line texts. */
  lemma LineTextsStep(pages: seq<ReadPage>, p: nat)
    requires p < |pages|
    ensures LineTexts(pages[..p + 1]) == LineTexts(pages[..p]) + LinesTexts(pages[p].lines)
    ensures LineCount(pages[..p + 1]) == LineCount(pages[..p]) + |pages[p].lines|
  {
    assert pages[..p + 1][..p] == pages[..p];
  }

  /** There is one text per line. */
  lemma {:induction false} LineTextsLength(pages: seq<ReadPage>)
    ensures |LineTexts(pages)| == LineCount(pages)
  {
    if pages != [] {
      LineTextsLength(pages[..|pages| - 1]);
    }
  }

  /** The text of line `l` of page `p` sits after the lines of the pages before it. */
  lemma {:induction false} LineTextAt(pages: seq<ReadPage>, p: nat, l: nat)
    requires p < |pages| && l < |pages[p].lines|
    ensures LineCount(pages[..p]) + l < LineCount(pages) == |LineTexts(pages)|
    ensures LineTexts(pages)[LineCount(pages[..p]) + l] == pages[p].lines[l].text
  {
    var n := |pages| - 1;
    LineTextsLength(pages[..n]);
    LineTextsLength(pages);
    assert pages[..n + 1] == pages;
    LineTextsStep(pages, n);
    if p < n {
      LineTextAt(pages[..n], p, l);
      assert pages[..n][..p] == pages[..p];
      assert pages[..n][p] == pages[p];
    }
  }

  /** `extract_data_from_result`: the texts of all lines, in order. */
  method ExtractDataFromResult(pages: seq<ReadPage>) returns (texts: seq<string>)
    ensures texts == LineTexts(pages)
    ensures |texts| == LineCount(pages)
  {
    texts := [];
    var p := 0;
    while p < |pages|
      invariant 0 <= p <= |pages|
      invariant texts == LineTexts(pages[..p])
    {
      var lines := pages[p].lines;
      var l := 0;
      while l < |lines|
        invariant 0 <= l <= |lines|
        invariant texts == LineTexts(pages[..p]) + LinesTexts(lines[..l])
      {
        assert lines[..l + 1][..l] == lines[..l];
        texts := texts + [lines[l].text];
        l := l + 1;
      }
      assert lines[..l] == lines;
      LineTextsStep(pages, p);
      p := p + 1;
    }
    assert pages[..p] == pages;
    LineTextsLength(pages);
  }

  // ---------------------------------------------------------------- main

  /** An environment variable that Python treats as false: unset or empty. */
  predicate Unset(v: Option<string>)
  {
    v.None? || v.value == ""
  }

  datatype AzureRun =
    | FilePathMissing
    | EndpointOrKeyMissing
    | Analyzed(printed: seq<seq<string>>, halted: Option<ReadOutcome>)  // the texts printed per page; what ended the run early

  /** Each of the pages `locations[..|printed|]` was read to the end and its line texts printed. */
  predicate PrintedInFull(printed: seq<seq<string>>, locations: seq<Option<string>>, results: string -> seq<ReadResult>)
  {
    |printed| <= |locations|
    && forall i :: 0 <= i < |printed| ==>
         PageOutcome(locations[i], results).ReadDone?
         && printed[i] == LineTexts(PageOutcome(locations[i], results).pages)
  }

  /**
   * The texts printed for pages `locations[..|printed|]`, each of which was read to the end,
   * and, when `halted` is set, what stopped the run at the next page.
   */
  predicate PrintsPages(printed: seq<seq<string>>, halted: Option<ReadOutcome>,
                        locations: seq<Option<string>>, results: string -> seq<ReadResult>)
  {
    PrintedInFull(printed, locations, results)
    && (halted.None? <==> |printed| == |locations|)
    && (halted.Some? ==> !halted.value.ReadDone? && halted.value == PageOutcome(locations[|printed|], results))
  }

  /**
   * `main`'s page loop: pages are read in order; a page whose read fails or never finishes
   * ends the run, the pages before it having been printed.
   */
  method ReadPages(locations: seq<Option<string>>, results: string -> seq<ReadResult>)
    returns (printed: seq<seq<string>>, halted: Option<ReadOutcome>)
    ensures PrintsPages(printed, halted, locations, results)
  {
    printed := [];
    var i := 0;
    while i < |locations|
      invariant 0 <= i <= |locations|
      invariant |printed| == i
      invariant PrintedInFull(printed, locations, results)
    {
      var outcome, _ := SendImageToAzure(locations[i], results);
      if !outcome.ReadDone? {
        return printed, Some(outcome);
      }
      var extracted := ExtractDataFromResult(outcome.pages);
      printed := printed + [extracted];
      i := i + 1;
    }
    halted := None;
  }

  /**
   * `main`: `FILE_PATH` is checked first, then the endpoint and key, and only then is a client
   * built and the pages read.
   */
  method RunAzure(filePath: Option<string>, endpoint: Option<string>, key: Option<string>,
                  locations: seq<Option<string>>, results: string -> seq<ReadResult>)
    returns (run: AzureRun, clientBuilt: bool)
    ensures run == FilePathMissing <==> Unset(filePath)
    ensures run == EndpointOrKeyMissing <==> !Unset(filePath) && (Unset(endpoint) || Unset(key))
    ensures clientBuilt <==> run.Analyzed?
    ensures run.Analyzed? ==> PrintsPages(run.printed, run.halted, locations, results)
  {
    if Unset(filePath) {
      return FilePathMissing, false;
    }
    if Unset(endpoint) || Unset(key) {
      return EndpointOrKeyMissing, false;
    }
    clientBuilt := true;
    var printed, halted := ReadPages(locations, results);
    run := Analyzed(printed, halted);
  }
}
