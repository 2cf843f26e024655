/**
 * The rest of the AWS tool (aws/tool.py): parsing the `S3_URI` setting, the rule that ends the
 * Textract polling loop, the filters applied when printing, and `main` tying them together.
 * Textract itself is a parameter: the responses `get_document_analysis` gives, in order,
 * for the job started on an S3 object.
 */
module AwsMain {
  import opened Wrappers
  import opened Text
  import opened AwsBlocks
  import opened AwsExtract

  // ---------------------------------------------------------------- S3 URI

  /** The `DocumentLocation` of the analysis job. */
  datatype S3Object = S3Object(bucket: string, name: string)

  /** Why `main` stops before starting a job. */
  datatype UriError =
    | UriNotSet       // S3_URI unset or empty
    | NotS3Scheme     // does not start with "s3://"
    | NoKeySeparator  // `split("/", 1)` gave one piece, so unpacking raised ValueError

  const Scheme := "s3://"

  /** Strips "s3://", then splits at the first "/" into bucket and object name. */
  function ParseS3Uri(uri: Option<string>): (r: Result<S3Object, UriError>)
    ensures r.Success? ==> uri.Some? && uri.value == Scheme + r.value.bucket + "/" + r.value.name && '/' !in r.value.bucket
    ensures r == Failure(UriNotSet) <==> uri.None? || uri.value == ""
    ensures r == Failure(NotS3Scheme) <==> uri.Some? && uri.value != "" && !(Scheme <= uri.value)
    ensures r == Failure(NoKeySeparator) <==> uri.Some? && Scheme <= uri.value && '/' !in uri.value[|Scheme|..]
  {
    match uri
    case None => Failure(UriNotSet)
    case Some(s) =>
      if s == "" then Failure(UriNotSet)
      else if !(Scheme <= s) then Failure(NotS3Scheme)
      else
        var rest := s[|Scheme|..];
        var i := IndexOf(rest, '/');
        if i == |rest| then
          Failure(NoKeySeparator)
        else
          assert s == Scheme + rest[..i] + "/" + rest[i + 1..];
          assert '/' !in rest[..i];
          Success(S3Object(rest[..i], rest[i + 1..]))
  }

  /** Any bucket without "/" and any object name survive printing as a URI and parsing back. */
  lemma ParseS3UriRoundTrip(obj: S3Object)
    requires '/' !in obj.bucket
    ensures ParseS3Uri(Some(Scheme + obj.bucket + "/" + obj.name)) == Success(obj)
  {
    var s := Scheme + obj.bucket + "/" + obj.name;
    assert Scheme <= s;
    var rest := s[|Scheme|..];
    assert rest == obj.bucket + "/" + obj.name;
    assert rest[|obj.bucket|] == '/';
    assert forall k :: 0 <= k < |obj.bucket| ==> rest[k] == obj.bucket[k];
    assert IndexOf(rest, '/') == |obj.bucket|;
    assert rest[..|obj.bucket|] == obj.bucket;
    assert rest[|obj.bucket| + 1..] == obj.name;
  }

  // ---------------------------------------------------------------- polling the job

  predicate IsTerminal(status: string)
  {
    status == "SUCCEEDED" || status == "FAILED"
  }

  /** The loop leaves after this response: its status is SUCCEEDED or FAILED, or it is missing (`KeyError`). */
  predicate EndsPolling(resp: AnalysisResponse)
  {
    resp.jobStatus.None? || IsTerminal(resp.jobStatus.value)
  }

  const FailurePrefix := "Textract job failed with status: "

  /** What `send_pdf_to_textract` does once the polling loop has ended. */
  datatype JobOutcome =
    | JobSucceeded(response: AnalysisResponse)  // returned
    | JobFailed(message: string)                // raised as Exception(message)
    | StatusMissing                             // `response["JobStatus"]` raised KeyError
    | StillRunning                              // no response ended the loop: it would poll on

  /** The outcome decided by the response that ended the loop. */
  function Verdict(resp: AnalysisResponse): (o: JobOutcome)
    requires EndsPolling(resp)
    ensures o.JobSucceeded? <==> resp.jobStatus == Some("SUCCEEDED")
    ensures o.JobSucceeded? ==> o.response == resp
    ensures o.JobFailed? <==> resp.jobStatus == Some("FAILED")
    ensures o.JobFailed? ==> o.message == FailurePrefix + "FAILED"
    ensures o.StatusMissing? <==> resp.jobStatus.None?
  {
    match resp.jobStatus
    case None => StatusMissing
    case Some(status) => if status == "SUCCEEDED" then JobSucceeded(resp) else JobFailed(FailurePrefix + status)
  }

  /** Index of the first response from `i` on that ends the loop, or `|polls|`. */
  function PollStop(polls: seq<AnalysisResponse>, i: nat): (k: nat)
    requires i <= |polls|
    ensures i <= k <= |polls|
    ensures forall j :: i <= j < k ==> !EndsPolling(polls[j])
    ensures k < |polls| ==> EndsPolling(polls[k])
    decreases |polls| - i
  {
    if i == |polls| || EndsPolling(polls[i]) then i else PollStop(polls, i + 1)
  }

  /** The job's outcome: decided by the first response whose status is SUCCEEDED, FAILED or missing. */
  function JobOutcomeOf(polls: seq<AnalysisResponse>): (o: JobOutcome)
    ensures o.StillRunning? <==> forall j :: 0 <= j < |polls| ==> !EndsPolling(polls[j])
    ensures !o.StillRunning? ==>
      exists k :: 0 <= k < |polls| && EndsPolling(polls[k]) && o == Verdict(polls[k])
                  && forall j :: 0 <= j < k ==> !EndsPolling(polls[j])
  {
    var k := PollStop(polls, 0);
    if k == |polls| then StillRunning else Verdict(polls[k])
  }

  /**
   * The `while True` loop of `send_pdf_to_textract` over the responses Textract gives; `calls`
   * counts the `get_document_analysis` requests made.
   */
  method SendPdfToTextract(polls: seq<AnalysisResponse>) returns (outcome: JobOutcome, calls: nat)
    ensures outcome == JobOutcomeOf(polls)
    ensures calls <= |polls| && forall j :: 0 <= j < calls - 1 ==> !EndsPolling(polls[j])
    ensures outcome.StillRunning? ==> calls == |polls|
    ensures !outcome.StillRunning? ==> 1 <= calls && EndsPolling(polls[calls - 1]) && outcome == Verdict(polls[calls - 1])
  {
    calls := 0;
    while calls < |polls|
      invariant calls <= |polls|
      invariant forall j :: 0 <= j < calls ==> !EndsPolling(polls[j])
    {
      var response := polls[calls];
      calls := calls + 1;
      if response.jobStatus.None? {
        return StatusMissing, calls;
      }
      var status := response.jobStatus.value;
      if status == "SUCCEEDED" || status == "FAILED" {
        if status == "SUCCEEDED" {
          return JobSucceeded(response), calls;
        } else {
          return JobFailed(FailurePrefix + status), calls;
        }
      }
    }
    return StillRunning, calls;
  }

  // ---------------------------------------------------------------- printing

  /** The pairs printed as `key: value`: those with a key found and a value resolved. */
  function ShownPairs(pairs: seq<Pair>): (shown: seq<(string, string)>)
    ensures |shown| <= |pairs|
    ensures forall i :: 0 <= i < |shown| ==> shown[i].0 != KeyNotFound && Pair(shown[i].0, Some(shown[i].1)) in pairs
    ensures forall p :: p in pairs && p.key != KeyNotFound && p.value.Some? ==> (p.key, p.value.value) in shown
  {
    if pairs == [] then []
    else
      var p := pairs[0];
      var rest := ShownPairs(pairs[1..]);
      assert forall q :: q in pairs ==> q == p || q in pairs[1..];
      (if p.key != KeyNotFound && p.value.Some? then [(p.key, p.value.value)] else []) + rest
  }

  /** The cells of one table that are printed: those with non-empty content, in order. */
  function NonEmptyCells(table: seq<Cell>): (shown: seq<Cell>)
    ensures forall c :: c in shown <==> c in table && c.text != ""
  {
    if table == [] then []
    else (if table[0].text != "" then [table[0]] else []) + NonEmptyCells(table[1..])
  }

  /** The cells printed as `Row r, Column c: content`, table after table. */
  function ShownCells(tables: seq<seq<Cell>>): (shown: seq<Cell>)
    ensures forall c :: c in shown <==> c.text != "" && exists t :: t in tables && c in t
  {
    if tables == [] then []
    else
      var rest := ShownCells(tables[1..]);
      assert forall t :: t in tables ==> t == tables[0] || t in tables[1..];
      NonEmptyCells(tables[0]) + rest
  }

  // ---------------------------------------------------------------- main

  /** How a run of the AWS tool ends, and what it prints when it gets that far. */
  datatype AwsRun =
    | Rejected(reason: UriError)
    | Failed(message: string)  // the job's status was FAILED
    | NoJobStatus              // a response lacked JobStatus
    | NoBlocks                 // the succeeded response lacked Blocks
    | NeverFinished            // no response was SUCCEEDED or FAILED, so the loop would poll on
    | Printed(text: seq<string>, pairs: seq<(string, string)>, cells: seq<Cell>)

  /** What `main` prints once the job has ended with `outcome`. */
  function Report(outcome: JobOutcome): AwsRun
  {
    match outcome
    case StillRunning => NeverFinished
    case StatusMissing => NoJobStatus
    case JobFailed(m) => Failed(m)
    case JobSucceeded(resp) =>
      match ExtractResponse(resp)
      case Failure(_) => NoBlocks
      case Success(x) => Printed(x.lines, ShownPairs(x.pairs), ShownCells(x.tables))
  }

  /**
   * `main`: parse the URI, start the job on the parsed object (`textract` gives that job's
   * responses), poll, extract and print. A URI that does not parse starts no job.
   */
  method RunAws(s3Uri: Option<string>, textract: S3Object -> seq<AnalysisResponse>) returns (run: AwsRun, submitted: Option<S3Object>)
    ensures submitted.Some? <==> ParseS3Uri(s3Uri).Success?
    ensures submitted.None? ==> run == Rejected(ParseS3Uri(s3Uri).error)
    ensures submitted.Some? ==> submitted.value == ParseS3Uri(s3Uri).value && run == Report(JobOutcomeOf(textract(submitted.value)))
  {
    var parsed := ParseS3Uri(s3Uri);
    if parsed.Failure? {
      return Rejected(parsed.error), None;
    }
    var job := parsed.value;
    submitted := Some(job);
    var outcome, _ := SendPdfToTextract(textract(job));
    match outcome {
      case StillRunning => run := NeverFinished;
      case StatusMissing => run := NoJobStatus;
      case JobFailed(m) => run := Failed(m);
      case JobSucceeded(response) =>
        var extracted := ExtractDataFromResult(response);
        if extracted.Failure? {
          run := NoBlocks;
        } else {
          var x := extracted.value;
          run := Printed(x.lines, ShownPairs(x.pairs), ShownCells(x.tables));
        }
    }
  }
}
