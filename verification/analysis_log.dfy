/** The analysis log of srv.js: a most-recent-first array of generated
    analyses, loaded with the store and extended by `/api/log-analysis`.
    The clock is a parameter (an opaque ISO timestamp) and the file write is
    the document returned. */
module AnalysisLog {
  import opened Common

  datatype LogEntry = LogEntry(
    timestamp: string,
    itemId: string,
    revendication: string,
    detailHtml: string,
    solutionHtml: string,
    mediaUrl: string)

  type Log = seq<LogEntry>

  /** The body fields `/api/log-analysis` reads. */
  datatype LogRequest = LogRequest(
    itemId: Option<string>,
    revendication: Option<string>,
    detailHtml: Option<string>,
    solutionHtml: Option<string>,
    mediaUrl: Option<string>)

  datatype LogReply = Logged | MissingFields
  {
    function Status(): int
    {
      match this
      case Logged => 200
      case MissingFields => 400
    }
  }

  /** Loading: an unreadable or unparseable log counts as empty. */
  function LoadLog(stored: Option<Log>): (log: Log)
    ensures stored.Some? ==> log == stored.value
    ensures stored.None? ==> log == []
  {
    stored.GetOr([])
  }

  /** `saveAnalysisLog`: the timestamped entry goes to the front; the whole
      array is then written back. */
  function SaveAnalysisLog(log: Log, timestamp: string, entry: LogEntry): (log': Log)
    ensures |log'| == |log| + 1
    ensures log'[0] == entry.(timestamp := timestamp)
    ensures forall i :: 0 <= i < |log| ==> log'[i + 1] == log[i]
  {
    [entry.(timestamp := timestamp)] + log
  }

  /** `/api/log-analysis`: all four text fields are required; `mediaUrl`
      defaults to 'N/A'. The write's own errors are swallowed, so the 500
      branch is never taken. */
  function LogAnalysis(log: Log, timestamp: string, req: LogRequest): (r: (Log, LogReply))
    ensures r.1 == MissingFields <==>
      !Truthy(req.itemId) || !Truthy(req.revendication) || !Truthy(req.detailHtml) || !Truthy(req.solutionHtml)
    ensures r.1 == MissingFields ==> r.0 == log
    ensures r.1 == Logged ==>
      && |r.0| == |log| + 1
      && r.0[1..] == log
      && r.0[0] == LogEntry(timestamp, req.itemId.value, req.revendication.value,
                            req.detailHtml.value, req.solutionHtml.value, StringOr(req.mediaUrl, "N/A"))
  {
    if !Truthy(req.itemId) || !Truthy(req.revendication) || !Truthy(req.detailHtml) || !Truthy(req.solutionHtml) then
      (log, MissingFields)
    else
      var entry := LogEntry("", req.itemId.value, req.revendication.value, req.detailHtml.value,
                            req.solutionHtml.value, StringOr(req.mediaUrl, "N/A"));
      (SaveAnalysisLog(log, timestamp, entry), Logged)
  }

  /** `saveAnalysisLog` applied once per entry, oldest first. */
  function LogMany(log: Log, timestamps: seq<string>, entries: seq<LogEntry>): Log
    requires |timestamps| == |entries|
    decreases |entries|
  {
    if entries == [] then log
    else LogMany(SaveAnalysisLog(log, timestamps[0], entries[0]), timestamps[1..], entries[1..])
  }

  /** Logging analyses one after another only ever adds at the front: the
      earlier log survives unchanged as the suffix, one entry is added per
      call, and the newest analysis comes first. */
  lemma {:induction false} LogIsPrependOnly(log: Log, timestamps: seq<string>, entries: seq<LogEntry>)
    requires |timestamps| == |entries|
    ensures |LogMany(log, timestamps, entries)| == |log| + |entries|
    ensures LogMany(log, timestamps, entries)[|entries|..] == log
    ensures entries != [] ==>
      LogMany(log, timestamps, entries)[0] == entries[|entries| - 1].(timestamp := timestamps[|entries| - 1])
    decreases |entries|
  {
    if entries != [] {
      var log1 := SaveAnalysisLog(log, timestamps[0], entries[0]);
      LogIsPrependOnly(log1, timestamps[1..], entries[1..]);
      var r := LogMany(log, timestamps, entries);
      assert r == LogMany(log1, timestamps[1..], entries[1..]);
      assert r[|entries|..] == r[|entries| - 1..][1..];
      assert log1[1..] == log;
    }
  }
}
