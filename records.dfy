/**
 * The tail of fetchDetails: the two response bodies are fetched by the ids
 * the listener bound and decoded, then the decoded entries are converted into
 * the service's submission and contest records. Body retrieval and JSON
 * decoding are injected functions whose result is either the decoded entries
 * or a failure; floating-point fields are carried as opaque bit patterns.
 */
module Records {

  import opened Wrappers

  const AcceptedStatus: string := "AC"
  const CodeUrlPrefix: string := "https://leetcode.com/submissions/detail/"

  /** One entry of recentAcSubmissionList. */
  datatype RawSubmission = RawSubmission(id: string, title: string, titleSlug: string, timestamp: string)

  /** A float64 value, never inspected, only copied. */
  datatype Float64 = Float64(bits: bv64)

  datatype Contest = Contest(title: string, startTime: int)

  /** One entry of userContestRankingHistory. */
  datatype ContestHistoryEntry = ContestHistoryEntry(
    attended: bool,
    trendDirection: string,
    problemsSolved: int,
    totalProblems: int,
    finishTimeInSeconds: int,
    rating: Float64,
    ranking: int,
    contest: Contest)

  /** The service's submission record; language and problem URL stay empty here. */
  datatype SubmissionRecord = SubmissionRecord(
    problemName: string,
    submissionDate: string,
    submissionStatus: string,
    codeUrl: string,
    submissionLanguage: string,
    problemUrl: string)

  datatype ContestRecord = ContestRecord(contestName: string, rank: int, rating: Float64, solved: int, contestId: string)

  const TwoTo31: int := 0x8000_0000
  const TwoTo32: int := 0x1_0000_0000

  /** Go's int32(x) conversion: keeps the low 32 bits, read as two's complement. */
  function Int32Of(x: int): (r: int)
    ensures -TwoTo31 <= r < TwoTo31
    ensures (x - r) % TwoTo32 == 0
    ensures -TwoTo31 <= x < TwoTo31 ==> r == x
  {
    (x + TwoTo31) % TwoTo32 - TwoTo31
  }

  function SubmissionRecordOf(raw: RawSubmission): SubmissionRecord
  {
    SubmissionRecord(raw.title, raw.timestamp, AcceptedStatus, CodeUrlPrefix + raw.id, "", "")
  }

  function ContestRecordOf(entry: ContestHistoryEntry): ContestRecord
  {
    ContestRecord(entry.contest.title, entry.ranking, entry.rating, Int32Of(entry.problemsSolved), entry.contest.title)
  }

  /**
   * One record per raw submission, in input order: the title as problem name,
   * the timestamp string unchanged, status "AC" and the code URL made of the
   * fixed prefix and the submission id.
   */
  ghost predicate NormalizedSubmissions(raw: seq<RawSubmission>, records: seq<SubmissionRecord>)
  {
    && |records| == |raw|
    && forall i :: 0 <= i < |raw| ==>
      && records[i].problemName == raw[i].title
      && records[i].submissionDate == raw[i].timestamp
      && records[i].submissionStatus == AcceptedStatus
      && records[i].codeUrl == CodeUrlPrefix + raw[i].id
      && records[i].submissionLanguage == ""
      && records[i].problemUrl == ""
  }

  /** The records of the attended entries, in input order. */
  function AttendedRecords(entries: seq<ContestHistoryEntry>): (records: seq<ContestRecord>)
    ensures |records| <= |entries|
    decreases |entries|
  {
    if |entries| == 0 then []
    else
      var last := entries[|entries| - 1];
      AttendedRecords(entries[..|entries| - 1]) + if last.attended then [ContestRecordOf(last)] else []
  }

  /** The positions of the attended entries, in increasing order. */
  function AttendedIndices(entries: seq<ContestHistoryEntry>): (indices: seq<nat>)
    ensures forall k :: 0 <= k < |indices| ==> indices[k] < |entries| && entries[indices[k]].attended
    ensures forall k, l :: 0 <= k < l < |indices| ==> indices[k] < indices[l]
    ensures forall i :: 0 <= i < |entries| && entries[i].attended ==> i in indices
    decreases |entries|
  {
    if |entries| == 0 then []
    else
      var n := |entries| - 1;
      var front := AttendedIndices(entries[..n]);
      assert forall i :: 0 <= i < n ==> entries[..n][i] == entries[i];
      front + if entries[n].attended then [n] else []
  }

  /**
   * The contest records are exactly the attended entries, converted, in input
   * order: the k-th record comes from the k-th attended entry.
   */
  lemma {:induction false} AttendedRecordsSelect(entries: seq<ContestHistoryEntry>)
    ensures |AttendedRecords(entries)| == |AttendedIndices(entries)|
    ensures forall k :: 0 <= k < |AttendedIndices(entries)| ==>
      AttendedRecords(entries)[k] == ContestRecordOf(entries[AttendedIndices(entries)[k]])
    decreases |entries|
  {
    if |entries| > 0 {
      var n := |entries| - 1;
      AttendedRecordsSelect(entries[..n]);
      assert forall i :: 0 <= i < n ==> entries[..n][i] == entries[i];
    }
  }

  /** Converting a concatenation converts each part, in order. */
  lemma {:induction false} AttendedRecordsAppend(first: seq<ContestHistoryEntry>, second: seq<ContestHistoryEntry>)
    ensures AttendedRecords(first + second) == AttendedRecords(first) + AttendedRecords(second)
    decreases |second|
  {
    if |second| == 0 {
      assert first + second == first;
    } else {
      var n := |second| - 1;
      assert (first + second)[..|first| + n] == first + second[..n];
      AttendedRecordsAppend(first, second[..n]);
    }
  }

  /** Each contest record names the contest by its title, both as name and as id. */
  lemma {:induction false} ContestIdIsTitle(entries: seq<ContestHistoryEntry>)
    ensures forall k :: 0 <= k < |AttendedRecords(entries)| ==>
      AttendedRecords(entries)[k].contestId == AttendedRecords(entries)[k].contestName
    decreases |entries|
  {
    if |entries| > 0 {
      ContestIdIsTitle(entries[..|entries| - 1]);
    }
  }

  /** Three entries with the middle one not attended give the records of the first and the third. */
  lemma MiddleUnattendedDropped(first: ContestHistoryEntry, middle: ContestHistoryEntry, third: ContestHistoryEntry)
    requires first.attended && !middle.attended && third.attended
    ensures AttendedRecords([first, middle, third]) == [ContestRecordOf(first), ContestRecordOf(third)]
  {
    var entries := [first, middle, third];
    assert [first][..0] == [];
    assert AttendedRecords([first]) == [ContestRecordOf(first)];
    assert [first, middle][..1] == [first];
    assert AttendedRecords([first, middle]) == [ContestRecordOf(first)];
    assert entries[..2] == [first, middle];
  }

  /** The first loop: one record per raw submission, appended in order. */
  method NormalizeSubmissions(raw: seq<RawSubmission>) returns (submissions: seq<SubmissionRecord>)
    ensures NormalizedSubmissions(raw, submissions)
  {
    submissions := [];
    for i := 0 to |raw|
      invariant NormalizedSubmissions(raw[..i], submissions)
    {
      submissions := submissions + [SubmissionRecordOf(raw[i])];
    }
    assert raw[..|raw|] == raw;
  }

  /** The second loop: entries not attended are skipped, the others appended in order. */
  method NormalizeContests(entries: seq<ContestHistoryEntry>) returns (contests: seq<ContestRecord>)
    ensures contests == AttendedRecords(entries)
  {
    contests := [];
    for i := 0 to |entries|
      invariant contests == AttendedRecords(entries[..i])
    {
      assert entries[..i + 1][..i] == entries[..i];
      var contest := entries[i];
      if !contest.attended {
        continue;
      }
      contests := contests + [ContestRecord(contest.contest.title, contest.ranking, contest.rating, Int32Of(contest.problemsSolved), contest.contest.title)];
    }
    assert entries[..|entries|] == entries;
  }

  /** A response body, never inspected here. */
  datatype Body = Body(bytes: seq<bv8>)

  datatype FetchError = BodyUnavailable(requestId: string) | MalformedBody(requestId: string)

  datatype Fetched = Fetched(submissions: seq<SubmissionRecord>, contests: seq<ContestRecord>)

  /**
   * Retrieval and conversion after the readiness signal: the submissions body
   * is fetched and decoded first, then the contest body; the first failure is
   * returned alone, with no records. Each body is fetched by its own bound id.
   */
  method FetchRecords(
    submissionId: string,
    contestId: string,
    retrieve: string -> Option<Body>,
    decodeSubmissions: Body -> Option<seq<RawSubmission>>,
    decodeContests: Body -> Option<seq<ContestHistoryEntry>>)
    returns (result: Result<Fetched, FetchError>)
    ensures retrieve(submissionId).None? ==> result == Err(BodyUnavailable(submissionId))
    ensures retrieve(submissionId).Some? && decodeSubmissions(retrieve(submissionId).value).None? ==>
      result == Err(MalformedBody(submissionId))
    ensures retrieve(submissionId).Some? && decodeSubmissions(retrieve(submissionId).value).Some? ==>
      && (retrieve(contestId).None? ==> result == Err(BodyUnavailable(contestId)))
      && (retrieve(contestId).Some? && decodeContests(retrieve(contestId).value).None? ==>
           result == Err(MalformedBody(contestId)))
    ensures result.Ok? <==>
      && retrieve(submissionId).Some? && decodeSubmissions(retrieve(submissionId).value).Some?
      && retrieve(contestId).Some? && decodeContests(retrieve(contestId).value).Some?
    ensures result.Ok? ==>
      && NormalizedSubmissions(decodeSubmissions(retrieve(submissionId).value).value, result.value.submissions)
      && result.value.contests == AttendedRecords(decodeContests(retrieve(contestId).value).value)
  {
    var submissionBody := retrieve(submissionId);
    if submissionBody.None? {
      return Err(BodyUnavailable(submissionId));
    }
    var raw := decodeSubmissions(submissionBody.value);
    if raw.None? {
      return Err(MalformedBody(submissionId));
    }
    var contestBody := retrieve(contestId);
    if contestBody.None? {
      return Err(BodyUnavailable(contestId));
    }
    var entries := decodeContests(contestBody.value);
    if entries.None? {
      return Err(MalformedBody(contestId));
    }
    var submissions := NormalizeSubmissions(raw.value);
    var contests := NormalizeContests(entries.value);
    return Ok(Fetched(submissions, contests));
  }
}
