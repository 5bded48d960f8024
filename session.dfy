/** The session history and the two ways of filling it: one pasted chat, or a batch of
    chats separated by the delimiter line. The capability's behaviour, the SDK's presence,
    the key typed in and today's date are parameters. */
module Session {
  import opened Wrappers
  import opened Json
  import opened PyStr
  import opened Splitter
  import opened Prompt
  import opened Extraction
  import opened Projector

  const PasteChatWarning: string := "Please paste a chat first."
  const PasteSomethingWarning: string := "Please paste something."
  /** `str(KeyError('summary'))`: what the single-chat view shows for a failed result, which
      has no `summary` key. */
  const SummaryKeyError: string := "'summary'"

  /** What the single-chat view shows: a warning, an error (any Python object passed to
      `st.error`), or the processed result. */
  datatype Shown = Warned(message: string) | Errored(shown: Json) | Processed(result: seq<(string, Json)>)

  /** What a single run shows, and the rows it appends to the history. */
  datatype Step = Step(status: Shown, appended: seq<Row>)

  /** How a batch run ends. */
  datatype BatchOutcome = BatchWarned(message: string) | Aborted(message: string) | Completed(rows: seq<Row>)

  /** The view after the row was appended: a result with an `error` key shows
      `result["summary"]`, which a failure does not have. */
  function Display(result: Outcome): Shown {
    if !IsErrorResult(result) then Processed(result.data)
    else if result.Success? && HasKey(result.data, "summary") then Errored(Lookup(result.data, "summary").value)
    else Errored(String(SummaryKeyError))
  }

  /** The "Process This Chat" button. */
  function SingleRun(chat: string, hasSdk: bool, apiKey: string, date: string, oracle: Oracle): Step {
    if Strip(chat) == [] then Step(Warned(PasteChatWarning), [])
    else match EnsureClient(hasSdk, apiKey)
      case Err(m) => Step(Errored(String(m)), [])
      case Ok(_) =>
        var result := Extract(chat, oracle);
        match ToRow(chat, date, result)
        case Err(m) => Step(Errored(String(m)), [])
        case Ok(row) => Step(Display(result), [row])
  }

  /** What processing one part of a batch gives: its row, or the message of the exception
      building the row raised. */
  function PartRow(part: string, date: string, oracle: Oracle): Result<Row> {
    ToRow(part, date, Extract(part, oracle))
  }

  /** The row (or exception) of each part of a batch, in order. */
  function PartRows(parts: seq<string>, date: string, oracle: Oracle): (r: seq<Result<Row>>)
    ensures |r| == |parts|
  {
    seq(|parts|, i requires 0 <= i < |parts| => PartRow(parts[i], date, oracle))
  }

  /** The rows in order, or the message of the first exception. */
  function Collect(results: seq<Result<Row>>): Result<seq<Row>>
    decreases |results|
  {
    if results == [] then Ok([])
    else
      match Collect(results[..|results| - 1])
      case Err(m) => Err(m)
      case Ok(rows) =>
        match results[|results| - 1]
        case Err(m) => Err(m)
        case Ok(row) => Ok(rows + [row])
  }

  /** The rows of a batch, or the message of the first part whose row cannot be built. */
  function ProjectAll(parts: seq<string>, date: string, oracle: Oracle): Result<seq<Row>> {
    Collect(PartRows(parts, date, oracle))
  }

  /** The "Process All Chats in Batch" button. */
  function BatchRun(text: string, hasSdk: bool, apiKey: string, date: string, oracle: Oracle): BatchOutcome {
    if Strip(text) == [] then BatchWarned(PasteSomethingWarning)
    else
      var parts := SplitByDelimiter(text, DefaultDelimiter);
      match EnsureClient(hasSdk, apiKey)
      case Err(m) => Aborted(m)
      case Ok(_) =>
        match ProjectAll(parts, date, oracle)
        case Err(m) => Aborted(m)
        case Ok(rows) => Completed(rows)
  }

  /** The requests sent for `parts`, one per part, in order. */
  function Requests(parts: seq<string>): (r: seq<Request>)
    ensures |r| == |parts| && forall i :: 0 <= i < |r| ==> r[i] == Compose(parts[i])
    decreases |parts|
  {
    if parts == [] then [] else Requests(parts[..|parts| - 1]) + [Compose(parts[|parts| - 1])]
  }

  /** Whether a batch over `parts` stopped right after its `n`-th part: the first `n - 1`
      parts gave rows, the `n`-th did not. */
  predicate StoppedAt(parts: seq<string>, n: nat, date: string, oracle: Oracle)
    requires 0 < n <= |parts|
  {
    var results := PartRows(parts, date, oracle);
    Collect(results[..n - 1]).Ok? && Collect(results[..n]).Err?
  }

  /** One iteration of the batch loop: `process_chat` on the part, then `to_row`. */
  method ProcessPart(part: string, date: string, oracle: Oracle) returns (row: Result<Row>)
    ensures row == PartRow(part, date, oracle)
  {
    var outcome := ProcessChat(part, oracle);
    row := ToRow(part, date, outcome);
  }

  /** The loop over the parts of a batch: each part is sent once, in order, and its row
      built; the first part whose row cannot be built ends the loop. */
  method ProcessParts(parts: seq<string>, date: string, oracle: Oracle)
    returns (result: Result<seq<Row>>, sent: seq<Request>)
    ensures result == ProjectAll(parts, date, oracle)
    ensures |sent| <= |parts| && sent == Requests(parts[..|sent|])
    ensures result.Ok? ==> |sent| == |parts|
    ensures result.Err? ==> 0 < |sent| && StoppedAt(parts, |sent|, date, oracle)
  {
    ghost var results := PartRows(parts, date, oracle);
    var batch: seq<Row> := [];
    sent := [];
    for i := 0 to |parts|
      invariant Collect(results[..i]) == Ok(batch)
      invariant sent == Requests(parts[..i])
    {
      var row := ProcessPart(parts[i], date, oracle);
      assert row == results[i];
      CollectStep(results, i);
      RequestsStep(parts, i);
      sent := sent + [Compose(parts[i])];
      if row.Err? {
        CollectStops(results, i + 1);
        return Err(row.message), sent;
      }
      batch := batch + [row.value];
    }
    assert results[..|parts|] == results;
    result := Ok(batch);
  }

  /** The rows processed in this session (`st.session_state["history"]`). */
  class History {
    var rows: seq<Row>

    /** The history starts empty the first time the page runs. */
    constructor()
      ensures rows == []
    {
      rows := [];
    }

    /** The columns of the exported table. */
    function ExportColumns(): (r: seq<string>)
      reads this
      ensures r == if rows == [] then [] else Columns
    {
      Projector.ExportColumns(rows);
      FrameColumns(RowDicts(rows))
    }

    /** `df.empty` for the exported table: it has no rows exactly when nothing has been
        processed yet. */
    function IsEmpty(): (r: bool)
      reads this
      ensures r <==> rows == []
    {
      ExportColumns() == [] || rows == []
    }

    /** One chat: a blank paste only warns; a failed key check shows its error; otherwise
        the chat is sent once and its row appended, unless building the row raises. */
    method ProcessOne(chat: string, hasSdk: bool, apiKey: string, date: string, oracle: Oracle)
      returns (status: Shown, sent: seq<Request>)
      modifies this
      ensures status == SingleRun(chat, hasSdk, apiKey, date, oracle).status
      ensures rows == old(rows) + SingleRun(chat, hasSdk, apiKey, date, oracle).appended
      ensures sent == if Strip(chat) == [] || EnsureClient(hasSdk, apiKey).Err? then [] else [Compose(chat)]
    {
      if Strip(chat) == [] {
        return Warned(PasteChatWarning), [];
      }
      var client := EnsureClient(hasSdk, apiKey);
      if client.Err? {
        return Errored(String(client.message)), [];
      }
      var result := ProcessChat(chat, oracle);
      sent := [Compose(chat)];
      var row := ToRow(chat, date, result);
      if row.Err? {
        return Errored(String(row.message)), sent;
      }
      rows := rows + [row.value];
      status := Display(result);
    }

    /** A batch: the parts are processed in order and their rows appended together at the
        end; a part whose row cannot be built stops the batch and nothing is appended. */
    method ProcessBatch(text: string, hasSdk: bool, apiKey: string, date: string, oracle: Oracle)
      returns (outcome: BatchOutcome, sent: seq<Request>)
      modifies this
      ensures outcome == BatchRun(text, hasSdk, apiKey, date, oracle)
      ensures rows == old(rows) + if outcome.Completed? then outcome.rows else []
      ensures Strip(text) == [] || EnsureClient(hasSdk, apiKey).Err? ==> sent == []
      ensures var parts := SplitByDelimiter(text, DefaultDelimiter);
        |sent| <= |parts| && sent == Requests(parts[..|sent|])
        && (outcome.Completed? ==> |sent| == |parts|)
        && (outcome.Aborted? && sent != [] ==> StoppedAt(parts, |sent|, date, oracle))
    {
      if Strip(text) == [] {
        return BatchWarned(PasteSomethingWarning), [];
      }
      var parts := SplitByDelimiter(text, DefaultDelimiter);
      var client := EnsureClient(hasSdk, apiKey);
      if client.Err? {
        return Aborted(client.message), [];
      }
      var projected;
      projected, sent := ProcessParts(parts, date, oracle);
      if projected.Err? {
        return Aborted(projected.message), sent;
      }
      rows := rows + projected.value;
      outcome := Completed(projected.value);
    }
  }

  // ---------------------------------------------------------------------------------------
  // Properties of a batch

  /** Extending a successful prefix of the batch by one more result. */
  lemma CollectStep(results: seq<Result<Row>>, i: nat)
    requires i < |results| && Collect(results[..i]).Ok?
    ensures Collect(results[..i + 1]) ==
      if results[i].Ok? then Ok(Collect(results[..i]).value + [results[i].value])
      else Err(results[i].message)
  {
    assert results[..i + 1][..i] == results[..i];
  }

  /** The requests of one more part. */
  lemma RequestsStep(parts: seq<string>, i: nat)
    requires i < |parts|
    ensures Requests(parts[..i + 1]) == Requests(parts[..i]) + [Compose(parts[i])]
  {
    assert parts[..i + 1][..i] == parts[..i];
  }

  /** Once a prefix of the batch has failed, the whole batch fails with the same message. */
  lemma {:induction false} CollectStops(results: seq<Result<Row>>, n: nat)
    requires n <= |results| && Collect(results[..n]).Err?
    ensures Collect(results) == Collect(results[..n])
    decreases |results| - n
  {
    if n < |results| {
      assert results[..|results| - 1][..n] == results[..n];
      CollectStops(results[..|results| - 1], n);
    } else {
      assert results[..n] == results;
    }
  }

  /** A batch succeeds exactly when every part's row can be built, and then its rows are
      those rows, one per part, in the order of the parts. */
  lemma {:induction false} CollectOk(results: seq<Result<Row>>)
    ensures Collect(results).Ok? <==> forall i :: 0 <= i < |results| ==> results[i].Ok?
    ensures Collect(results).Ok? ==>
      (|Collect(results).value| == |results| &&
       forall i :: 0 <= i < |results| ==> results[i] == Ok(Collect(results).value[i]))
    decreases |results|
  {
    if results != [] {
      var init := results[..|results| - 1];
      CollectOk(init);
      assert forall i :: 0 <= i < |init| ==> init[i] == results[i];
    }
  }

  /** The same for the parts of a batch and the rows they project to. */
  lemma ProjectAllOk(parts: seq<string>, date: string, oracle: Oracle)
    ensures ProjectAll(parts, date, oracle).Ok? <==> forall i :: 0 <= i < |parts| ==> PartRow(parts[i], date, oracle).Ok?
    ensures ProjectAll(parts, date, oracle).Ok? ==>
      (|ProjectAll(parts, date, oracle).value| == |parts| &&
       forall i :: 0 <= i < |parts| ==> PartRow(parts[i], date, oracle) == Ok(ProjectAll(parts, date, oracle).value[i]))
  {
    var results := PartRows(parts, date, oracle);
    CollectOk(results);
    assert forall i :: 0 <= i < |parts| ==> results[i] == PartRow(parts[i], date, oracle);
  }

  /** A failed batch reports the message of its first failing part. */
  lemma {:induction false} CollectFirstError(results: seq<Result<Row>>)
    requires Collect(results).Err?
    ensures exists k :: (0 <= k < |results| && Collect(results[..k]).Ok? &&
      results[k] == Err(Collect(results).message))
    decreases |results|
  {
    var init := results[..|results| - 1];
    var k := |results| - 1;
    if Collect(init).Err? {
      CollectFirstError(init);
      var j :| 0 <= j < |init| && Collect(init[..j]).Ok? && init[j] == Err(Collect(init).message);
      assert init[..j] == results[..j] && init[j] == results[j];
    } else {
      assert results[..k] == init;
    }
  }

  // ---------------------------------------------------------------------------------------
  // Properties of the two buttons

  /** Without a key neither button sends anything or touches the history; both show the
      missing-key message. */
  lemma MissingKeyStopsBoth(chat: string, text: string, hasSdk: bool, date: string, oracle: Oracle)
    requires hasSdk && Strip(chat) != [] && Strip(text) != []
    ensures SingleRun(chat, hasSdk, "", date, oracle) == Step(Errored(String(ApiKeyMissingMessage)), [])
    ensures BatchRun(text, hasSdk, "", date, oracle) == Aborted(ApiKeyMissingMessage)
  {
  }

  /** A single chat whose extraction failed still appends exactly one row, the degraded
      one, and the view then shows the `KeyError` for `summary`, not the failure message. */
  lemma SingleFailureAppends(chat: string, hasSdk: bool, apiKey: string, date: string, oracle: Oracle)
    requires Strip(chat) != [] && EnsureClient(hasSdk, apiKey).Ok?
    requires Extract(chat, oracle).Failure?
    ensures var step := SingleRun(chat, hasSdk, apiKey, date, oracle);
      step.status == Errored(String(SummaryKeyError)) &&
      step.appended == [Row(date, String(""), String(Extract(chat, oracle).message), "", "", "", Snippet(chat))]
  {
    ToRowFailure(chat, date, Extract(chat, oracle).message);
  }

  /** A single chat whose extraction succeeded with list fields of strs appends its row and
      shows the result. */
  lemma SingleSuccessAppends(chat: string, hasSdk: bool, apiKey: string, date: string, oracle: Oracle)
    requires Strip(chat) != [] && EnsureClient(hasSdk, apiKey).Ok?
    requires Extract(chat, oracle).Success?
    requires var d := Extract(chat, oracle).data; !HasKey(d, "error") && StrLists(d)
    ensures var step := SingleRun(chat, hasSdk, apiKey, date, oracle);
      step.status == Processed(Extract(chat, oracle).data) &&
      step.appended == [ToRow(chat, date, Extract(chat, oracle)).value]
  {
    ToRowSuccess(chat, date, Extract(chat, oracle).data);
  }

  /** A part's row cannot be built exactly when its extraction succeeded without an
      `error` key and some list field holds an item that is not a str; a failed extraction
      always gives a row. */
  lemma PartRowRaisesIff(part: string, date: string, oracle: Oracle)
    ensures PartRow(part, date, oracle).Err? <==>
      (Extract(part, oracle).Success? && !HasKey(Extract(part, oracle).data, "error")
       && !StrLists(Extract(part, oracle).data))
  {
    var outcome := Extract(part, oracle);
    if outcome.Success? && !HasKey(outcome.data, "error") {
      ToRowRaisesIff(part, date, oracle(Compose(part)).value);
    }
  }

  /** A batch is all or nothing: it completes with one row per non-blank part, in order,
      exactly when every part's row can be built; otherwise it aborts and appends nothing. */
  lemma BatchAllOrNothing(text: string, hasSdk: bool, apiKey: string, date: string, oracle: Oracle)
    requires Strip(text) != [] && EnsureClient(hasSdk, apiKey).Ok?
    ensures var parts := SplitByDelimiter(text, DefaultDelimiter);
      var outcome := BatchRun(text, hasSdk, apiKey, date, oracle);
      (outcome.Completed? <==> forall i :: 0 <= i < |parts| ==> PartRow(parts[i], date, oracle).Ok?) &&
      (outcome.Completed? ==> (|outcome.rows| == |parts| &&
        forall i :: 0 <= i < |parts| ==> PartRow(parts[i], date, oracle) == Ok(outcome.rows[i])))
  {
    ProjectAllOk(SplitByDelimiter(text, DefaultDelimiter), date, oracle);
  }

  /** A non-blank paste that holds no chat between the delimiters still checks the key,
      and then completes with no rows. */
  lemma EmptyBatchCompletes(text: string, hasSdk: bool, apiKey: string, date: string, oracle: Oracle)
    requires Strip(text) != [] && SplitByDelimiter(text, DefaultDelimiter) == []
    ensures BatchRun(text, hasSdk, apiKey, date, oracle)
         == if hasSdk && apiKey != [] then Completed([]) else Aborted(EnsureClient(hasSdk, apiKey).message)
  {
  }
}
