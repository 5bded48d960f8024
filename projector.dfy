/** Row projection (`to_row`): one flat, export-ready record per transcript, and the column
    order of the exported table. */
module Projector {
  import opened Wrappers
  import opened Json
  import opened PyStr
  import opened Extraction

  const SnippetLength: nat := 500
  const Ellipsis: string := "..."

  /** `chat_text[:500] + ("..." if len(chat_text) > 500 else "")`: the first 500 characters,
      with the marker appended exactly when something was cut off. */
  function Snippet(chat: string): (r: string)
    ensures |r| <= SnippetLength + |Ellipsis|
    ensures |chat| <= SnippetLength ==> r == chat
    ensures |chat| > SnippetLength ==>
      |r| == SnippetLength + |Ellipsis| && r[..SnippetLength] == chat[..SnippetLength] && r[SnippetLength..] == Ellipsis
  {
    (if |chat| <= SnippetLength then chat else chat[..SnippetLength])
    + (if |chat| > SnippetLength then Ellipsis else "")
  }

  predicate AllStr(items: seq<Json>) {
    forall i :: 0 <= i < |items| ==> items[i].String?
  }

  /** The position of the first item that is not a str. */
  function FirstNonStr(items: seq<Json>): (i: nat)
    requires !AllStr(items)
    ensures i < |items| && !items[i].String?
    ensures forall j :: 0 <= j < i ==> items[j].String?
    decreases |items|
  {
    if !items[0].String? then 0
    else
      var i := FirstNonStr(items[1..]);
      assert forall j :: 1 <= j < i + 1 ==> items[j] == items[1..][j - 1];
      i + 1
  }

  function Strs(items: seq<Json>): (r: seq<string>)
    requires AllStr(items)
    ensures |r| == |items| && forall i :: 0 <= i < |r| ==> items[i] == String(r[i])
  {
    seq(|items|, i requires 0 <= i < |items| => items[i].s)
  }

  /** `sep.join(v)` for the Python object `v` stands for: a list must hold only strs, a str
      joins its characters, a dict its keys; anything else is not iterable. */
  function JoinJson(v: Json, sep: string): (r: Result<string>)
    ensures v.Array? ==> (r.Ok? <==> AllStr(v.elems))
    ensures v.Array? && AllStr(v.elems) ==> r == Ok(Join(Strs(v.elems), sep))
    ensures v.Array? && !AllStr(v.elems) ==>
      var i := FirstNonStr(v.elems);
      r == Err("sequence item " + NatToString(i) + ": expected str instance, " + TypeName(v.elems[i]) + " found")
  {
    match v
    case Array(es) =>
      if AllStr(es) then Ok(Join(Strs(es), sep))
      else
        var i := FirstNonStr(es);
        Err("sequence item " + NatToString(i) + ": expected str instance, " + TypeName(es[i]) + " found")
    case String(s) => Ok(Join(seq(|s|, i requires 0 <= i < |s| => [s[i]]), sep))
    case Object(ms) => Ok(Join(Keys(ms), sep))
    case _ => Err("can only join an iterable")
  }

  const TagSeparator: string := ", "
  const BulletSeparator: string := " • "
  const ActionSeparator: string := " | "

  /** A row: the values of the dict `to_row` returns. A cell holds whatever Python object
      the extraction produced, so `title` and `summary` are JSON values. */
  datatype Row = Row(
    date: string,
    title: Json,
    summary: Json,
    tags: string,
    bullets: string,
    actionItems: string,
    chatSnippet: string)

  /** `"error" in result`: a failure, or a successful dict that happens to have an `error` key. */
  predicate IsErrorResult(result: Outcome) {
    result.Failure? || HasKey(result.data, "error")
  }

  /** `result["error"]`. */
  function ErrorValue(result: Outcome): Json
    requires IsErrorResult(result)
  {
    if result.Failure? then String(result.message) else Lookup(result.data, "error").value
  }

  /** `to_row(chat_text, result)` with `time.strftime("%Y-%m-%d")` passed in as `date`. The
      joins of the list fields raise on an item that is not a str. */
  function ToRow(chat: string, date: string, result: Outcome): (r: Result<Row>)
    ensures IsErrorResult(result) ==> r.Ok?
    ensures r.Ok? ==> r.value.date == date && r.value.chatSnippet == Snippet(chat)
  {
    if IsErrorResult(result) then
      Ok(Row(date, String(""), ErrorValue(result), "", "", "", Snippet(chat)))
    else
      var d := result.data;
      match JoinJson(GetOr(d, "tags", Array([])), TagSeparator)
      case Err(m) => Err(m)
      case Ok(tags) =>
        match JoinJson(GetOr(d, "bullets", Array([])), BulletSeparator)
        case Err(m) => Err(m)
        case Ok(bullets) =>
          match JoinJson(GetOr(d, "action_items", Array([])), ActionSeparator)
          case Err(m) => Err(m)
          case Ok(actions) =>
            Ok(Row(date, GetOr(d, "title", String("")), GetOr(d, "summary", String("")),
                   tags, bullets, actions, Snippet(chat)))
  }

  // ---------------------------------------------------------------------------------------
  // Properties of the projection

  /** A failure gives the degraded row: empty title and list columns, and the failure
      message verbatim as the summary. */
  lemma ToRowFailure(chat: string, date: string, message: string)
    ensures ToRow(chat, date, Failure(message))
         == Ok(Row(date, String(""), String(message), "", "", "", Snippet(chat)))
  {
  }

  /** The field `key` is a list of strs. */
  predicate StrList(d: seq<(string, Json)>, key: string) {
    Lookup(d, key).Some? && Lookup(d, key).value.Array? && AllStr(Lookup(d, key).value.elems)
  }

  /** The list fields of a result all hold strs. */
  predicate StrLists(d: seq<(string, Json)>) {
    StrList(d, "tags") && StrList(d, "bullets") && StrList(d, "action_items")
  }

  function ListStrs(d: seq<(string, Json)>, key: string): seq<string>
    requires StrList(d, key)
  {
    Strs(Lookup(d, key).value.elems)
  }

  /** A success whose list fields hold only strs gives the full row: title and summary as
      extracted, tags joined with ", ", bullets with " • ", action items with " | ". */
  lemma ToRowSuccess(chat: string, date: string, d: seq<(string, Json)>)
    requires !HasKey(d, "error") && StrLists(d)
    ensures ToRow(chat, date, Success(d)) == Ok(Row(
      date, GetOr(d, "title", String("")), GetOr(d, "summary", String("")),
      Join(ListStrs(d, "tags"), TagSeparator),
      Join(ListStrs(d, "bullets"), BulletSeparator),
      Join(ListStrs(d, "action_items"), ActionSeparator),
      Snippet(chat)))
  {
  }

  /** After validation, projecting a success raises exactly when some list field holds an
      item that is not a str. */
  lemma ToRowRaisesIff(chat: string, date: string, data: Json)
    requires Validate(data).Success? && !HasKey(Validate(data).data, "error")
    ensures ToRow(chat, date, Validate(data)).Err? <==> !StrLists(Validate(data).data)
  {
    var d := Validate(data).data;
    ValidateSuccessContents(data);
    assert Lookup(d, "tags").Some? && Lookup(d, "tags").value.Array? by { assert ListKeys[0] == "tags"; }
    assert Lookup(d, "bullets").Some? && Lookup(d, "bullets").value.Array? by { assert ListKeys[1] == "bullets"; }
    assert Lookup(d, "action_items").Some? && Lookup(d, "action_items").value.Array? by {
      assert ListKeys[2] == "action_items";
    }
  }

  /** A success that carries an `error` key is taken for a failure: its row has an empty
      title and the `error` value as summary. */
  lemma ToRowErrorKey(chat: string, date: string, d: seq<(string, Json)>)
    requires HasKey(d, "error")
    ensures ToRow(chat, date, Success(d))
         == Ok(Row(date, String(""), Lookup(d, "error").value, "", "", "", Snippet(chat)))
  {
  }

  /** The tags column splits back into the tags when no tag gets in the way of the
      separator (every tag is cut at the first ", " that follows it). */
  lemma TagsColumnSplitsBack(chat: string, date: string, d: seq<(string, Json)>)
    requires !HasKey(d, "error") && StrLists(d)
    requires SplitPieces(ListStrs(d, "tags"), TagSeparator)
    ensures Split(ToRow(chat, date, Success(d)).value.tags, TagSeparator) == ListStrs(d, "tags")
  {
    ToRowSuccess(chat, date, d);
    SplitJoin(ListStrs(d, "tags"), TagSeparator);
  }

  // ---------------------------------------------------------------------------------------
  // Export columns

  const Columns: seq<string> := ["date", "title", "summary", "tags", "bullets", "action_items", "chat_snippet"]

  /** The dict `to_row` builds, its keys in the order they are written. */
  function Items(row: Row): (r: seq<(string, Json)>)
    ensures Keys(r) == Columns
  {
    [("date", String(row.date)), ("title", row.title), ("summary", row.summary),
     ("tags", String(row.tags)), ("bullets", String(row.bullets)),
     ("action_items", String(row.actionItems)), ("chat_snippet", String(row.chatSnippet))]
  }

  /** `cols` followed by the keys of `keys` it does not have yet, in first-seen order. */
  function AddColumns(cols: seq<string>, keys: seq<string>): seq<string>
    decreases |keys|
  {
    if keys == [] then cols
    else AddColumns(if keys[0] in cols then cols else cols + [keys[0]], keys[1..])
  }

  /** The columns of `pd.DataFrame(list_of_dicts)`: every key, in first-seen order. */
  function FrameColumns(dicts: seq<seq<(string, Json)>>): seq<string>
    decreases |dicts|
  {
    if dicts == [] then [] else AddColumns(FrameColumns(dicts[..|dicts| - 1]), Keys(dicts[|dicts| - 1]))
  }

  /** The dicts handed to `pd.DataFrame`, one per row of the history, each with the seven
      columns as keys. */
  function RowDicts(history: seq<Row>): (r: seq<seq<(string, Json)>>)
    ensures |r| == |history| && forall i :: 0 <= i < |r| ==> Keys(r[i]) == Columns
  {
    seq(|history|, i requires 0 <= i < |history| => Items(history[i]))
  }

  lemma {:induction false} AddPresentColumns(cols: seq<string>, keys: seq<string>)
    requires forall k :: k in keys ==> k in cols
    ensures AddColumns(cols, keys) == cols
    decreases |keys|
  {
    if keys != [] {
      assert keys[0] in keys;
      AddPresentColumns(cols, keys[1..]);
    }
  }

  lemma {:induction false} AddNewColumns(cols: seq<string>, keys: seq<string>)
    requires forall i, j :: 0 <= i < j < |keys| ==> keys[i] != keys[j]
    requires forall k :: k in keys ==> k !in cols
    ensures AddColumns(cols, keys) == cols + keys
    decreases |keys|
  {
    if keys != [] {
      var rest := keys[1..];
      assert forall k :: k in rest ==> k !in cols + [keys[0]] by {
        forall k | k in rest ensures k !in cols + [keys[0]] {
          var j :| 0 <= j < |rest| && rest[j] == k;
          assert keys[j + 1] == k;
        }
      }
      AddNewColumns(cols + [keys[0]], rest);
      assert cols + [keys[0]] + rest == cols + keys;
    }
  }

  /** Every row has the same seven keys in the same order, so the exported table has
      exactly the columns date, title, summary, tags, bullets, action_items, chat_snippet,
      in that order, however many rows there are (and none when there are no rows). */
  lemma {:induction false} ExportColumns(history: seq<Row>)
    ensures FrameColumns(RowDicts(history)) == if history == [] then [] else Columns
    decreases |history|
  {
    if history != [] {
      var dicts := RowDicts(history);
      assert dicts[..|dicts| - 1] == RowDicts(history[..|history| - 1]);
      ExportColumns(history[..|history| - 1]);
      if |history| == 1 {
        AddNewColumns([], Columns);
        assert [] + Columns == Columns;
      } else {
        AddPresentColumns(Columns, Columns);
      }
    }
  }
}
