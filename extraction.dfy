/** One transcript through the extraction capability: the credential check
    (`ensure_openai_client`) and `process_chat`, which composes the prompts, calls the
    capability once, checks the four required keys and coerces the three list fields with
    `list(...)`. Every exception inside `process_chat` becomes a `Failure` carrying `str(e)`. */
module Extraction {
  import opened Wrappers
  import opened Json
  import opened Prompt

  /** What the capability call and `json.loads` give back: the parsed value, or the message
      of the exception either of them raised (network, credentials, unparsable text, ...). */
  datatype Response = Raised(message: string) | Parsed(value: Json)

  /** The value `process_chat` returns: the normalised dict, or `{"error": str(e)}`. */
  datatype Outcome = Success(data: seq<(string, Json)>) | Failure(message: string)

  /** The capability: the network call and the JSON parsing, seen from the pipeline. */
  type Oracle = Request -> Response

  const RequiredKeys: seq<string> := ["title", "summary", "tags", "bullets"]
  const ListKeys: seq<string> := ["tags", "bullets", "action_items"]

  function MissingKeyMessage(key: string): string {
    "Missing key in JSON: " + key
  }

  /** The first exception raised by `for key in keys: if key not in data: raise ...`, or
      `None` when the loop runs to its end. */
  function CheckKeys(data: Json, keys: seq<string>): Option<string>
    decreases |keys|
  {
    if keys == [] then None
    else match Contains(data, keys[0])
      case Err(m) => Some(m)
      case Ok(false) => Some(MissingKeyMessage(keys[0]))
      case Ok(true) => CheckKeys(data, keys[1..])
  }

  /** `list(d.get(key, []))`. */
  function Coerced(members: seq<(string, Json)>, key: string): Result<seq<Json>> {
    ListOf(GetOr(members, key, Array([])))
  }

  /** `d[key] = list(d.get(key, []))` for each of `keys` in turn; the first `list(...)` that
      raises ends the run. */
  function Coerce(members: seq<(string, Json)>, keys: seq<string>): Result<seq<(string, Json)>>
    decreases |keys|
  {
    if keys == [] then Ok(members)
    else match Coerced(members, keys[0])
      case Err(m) => Err(m)
      case Ok(items) => Coerce(Put(members, keys[0], Array(items)), keys[1..])
  }

  function NoGetMessage(data: Json): string {
    "'" + TypeName(data) + "' object has no attribute 'get'"
  }

  /** The body of `process_chat`'s `try` after the call: the key check, then the coercions
      (which start with `data.get`, so a parsed value that is not a dict fails there). */
  function Validate(data: Json): Outcome {
    match CheckKeys(data, RequiredKeys)
    case Some(m) => Failure(m)
    case None =>
      if !data.Object? then Failure(NoGetMessage(data))
      else match Coerce(data.members, ListKeys)
        case Err(m) => Failure(m)
        case Ok(d) => Success(d)
  }

  /** What `process_chat(chat, client)` returns when the capability behaves as `oracle`. */
  function Extract(chat: string, oracle: Oracle): Outcome {
    match oracle(Compose(chat))
    case Raised(m) => Failure(m)
    case Parsed(v) => Validate(v)
  }

  /** `process_chat`: one call to the capability with the composed prompts, then the key
      loop with its early exit, then the in-place coercion of the list fields. */
  method ProcessChat(chat: string, oracle: Oracle) returns (result: Outcome)
    ensures result == Extract(chat, oracle)
  {
    var request := Compose(chat);
    var response := oracle(request);
    if response.Raised? {
      return Failure(response.message);
    }
    var data := response.value;
    for i := 0 to |RequiredKeys|
      invariant CheckKeys(data, RequiredKeys) == CheckKeys(data, RequiredKeys[i..])
    {
      var key := RequiredKeys[i];
      assert RequiredKeys[i..][1..] == RequiredKeys[i + 1..];
      var present := Contains(data, key);
      if present.Err? {
        return Failure(present.message);
      }
      if !present.value {
        return Failure(MissingKeyMessage(key));
      }
    }
    if !data.Object? {
      return Failure(NoGetMessage(data));
    }
    var d := data.members;
    var tags := ListOf(GetOr(d, "tags", Array([])));
    if tags.Err? {
      return Failure(tags.message);
    }
    d := Put(d, "tags", Array(tags.value));
    var bullets := ListOf(GetOr(d, "bullets", Array([])));
    if bullets.Err? {
      return Failure(bullets.message);
    }
    d := Put(d, "bullets", Array(bullets.value));
    var actionItems := ListOf(GetOr(d, "action_items", Array([])));
    if actionItems.Err? {
      return Failure(actionItems.message);
    }
    d := Put(d, "action_items", Array(actionItems.value));
    return Success(d);
  }

  /** A handle on the capability, made once the credential check has passed. */
  datatype Client = Client(apiKey: string)

  const SdkMissingMessage: string :=
    "OpenAI SDK is not installed in this environment. Add 'openai>=1.0.0' to requirements and redeploy."
  const ApiKeyMissingMessage: string := "Missing OpenAI API key."

  /** `ensure_openai_client(api_key)`: raises when the SDK is missing, then when the key is
      empty; otherwise gives a client for that key. */
  function EnsureClient(hasSdk: bool, apiKey: string): (r: Result<Client>)
    ensures r.Ok? <==> hasSdk && apiKey != []
    ensures r.Ok? ==> r.value.apiKey == apiKey
    ensures r.Err? ==> r.message == if hasSdk then ApiKeyMissingMessage else SdkMissingMessage
  {
    if !hasSdk then Err(SdkMissingMessage)
    else if apiKey == [] then Err(ApiKeyMissingMessage)
    else Ok(Client(apiKey))
  }

  // ---------------------------------------------------------------------------------------
  // The key check

  /** On a dict the key loop stops at the first key, in the given order, that is missing. */
  lemma {:induction false} CheckKeysFirstMissing(members: seq<(string, Json)>, keys: seq<string>, i: nat)
    requires i < |keys| && !HasKey(members, keys[i])
    requires forall j :: 0 <= j < i ==> HasKey(members, keys[j])
    ensures CheckKeys(Object(members), keys) == Some(MissingKeyMessage(keys[i]))
    decreases i
  {
    if i > 0 {
      assert HasKey(members, keys[0]);
      CheckKeysFirstMissing(members, keys[1..], i - 1);
    }
  }

  /** On a dict the key loop runs to its end exactly when every key is present. */
  lemma {:induction false} CheckKeysPassIff(members: seq<(string, Json)>, keys: seq<string>)
    ensures CheckKeys(Object(members), keys) == None <==> forall j :: 0 <= j < |keys| ==> HasKey(members, keys[j])
    decreases |keys|
  {
    if keys != [] {
      CheckKeysPassIff(members, keys[1..]);
      if HasKey(members, keys[0]) {
        assert forall j :: 1 <= j < |keys| ==> keys[j] == keys[1..][j - 1];
      }
    }
  }

  /** If any of `title`, `summary`, `tags`, `bullets` is absent, the result is a failure
      naming the first one absent, in that order. */
  lemma ValidateMissingKey(members: seq<(string, Json)>, i: nat)
    requires i < |RequiredKeys| && !HasKey(members, RequiredKeys[i])
    requires forall j :: 0 <= j < i ==> HasKey(members, RequiredKeys[j])
    ensures Validate(Object(members)) == Failure(MissingKeyMessage(RequiredKeys[i]))
  {
    CheckKeysFirstMissing(members, RequiredKeys, i);
  }

  /** A parsed value that is not a container fails on the first `in` test. */
  lemma ValidateNotContainer(data: Json)
    requires data.Null? || data.Bool? || data.Number?
    ensures Validate(data) == Failure("argument of type '" + TypeName(data) + "' is not iterable")
  {
  }

  /** A parsed str or list that passes the key loop fails on `data.get`. */
  lemma ValidateNotDict(data: Json)
    requires data.String? || data.Array?
    requires CheckKeys(data, RequiredKeys) == None
    ensures Validate(data) == Failure(NoGetMessage(data))
  {
  }

  // ---------------------------------------------------------------------------------------
  // The coercions

  predicate Distinct(keys: seq<string>) {
    forall i, j :: 0 <= i < j < |keys| ==> keys[i] != keys[j]
  }

  /** After the first coercion, the rest runs on the updated dict, where the remaining
      keys read as before. */
  lemma CoerceStep(members: seq<(string, Json)>, keys: seq<string>)
    requires Distinct(keys) && keys != [] && Coerced(members, keys[0]).Ok?
    ensures Distinct(keys[1..])
    ensures Coerce(members, keys) == Coerce(Put(members, keys[0], Array(Coerced(members, keys[0]).value)), keys[1..])
    ensures forall j :: 1 <= j < |keys| ==>
      keys[j] == keys[1..][j - 1] && keys[j] != keys[0]
      && Coerced(Put(members, keys[0], Array(Coerced(members, keys[0]).value)), keys[j]) == Coerced(members, keys[j])
  {
    var rest := keys[1..];
    forall i, j | 0 <= i < j < |rest| ensures rest[i] != rest[j] { assert rest[i] == keys[i + 1]; }
    PutLookup(members, keys[0], Array(Coerced(members, keys[0]).value));
  }

  /** Coercing distinct keys succeeds exactly when each `list(...)` does. */
  lemma {:induction false} CoerceOkIff(members: seq<(string, Json)>, keys: seq<string>)
    requires Distinct(keys)
    ensures Coerce(members, keys).Ok? <==> forall j :: 0 <= j < |keys| ==> Coerced(members, keys[j]).Ok?
    decreases |keys|
  {
    if keys != [] && Coerced(members, keys[0]).Ok? {
      CoerceStep(members, keys);
      CoerceOkIff(Put(members, keys[0], Array(Coerced(members, keys[0]).value)), keys[1..]);
    }
  }

  /** After a successful coercion each key holds the list of its old value, and every other
      key is untouched. */
  lemma {:induction false} CoerceOkValues(members: seq<(string, Json)>, keys: seq<string>)
    requires Distinct(keys) && Coerce(members, keys).Ok?
    ensures forall j :: 0 <= j < |keys| ==>
      (Coerced(members, keys[j]).Ok?
       && Lookup(Coerce(members, keys).value, keys[j]) == Some(Array(Coerced(members, keys[j]).value)))
    ensures forall k :: k !in keys ==> Lookup(Coerce(members, keys).value, k) == Lookup(members, k)
    decreases |keys|
  {
    CoerceOkIff(members, keys);
    if keys != [] {
      var next := Put(members, keys[0], Array(Coerced(members, keys[0]).value));
      CoerceStep(members, keys);
      PutLookup(members, keys[0], Array(Coerced(members, keys[0]).value));
      CoerceOkValues(next, keys[1..]);
      assert keys[0] !in keys[1..];
    }
  }

  /** The first `list(...)` that raises decides the message. */
  lemma {:induction false} CoerceFirstError(members: seq<(string, Json)>, keys: seq<string>, i: nat)
    requires Distinct(keys) && i < |keys| && Coerced(members, keys[i]).Err?
    requires forall j :: 0 <= j < i ==> Coerced(members, keys[j]).Ok?
    ensures Coerce(members, keys) == Err(Coerced(members, keys[i]).message)
    decreases i
  {
    if i > 0 {
      CoerceStep(members, keys);
      CoerceFirstError(Put(members, keys[0], Array(Coerced(members, keys[0]).value)), keys[1..], i - 1);
    }
  }

  predicate AllPresent(members: seq<(string, Json)>) {
    forall j :: 0 <= j < |RequiredKeys| ==> HasKey(members, RequiredKeys[j])
  }

  predicate AllListable(members: seq<(string, Json)>) {
    forall j :: 0 <= j < |ListKeys| ==> Coerced(members, ListKeys[j]).Ok?
  }

  /** `process_chat` succeeds on a parsed value exactly when it is a dict holding the four
      required keys whose `tags`, `bullets` and (absent or present) `action_items` can be
      turned into lists. */
  lemma ValidateSuccessIff(data: Json)
    ensures Validate(data).Success? <==> data.Object? && AllPresent(data.members) && AllListable(data.members)
  {
    if data.Object? {
      CheckKeysPassIff(data.members, RequiredKeys);
      CoerceOkIff(data.members, ListKeys);
    } else if Validate(data).Success? {
      assert false;
    }
  }

  /** On success `tags`, `bullets` and `action_items` are lists of what they held (an
      absent `action_items` becomes the empty list), and every other key passes through
      unchanged. */
  lemma ValidateSuccessContents(data: Json)
    requires Validate(data).Success?
    ensures data.Object?
    ensures forall j :: 0 <= j < |ListKeys| ==>
      (Coerced(data.members, ListKeys[j]).Ok?
       && Lookup(Validate(data).data, ListKeys[j]) == Some(Array(Coerced(data.members, ListKeys[j]).value)))
    ensures !HasKey(data.members, "action_items") ==> Lookup(Validate(data).data, "action_items") == Some(Array([]))
    ensures forall k :: k !in ListKeys ==> Lookup(Validate(data).data, k) == Lookup(data.members, k)
  {
    ValidateSuccessIff(data);
    CoerceOkValues(data.members, ListKeys);
  }

  /** The keys among `keys` that `members` lacks, in the order of `keys`. */
  function Missing(members: seq<(string, Json)>, keys: seq<string>): seq<string>
    decreases |keys|
  {
    if keys == [] then []
    else (if HasKey(members, keys[0]) then [] else [keys[0]]) + Missing(members, keys[1..])
  }

  lemma {:induction false} MissingSame(a: seq<(string, Json)>, b: seq<(string, Json)>, keys: seq<string>)
    requires forall j :: 0 <= j < |keys| ==> (HasKey(a, keys[j]) <==> HasKey(b, keys[j]))
    ensures Missing(a, keys) == Missing(b, keys)
    decreases |keys|
  {
    if keys != [] {
      assert forall j :: 1 <= j < |keys| ==> keys[1..][j - 1] == keys[j];
      MissingSame(a, b, keys[1..]);
    }
  }

  /** The coercions keep every key in its place and add the absent ones at the end, in
      the order they are coerced. */
  lemma {:induction false} CoerceKeys(members: seq<(string, Json)>, keys: seq<string>)
    requires Distinct(keys) && Coerce(members, keys).Ok?
    ensures Keys(Coerce(members, keys).value) == Keys(members) + Missing(members, keys)
    decreases |keys|
  {
    if keys != [] {
      var v := Array(Coerced(members, keys[0]).value);
      var next := Put(members, keys[0], v);
      var rest := keys[1..];
      assert Distinct(rest) && Coerce(members, keys) == Coerce(next, rest) by { CoerceStep(members, keys); }
      CoerceKeys(next, rest);
      assert forall j :: 0 <= j < |rest| ==> (HasKey(next, rest[j]) <==> HasKey(members, rest[j])) by {
        forall j | 0 <= j < |rest| ensures HasKey(next, rest[j]) <==> HasKey(members, rest[j]) {
          assert rest[j] == keys[j + 1] && keys[j + 1] != keys[0];
          PutOtherKey(members, keys[0], v, rest[j]);
        }
      }
      MissingSame(next, members, rest);
      PutKeys(members, keys[0], v);
      var added := if HasKey(members, keys[0]) then [] else [keys[0]];
      assert Missing(members, keys) == added + Missing(members, rest);
      assert Keys(next) == Keys(members) + added;
      AppendAssoc(Keys(members), added, Missing(members, rest));
    }
  }

  /** Concatenation regroups; kept apart so the solver meets it in a small context. */
  lemma AppendAssoc(a: seq<string>, b: seq<string>, c: seq<string>)
    ensures a + b + c == a + (b + c)
  {
  }

  /** On success the dict keeps the keys of the parsed object in their order, with
      `action_items` added at the end when it was absent. */
  lemma ValidateSuccessKeys(data: Json)
    requires Validate(data).Success?
    ensures data.Object?
    ensures Keys(Validate(data).data)
         == Keys(data.members) + if HasKey(data.members, "action_items") then [] else ["action_items"]
  {
    ValidateSuccessIff(data);
    CoerceKeys(data.members, ListKeys);
    assert HasKey(data.members, "tags") by { assert RequiredKeys[2] == "tags"; }
    assert HasKey(data.members, "bullets") by { assert RequiredKeys[3] == "bullets"; }
    assert ListKeys[1..][1..][1..] == [];
  }

  /** Coercing a list field that holds null, a bool or a number raises, and the first
      such field in the order `tags`, `bullets`, `action_items` names the type. */
  lemma ValidateNotIterable(members: seq<(string, Json)>, i: nat)
    requires AllPresent(members) && i < |ListKeys|
    requires forall j :: 0 <= j < i ==> Coerced(members, ListKeys[j]).Ok?
    requires Lookup(members, ListKeys[i]).Some?
    requires var v := Lookup(members, ListKeys[i]).value; v.Null? || v.Bool? || v.Number?
    ensures Validate(Object(members))
         == Failure("'" + TypeName(Lookup(members, ListKeys[i]).value) + "' object is not iterable")
  {
    CheckKeysPassIff(members, RequiredKeys);
    CoerceFirstError(members, ListKeys, i);
  }

  /** A capability failure is passed on as the failure message. */
  lemma ExtractRaised(chat: string, oracle: Oracle)
    requires oracle(Compose(chat)).Raised?
    ensures Extract(chat, oracle) == Failure(oracle(Compose(chat)).message)
  {
  }

  /** `{"title":"T","summary":"S","tags":"x","bullets":["b1"]}`: the scalar `tags` becomes a
      one-element list and the absent `action_items` an empty list. */
  lemma ValidateExample()
    ensures Validate(Object([("title", String("T")), ("summary", String("S")),
                             ("tags", String("x")), ("bullets", Array([String("b1")]))]))
         == Success([("title", String("T")), ("summary", String("S")),
                     ("tags", Array([String("x")])), ("bullets", Array([String("b1")])),
                     ("action_items", Array([]))])
  {
    assert Chars("x") == [String("x")];
    ValidateFourKeys(String("T"), String("S"), String("x"), Array([String("b1")]));
  }

  /** A dict of exactly the four required keys, in order, whose list fields can be listed. */
  lemma ValidateFourKeys(title: Json, summary: Json, tags: Json, bullets: Json)
    requires ListOf(tags).Ok? && ListOf(bullets).Ok?
    ensures Validate(Object([("title", title), ("summary", summary), ("tags", tags), ("bullets", bullets)]))
         == Success([("title", title), ("summary", summary), ("tags", Array(ListOf(tags).value)),
                     ("bullets", Array(ListOf(bullets).value)), ("action_items", Array([]))])
  {
    var ms := [("title", title), ("summary", summary), ("tags", tags), ("bullets", bullets)];
    assert HasKey(ms, "title") && HasKey(ms, "summary") by { assert ms[0].0 == "title" && ms[1].0 == "summary"; }
    assert HasKey(ms, "tags") && HasKey(ms, "bullets") by { assert ms[2].0 == "tags" && ms[3].0 == "bullets"; }
    CheckKeysPassIff(ms, RequiredKeys);
    CoerceFourKeys(title, summary, tags, bullets);
  }

  lemma CoerceFourKeys(title: Json, summary: Json, tags: Json, bullets: Json)
    requires ListOf(tags).Ok? && ListOf(bullets).Ok?
    ensures Coerce([("title", title), ("summary", summary), ("tags", tags), ("bullets", bullets)], ListKeys)
         == Ok([("title", title), ("summary", summary), ("tags", Array(ListOf(tags).value)),
                ("bullets", Array(ListOf(bullets).value)), ("action_items", Array([]))])
  {
    var t := Array(ListOf(tags).value);
    CoerceTagsStep(title, summary, tags, bullets);
    CoerceBulletsStep(title, summary, t, bullets);
    CoerceActionStep(title, summary, t, Array(ListOf(bullets).value));
  }

  lemma CoerceTagsStep(title: Json, summary: Json, tags: Json, bullets: Json)
    requires ListOf(tags).Ok?
    ensures Coerce([("title", title), ("summary", summary), ("tags", tags), ("bullets", bullets)], ListKeys)
         == Coerce([("title", title), ("summary", summary), ("tags", Array(ListOf(tags).value)), ("bullets", bullets)],
                   ["bullets", "action_items"])
  {
    var ms := [("title", title), ("summary", summary), ("tags", tags), ("bullets", bullets)];
    var t := Array(ListOf(tags).value);
    LookupAt(ms, 2);
    PutExisting(ms, 2, t);
    assert ms[..2] + [("tags", t)] + ms[3..] == [("title", title), ("summary", summary), ("tags", t), ("bullets", bullets)];
  }

  lemma CoerceBulletsStep(title: Json, summary: Json, t: Json, bullets: Json)
    requires ListOf(bullets).Ok?
    ensures Coerce([("title", title), ("summary", summary), ("tags", t), ("bullets", bullets)], ["bullets", "action_items"])
         == Coerce([("title", title), ("summary", summary), ("tags", t), ("bullets", Array(ListOf(bullets).value))],
                   ["action_items"])
  {
    var ms1 := [("title", title), ("summary", summary), ("tags", t), ("bullets", bullets)];
    var b := Array(ListOf(bullets).value);
    assert "summary"[0] != "bullets"[0];
    LookupAt(ms1, 3);
    PutExisting(ms1, 3, b);
    assert ms1[..3] + [("bullets", b)] + ms1[4..] == [("title", title), ("summary", summary), ("tags", t), ("bullets", b)];
  }

  lemma CoerceActionStep(title: Json, summary: Json, t: Json, b: Json)
    ensures Coerce([("title", title), ("summary", summary), ("tags", t), ("bullets", b)], ["action_items"])
         == Ok([("title", title), ("summary", summary), ("tags", t), ("bullets", b), ("action_items", Array([]))])
  {
    var ms2 := [("title", title), ("summary", summary), ("tags", t), ("bullets", b)];
    assert !HasKey(ms2, "action_items");
    PutAbsent(ms2, "action_items", Array([]));
    assert Coerced(ms2, "action_items") == Ok([]);
    assert ms2 + [("action_items", Array([]))]
        == [("title", title), ("summary", summary), ("tags", t), ("bullets", b), ("action_items", Array([]))];
  }
}
