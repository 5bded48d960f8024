/** Prompt composition: the fixed system instruction, and the user instruction built by
    substituting the trimmed transcript for `{chat}` in a fixed template. */
module Prompt {
  import opened Wrappers
  import opened PyStr

  /** `DEFAULT_SYSTEM`: the output schema the extraction capability is asked to follow. */
  const SystemPrompt: string :=
    "You are an expert organizer for AI chat transcripts.\n"
    + "Return clean, concise outputs in JSON with the following schema:\n"
    + "{\n"
    + "  \"title\": \"string\",\n"
    + "  \"summary\": \"string (3-5 sentences)\",\n"
    + "  \"tags\": [\"kebab-case\", \"keywords\", \"max-8\"],\n"
    + "  \"bullets\": [\"5-8 key points\"],\n"
    + "  \"action_items\": [\"optional, concrete next steps\"]\n"
    + "}\n"
    + "The title must be short and searchable. The summary must be faithful to the chat content.\n"
    + "Force tags to be 1-3 words each in kebab-case."

  /** The text of `DEFAULT_USER_INSTRUCTION` before its `{chat}` field... */
  const TemplateHead: string :=
    "Given the following chat transcript, return a single JSON object that follows the schema exactly.\n"
    + "If the chat covers multiple topics, pick the dominant one.\n"
    + "Transcript:\n"
    + "---\n"

  /** ...and after it. */
  const TemplateTail: string :=
    "\n---\n"
    + "Now produce ONLY the JSON, no commentary."

  /** The instruction pair sent for one transcript. */
  datatype Request = Request(system: string, user: string)

  /** The prompts `process_chat` builds for `chat`: the system prompt, and the template with
      `chat.strip()` in place of `{chat}`. */
  function Compose(chat: string): Request {
    Request(SystemPrompt, TemplateHead + Strip(chat) + TemplateTail)
  }

  /** The composed user instruction is the fixed head, the trimmed transcript verbatim, and
      the fixed tail; the system prompt never varies. */
  lemma ComposeLayout(chat: string)
    ensures var r := Compose(chat);
      r.system == SystemPrompt
      && |r.user| == |TemplateHead| + |Strip(chat)| + |TemplateTail|
      && r.user[..|TemplateHead|] == TemplateHead
      && r.user[|TemplateHead|..|TemplateHead| + |Strip(chat)|] == Strip(chat)
      && r.user[|TemplateHead| + |Strip(chat)|..] == TemplateTail
  {
    var user := TemplateHead + Strip(chat) + TemplateTail;
    assert user[..|TemplateHead|] == TemplateHead;
    assert user[|TemplateHead|..|TemplateHead| + |Strip(chat)|] == Strip(chat);
  }

  /** Reads the transcript back out of a user instruction built from the template. */
  function EmbeddedTranscript(user: string): (r: Option<string>)
    ensures r.Some? ==> TemplateHead + r.value + TemplateTail == user
  {
    if |user| >= |TemplateHead| + |TemplateTail|
       && user[..|TemplateHead|] == TemplateHead
       && user[|user| - |TemplateTail|..] == TemplateTail
    then
      var middle := user[|TemplateHead|..|user| - |TemplateTail|];
      assert TemplateHead + middle + TemplateTail == user by {
        assert user == user[..|TemplateHead|] + middle + user[|user| - |TemplateTail|..];
      }
      Some(middle)
    else None
  }

  /** The user instruction carries the trimmed transcript, and nothing else varies. */
  lemma TranscriptRecovered(chat: string)
    ensures EmbeddedTranscript(Compose(chat).user) == Some(Strip(chat))
  {
    ComposeLayout(chat);
    var u := Compose(chat).user;
    assert u[|TemplateHead|..|u| - |TemplateTail|] == Strip(chat);
  }

  /** Two transcripts give the same request exactly when they are equal after `strip()`:
      composition is deterministic and loses nothing but surrounding whitespace. */
  lemma ComposeSameIff(a: string, b: string)
    ensures Compose(a) == Compose(b) <==> Strip(a) == Strip(b)
  {
    if Compose(a) == Compose(b) {
      TranscriptRecovered(a);
      TranscriptRecovered(b);
    }
  }
}
