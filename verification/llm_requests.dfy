/** What the backend hands to its language-model clients: the LiteLLM
    client's key and model choice and its chat payload
    (app/litellm_client.py), and the single prompt string of the LangChain
    client (app/llm.py). The completion calls themselves are outside the
    model; environment variables are an explicit input. */
module LlmRequests {
  import opened Maybe
  import opened ChatMessages

  /** The environment variables read at import time. */
  datatype Environment = Environment(
    openaiApiKey: Option<string>,
    geminiApiKey: Option<string>,
    litellmModel: Option<string>)

  /** The model used when neither the caller nor `LITELLM_MODEL` names one. */
  const DefaultModel: string := "gpt-3.5-turbo"

  /** `LITELLM_MODEL = os.getenv("LITELLM_MODEL", "gpt-3.5-turbo")`: a set but
      empty variable counts as set. */
  function LitellmModel(env: Environment): string {
    env.litellmModel.GetOr(DefaultModel)
  }

  /** Python's `a or b` on optional strings. */
  function Or(a: Option<string>, b: Option<string>): (r: Option<string>)
    ensures PyTruthy(a) ==> r == a
    ensures !PyTruthy(a) ==> r == b
  {
    if PyTruthy(a) then a else b
  }

  /** A configured `LiteLLMClient`. */
  datatype LiteLlmClient = LiteLlmClient(provider: string, apiKey: Option<string>, model: string)

  /** `LiteLLMClient(api_key, model, provider)` (app/litellm_client.py:11-19):
      an explicit non-empty key wins; otherwise `openai` and `gemini` fall back
      to their environment key and any other provider keeps what was passed.
      An explicit non-empty model wins over `LITELLM_MODEL`. */
  function NewClient(apiKey: Option<string>, model: Option<string>, provider: string, env: Environment): (c: LiteLlmClient)
    ensures c.provider == provider
    ensures PyTruthy(apiKey) ==> c.apiKey == apiKey
    ensures !PyTruthy(apiKey) && provider == "openai" ==> c.apiKey == env.openaiApiKey
    ensures !PyTruthy(apiKey) && provider == "gemini" ==> c.apiKey == env.geminiApiKey
    ensures provider != "openai" && provider != "gemini" ==> c.apiKey == apiKey
    ensures PyTruthy(model) ==> c.model == model.value
    ensures !PyTruthy(model) ==> c.model == LitellmModel(env)
  {
    var key :=
      if provider == "openai" then Or(apiKey, env.openaiApiKey)
      else if provider == "gemini" then Or(apiKey, env.geminiApiKey)
      else apiKey;
    LiteLlmClient(provider, key, if PyTruthy(model) then model.value else LitellmModel(env))
  }

  /** The `messages` payload of `LiteLLMClient.ask(question, context,
      system_prompt, messages)` (app/litellm_client.py:21-31): explicit
      messages are sent as they are; otherwise an optional system entry, an
      optional `"Context: "` user entry and an optional question entry. */
  function AskPayload(question: Option<string>, context: Option<string>, systemPrompt: Option<string>,
                      messages: Option<seq<Message>>): (r: seq<Message>)
    ensures messages.Some? ==> r == messages.value
    ensures messages.None? ==>
      |r| == (if PyTruthy(systemPrompt) then 1 else 0) + (if PyTruthy(context) then 1 else 0) +
             (if question.Some? then 1 else 0)
    ensures messages.None? ==> |r| <= 3
    ensures messages.None? && PyTruthy(systemPrompt) ==> r[0] == Message("system", Text(systemPrompt.value))
    ensures messages.None? && PyTruthy(context) ==>
      r[if PyTruthy(systemPrompt) then 1 else 0] == Message("user", Text("Context: " + context.value))
    ensures messages.None? && question.Some? ==> r[|r| - 1] == Message("user", Text(question.value))
  {
    match messages
    case Some(ms) => ms
    case None =>
      (if PyTruthy(systemPrompt) then [Message("system", Text(systemPrompt.value))] else [])
      + (if PyTruthy(context) then [Message("user", Text("Context: " + context.value))] else [])
      + (if question.Some? then [Message("user", Text(question.value))] else [])
  }

  predicate StartsWith(s: string, prefix: string) {
    |prefix| <= |s| && s[..|prefix|] == prefix
  }

  predicate EndsWith(s: string, suffix: string) {
    |suffix| <= |s| && s[|s| - |suffix|..] == suffix
  }

  /** The prompt of `LLMClient.ask(question, context, system_prompt)`
      (app/llm.py:12-18). */
  function Prompt(question: string, context: Option<string>, systemPrompt: Option<string>): (r: string)
    ensures PyTruthy(systemPrompt) ==> StartsWith(r, "System: " + systemPrompt.value + "\n")
    ensures EndsWith(r, "Question: " + question)
    ensures !PyTruthy(systemPrompt) && !PyTruthy(context) ==> r == "Question: " + question
    ensures PyTruthy(context) ==>
      var at := if PyTruthy(systemPrompt) then |"System: " + systemPrompt.value + "\n"| else 0;
      var line := "Context: " + context.value + "\n";
      at + |line| <= |r| && r[at..at + |line|] == line
  {
    var system := if PyTruthy(systemPrompt) then "System: " + systemPrompt.value + "\n" else "";
    var ctx := if PyTruthy(context) then "Context: " + context.value + "\n" else "";
    var q := "Question: " + question;
    assert (system + ctx + q)[..|system|] == system;
    assert (system + ctx + q)[|system|..|system| + |ctx|] == ctx;
    system + ctx + q
  }

  /** One payload entry rendered as a prompt line: system entries as
      `System: ...`, the last entry as the question, the others as they are. */
  function RenderLines(ms: seq<Message>): string
    requires forall k :: 0 <= k < |ms| ==> ms[k].content.Text?
    decreases |ms|
  {
    if |ms| == 0 then ""
    else if |ms| == 1 then "Question: " + ms[0].content.text
    else
      (if ms[0].role == "system" then "System: " + ms[0].content.text else ms[0].content.text)
      + "\n" + RenderLines(ms[1..])
  }

  /** The two clients send the same information in the same order: the
      LangChain prompt is the LiteLLM payload for the same arguments, one line
      per entry. */
  lemma PromptRendersPayload(question: string, context: Option<string>, systemPrompt: Option<string>)
    ensures var payload := AskPayload(Some(question), context, systemPrompt, None);
      (forall k :: 0 <= k < |payload| ==> payload[k].content.Text?) &&
      Prompt(question, context, systemPrompt) == RenderLines(payload)
  {
    var payload := AskPayload(Some(question), context, systemPrompt, None);
    var q := Message("user", Text(question));
    if PyTruthy(systemPrompt) && PyTruthy(context) {
      var s := Message("system", Text(systemPrompt.value));
      var c := Message("user", Text("Context: " + context.value));
      assert payload == [s, c, q];
      RenderThree(systemPrompt.value, context.value, question);
    } else if PyTruthy(systemPrompt) {
      assert payload == [Message("system", Text(systemPrompt.value)), q];
      assert payload[1..] == [q];
    } else if PyTruthy(context) {
      assert payload == [Message("user", Text("Context: " + context.value)), q];
      assert payload[1..] == [q];
    } else {
      assert payload == [q];
    }
  }

  /** A full payload renders as three lines. */
  lemma RenderThree(sp: string, cx: string, question: string)
    ensures RenderLines([Message("system", Text(sp)), Message("user", Text("Context: " + cx)), Message("user", Text(question))])
      == "System: " + sp + "\n" + ("Context: " + cx + "\n") + ("Question: " + question)
  {
    var s := Message("system", Text(sp));
    var c := Message("user", Text("Context: " + cx));
    var q := Message("user", Text(question));
    var ms := [s, c, q];
    assert ms[1..] == [c, q];
    assert ms[1..][1..] == [q];
    assert RenderLines([q]) == "Question: " + question;
    assert RenderLines([c, q]) == "Context: " + cx + "\n" + ("Question: " + question);
  }
}
