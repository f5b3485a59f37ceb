/** The one-shot agent behind the web API. Construction settles the
    provider, model, key and URL (the environment, the provider detection
    from a URL and the key resolution are inputs); each request then adds a
    user entry and the model's reply (also an input) to one growing chat. */
module Singular {
  import opened Wrappers
  import opened Text
  import opened Chat

  const DefaultProvider: string := "gemini"
  const DefaultModel: string := "gemini-2.0-flash"
  const KeyRequired: string := "API key is required to initialize SingularAgent."

  /** Python truthiness of an optional string. */
  predicate Given(o: Option<string>) {
    o.Some? && o.value != ""
  }

  /** `DEFAULT_ENV_KEY_MAP.get(provider)`. */
  function EnvKeyVar(provider: string): (r: Option<string>)
    ensures r.Some? <==> provider in {"gemini", "openai", "claude", "deepseek", "nvidia"}
    ensures r.Some? ==> EndsWith(r.value, "_API_KEY")
  {
    if provider == "gemini" then Some("GEMINI_API_KEY")
    else if provider == "openai" then Some("OPENAI_API_KEY")
    else if provider == "claude" then Some("CLAUDE_API_KEY")
    else if provider == "deepseek" then Some("DEEPSEEK_API_KEY")
    else if provider == "nvidia" then Some("NVIDIA_API_KEY")
    else None
  }

  /** `DEFAULT_API_URL_MAP.get(provider)`; Gemini has no URL. */
  function DefaultApiUrl(provider: string): (r: Option<string>)
    ensures r.Some? <==> EnvKeyVar(provider).Some? && provider != "gemini"
    ensures r.Some? ==> StartsWith(r.value, "https://")
  {
    if provider == "openai" then Some("https://api.openai.com/v1")
    else if provider == "deepseek" then Some("https://api.deepseek.com/v1")
    else if provider == "claude" then Some("https://api.anthropic.com/v1/messages")
    else if provider == "nvidia" then Some("https://integrate.api.nvidia.com/v1")
    else None
  }

  /** `os.environ.get(name)`. */
  function GetEnv(env: map<string, string>, name: string): Option<string> {
    if name in env then Some(env[name]) else None
  }

  /** The provider: the requested one lower-cased, "gemini" when none is
      given, and one detected from the URL only for "auto". */
  function Provider(requested: Option<string>, apiUrl: Option<string>, detect: string -> string): (r: string)
    ensures !Given(requested) ==> r == DefaultProvider
    ensures Given(requested) && Lower(requested.value) != "auto" ==> r == Lower(requested.value)
    ensures Given(requested) && Lower(requested.value) == "auto" ==>
              r == if Given(apiUrl) then detect(apiUrl.value) else DefaultProvider
  {
    LowerOfLower(DefaultProvider);
    var p := Lower(if Given(requested) then requested.value else DefaultProvider);
    if p == "" || p == "auto" then
      (if Given(apiUrl) then detect(apiUrl.value) else DefaultProvider)
    else p
  }

  /** `_lookup_default_api_key`: the provider's variable when set and not
      empty; for Gemini, `GENAI_API_KEY` or else `GEMINI_API_KEY`. */
  function LookupDefaultApiKey(provider: string, env: map<string, string>): (r: Option<string>)
    ensures EnvKeyVar(provider).None? && provider != "gemini" ==> r == None
    ensures Given(r) ==> exists name :: name in env && env[name] == r.value
    // the provider's own variable wins when it holds a non-empty key
    ensures EnvKeyVar(provider).Some? && Given(GetEnv(env, EnvKeyVar(provider).value))
            ==> r == Some(env[EnvKeyVar(provider).value])
    // Gemini falls back to GENAI_API_KEY, and finds nothing when neither is set
    ensures provider == "gemini" && !Given(GetEnv(env, "GEMINI_API_KEY")) && Given(GetEnv(env, "GENAI_API_KEY"))
            ==> r == Some(env["GENAI_API_KEY"])
    ensures provider == "gemini" && !Given(GetEnv(env, "GEMINI_API_KEY")) && !Given(GetEnv(env, "GENAI_API_KEY"))
            ==> !Given(r)
  {
    var v := EnvKeyVar(provider);
    if v.Some? && Given(GetEnv(env, v.value)) then GetEnv(env, v.value)
    else if provider == "gemini" then
      var genai := GetEnv(env, "GENAI_API_KEY");
      if Given(genai) then genai else GetEnv(env, "GEMINI_API_KEY")
    else None
  }

  datatype Config = Config(provider: string, modelName: string, apiUrl: Option<string>,
                           apiKey: string, temperature: real)

  /** What the constructor settles, or the ValueError it raises without a
      key. */
  function Configure(requested: Option<string>, modelName: Option<string>, apiKey: Option<string>,
                     apiUrl: Option<string>, temperature: real, env: map<string, string>,
                     detect: string -> string, resolve: Option<string> -> Option<string>): (r: Result<Config>)
    ensures r.Failure? ==> r.error == KeyRequired
    ensures r.Success? ==> r.value.apiKey != "" && r.value.modelName != ""
                           && r.value.provider == Provider(requested, apiUrl, detect)
    ensures r.Success? && Given(apiUrl) ==> r.value.apiUrl == apiUrl
    ensures r.Success? && !Given(apiUrl) ==> r.value.apiUrl == DefaultApiUrl(r.value.provider)
    ensures Given(resolve(if Given(apiKey) then apiKey else LookupDefaultApiKey(Provider(requested, apiUrl, detect), env)))
            <==> r.Success?
  {
    var provider := Provider(requested, apiUrl, detect);
    var key := resolve(if Given(apiKey) then apiKey else LookupDefaultApiKey(provider, env));
    if !Given(key) then Failure(KeyRequired)
    else
      var url := if Given(apiUrl) then apiUrl else DefaultApiUrl(provider);
      Success(Config(provider, if Given(modelName) then modelName.value else DefaultModel, url, key.value, temperature))
  }

  /** Without a URL, a known provider other than Gemini gets its default
      endpoint. */
  lemma DefaultEndpoint(requested: string, env: map<string, string>, key: string,
                        detect: string -> string, resolve: Option<string> -> Option<string>)
    requires requested in {"openai", "deepseek", "claude", "nvidia"} && resolve(Some(key)) == Some(key) && key != ""
    ensures var r := Configure(Some(requested), None, Some(key), None, 0.0, env, detect, resolve);
      r.Success? && r.value.provider == requested && r.value.apiUrl.Some? && r.value.apiKey == key
  {
    LowerOfLower(requested);
  }

  // -------------------------------------------------------------- prompts

  const RowsLabel: string := "\nFIRST FEW ROWS OF THE USER'S SHEET UP TO THE LAST NONEMPTY COLUMN: "
  const ReadLabel: string := "\nPREVIOUS READ ACTION RESULTS: "

  function RequestLine(instruction: string): string {
    " NOW, user request is: [" + instruction + "]."
  }

  function RowsPart(rows: string): string { RowsLabel + rows }
  function ReadPart(context: string): string { ReadLabel + context }

  lemma EndsWithAppended(p: string, q: string)
    ensures EndsWith(p + q, q)
  {
    assert (p + q)[|p + q| - |q|..] == q;
  }

  /** The user prompt: the request line, then the sheet rows when given and
      not empty, then the read results when given and not empty. */
  function ContinuingPrompt(instruction: string, firstRows: Option<string>, readContext: Option<string>): (r: string)
    ensures StartsWith(r, RequestLine(instruction))
    ensures Given(readContext) ==> EndsWith(r, ReadPart(readContext.value))
    ensures !Given(readContext) && Given(firstRows) ==> EndsWith(r, RowsPart(firstRows.value))
    ensures !Given(readContext) && !Given(firstRows) ==> r == RequestLine(instruction)
    ensures r == RequestLine(instruction)
                 + (if Given(firstRows) then RowsPart(firstRows.value) else "")
                 + (if Given(readContext) then ReadPart(readContext.value) else "")
  {
    var rows := if firstRows.Some? then firstRows.value else "";
    var p := RequestLine(instruction);
    var p2 := if rows != "" then p + RowsPart(rows) else p;
    var r := if Given(readContext) then p2 + ReadPart(readContext.value) else p2;
    StartsWithConcat(p, RowsPart(rows));
    StartsWithConcat(p2, if Given(readContext) then ReadPart(readContext.value) else "");
    EndsWithAppended(p, RowsPart(rows));
    EndsWithAppended(p2, if Given(readContext) then ReadPart(readContext.value) else "");
    assert p2 + "" == p2;
    r
  }

  // ----------------------------------------------------------------- chat

  /** A chat after `n` requests: the system entry, then user and assistant
      entries in turn. */
  predicate ChatShape(h: History, n: nat, system: string) {
    |h| == 2 * n + 1 && h[0] == Message("system", system)
    && forall i :: 1 <= i < |h| ==> h[i].role == if i % 2 == 1 then "user" else "assistant"
  }

  /** One more request keeps the shape. */
  lemma ChatShapeGrows(h: History, n: nat, system: string, prompt: string, reply: string)
    requires ChatShape(h, n, system)
    ensures ChatShape(h + [Message("user", prompt), Message("assistant", reply)], n + 1, system)
  {
    var h2 := h + [Message("user", prompt), Message("assistant", reply)];
    forall i | 1 <= i < |h2|
      ensures h2[i].role == if i % 2 == 1 then "user" else "assistant"
    {
      if i < |h| {
        assert h2[i] == h[i];
      }
    }
  }

  /** `system` appears only at the start. */
  lemma SystemOnlyFirst(h: History, n: nat, system: string)
    requires ChatShape(h, n, system)
    ensures forall i :: 0 <= i < |h| ==> (h[i].role == "system" <==> i == 0)
  {
  }

  class SingularAgent {
    const config: Config
    const systemPrompt: string
    var chatHistory: History
    var firstChat: bool
    ghost var requests: nat

    ghost predicate Valid()
      reads this
    {
      (firstChat ==> chatHistory == [] && requests == 0)
      && (!firstChat ==> ChatShape(chatHistory, requests, systemPrompt))
    }

    /** `instructions` is the fixed text of the system prompt and `bnf` the
        grammar file's contents. */
    constructor(c: Config, instructions: string, bnf: string)
      ensures Valid() && config == c && firstChat && chatHistory == []
      ensures systemPrompt == instructions + "\n Actions BNF Specification: \n" + bnf
    {
      config := c;
      systemPrompt := instructions + "\n Actions BNF Specification: \n" + bnf;
      chatHistory := [];
      firstChat := true;
      requests := 0;
    }

    /** `singular_agent_response`, given the model's reply. */
    method SingularAgentResponse(instruction: string, firstRows: Option<string>, readContext: Option<string>,
                                 responseText: string) returns (r: string)
      requires Valid()
      modifies this
      ensures Valid() && !firstChat && requests == old(requests) + 1
      ensures r == responseText
      ensures chatHistory == old(chatHistory)
                             + (if old(firstChat) then [Message("system", systemPrompt)] else [])
                             + [Message("user", ContinuingPrompt(instruction, firstRows, readContext)),
                                Message("assistant", responseText)]
    {
      var prompt := ContinuingPrompt(instruction, firstRows, readContext);
      ghost var start := chatHistory;
      if firstChat {
        chatHistory := chatHistory + [Message("system", systemPrompt)];
        firstChat := false;
      }
      assert ChatShape(chatHistory, requests, systemPrompt);
      ChatShapeGrows(chatHistory, requests, systemPrompt, prompt, responseText);
      chatHistory := chatHistory + [Message("user", prompt)];
      chatHistory := chatHistory + [Message("assistant", responseText)];
      requests := requests + 1;
      r := responseText;
    }
  }
}
