/**
 * `callGPTAPI` and `callGPTAPIWithModel`: build the chat request for one
 * model configuration, validate what the endpoint answers, and try the
 * configured models in order until one answers usefully.
 *
 * The HTTP exchange is a function parameter from request to response;
 * the response is the abstract record the validation reads.
 */
module ModelFallback {
  import opened Wrappers
  import opened Text
  import Json

  /** One entry of the model list. */
  datatype ModelConfig = ModelConfig(
    model: string,
    temperature: real,
    seed: int,
    supportsResponseFormat: Option<bool>)

  /** The request body posted to the endpoint; the messages are the system text and the prompt. */
  datatype RequestBody = RequestBody(
    model: string,
    prompt: string,
    temperature: real,
    seed: int,
    maxTokens: nat,
    jsonResponseFormat: bool)

  const MaxTokens: nat := 4000

  /** The built-in model list, used until a fetched configuration replaces it. */
  const DefaultModels: seq<ModelConfig> := [
    ModelConfig("qwen/qwen3-8b:free", 0.1, 1997, Some(true)),
    ModelConfig("mistralai/mistral-small-3.2-24b-instruct:free", 0.1, 1997, Some(true)),
    ModelConfig("moonshotai/kimi-k2:free", 0.1, 1997, Some(true))
  ]

  /** The request for one model: `response_format` only when the model declares support. */
  function BuildRequest(config: ModelConfig, prompt: string): (r: RequestBody)
    ensures r.model == config.model && r.prompt == prompt
    ensures r.temperature == config.temperature && r.seed == config.seed
    ensures r.maxTokens == MaxTokens
    ensures r.jsonResponseFormat <==> config.supportsResponseFormat == Some(true)
  {
    RequestBody(config.model, prompt, config.temperature, config.seed, MaxTokens,
      config.supportsResponseFormat == Some(true))
  }

  /** `data.error`, when truthy. */
  datatype ApiError = ApiError(message: Option<string>)

  /** `choices[i].message`, when truthy. */
  datatype Message = Message(content: Option<string>)

  /** `choices[i]`, when truthy. */
  datatype Choice = Choice(message: Option<Message>)

  /** The decoded body: a truthy `error` and a truthy `choices` list, each possibly absent. */
  datatype ResponseData = ResponseData(error: Option<ApiError>, choices: Option<seq<Option<Choice>>>)

  /** The endpoint's answer; `data` is None when the body is not JSON. */
  datatype ApiResponse = ApiResponse(ok: bool, status: int, data: Option<ResponseData>)

  const InvalidBody := "Invalid JSON in API response"
  const InvalidStructure := "Invalid API response structure"
  const EmptyContent := "Empty content in API response"
  const AllModelsFailed := "All models failed to respond"

  /** `API Error: ${message || 'Unknown error'}`. */
  function ApiErrorText(e: ApiError): string {
    "API Error: " + (if e.message.Some? && e.message.value != [] then e.message.value else "Unknown error")
  }

  /** `choices[0].message.content` when the path exists. */
  function FirstContent(d: ResponseData): (r: Option<Option<string>>)
    ensures r.Some? <==>
      (d.choices.Some? && |d.choices.value| > 0 && d.choices.value[0].Some? &&
       d.choices.value[0].value.message.Some?)
  {
    if d.choices.Some? && |d.choices.value| > 0 && d.choices.value[0].Some? &&
       d.choices.value[0].value.message.Some?
    then Some(d.choices.value[0].value.message.value.content)
    else None
  }

  /**
   * The checks of `callGPTAPIWithModel` on a response, in the source's
   * order: status, body, error envelope, structure, content.
   */
  function ValidateResponse(response: ApiResponse): (r: Result<string, string>)
    ensures !response.ok ==> r == Failure("API call failed: " + Json.NumberToString(response.status))
    ensures response.ok && response.data.Some? && response.data.value.error.Some? ==>
      r == Failure(ApiErrorText(response.data.value.error.value))
    ensures (response.ok && response.data.Some? && response.data.value.error.None? &&
             FirstContent(response.data.value).None?) ==> r == Failure(InvalidStructure)
    ensures r.Success? <==>
      response.ok && response.data.Some? && response.data.value.error.None? &&
      FirstContent(response.data.value).Some? && FirstContent(response.data.value).value.Some? &&
      !IsBlank(FirstContent(response.data.value).value.value)
    ensures r.Success? ==> Some(r.value) == FirstContent(response.data.value).value
  {
    if !response.ok then Failure("API call failed: " + Json.NumberToString(response.status))
    else if response.data.None? then Failure(InvalidBody)
    else
      var d := response.data.value;
      if d.error.Some? then Failure(ApiErrorText(d.error.value))
      else if FirstContent(d).None? then Failure(InvalidStructure)
      else
        var content := FirstContent(d).value;
        if content.None? then Failure(EmptyContent)
        else
          TrimEmptyIffBlank(content.value);
          if content.value == [] || Trim(content.value) == [] then Failure(EmptyContent)
          else Success(content.value)
  }

  /** `callGPTAPIWithModel(config, prompt)`. */
  function CallWithModel(config: ModelConfig, prompt: string, send: RequestBody -> ApiResponse)
    : (r: Result<string, string>)
    ensures r.Success? ==> !IsBlank(r.value)
  {
    ValidateResponse(send(BuildRequest(config, prompt)))
  }

  /**
   * `callGPTAPI(prompt)`: the content of the first model whose call
   * succeeds, trying them in order; the fixed error when every model
   * fails, the empty list included.
   */
  method CallGptApi(models: seq<ModelConfig>, prompt: string, send: RequestBody -> ApiResponse)
    returns (r: Result<string, string>)
    ensures r.Success? ==> exists i :: (0 <= i < |models| &&
      CallWithModel(models[i], prompt, send) == r &&
      forall j :: 0 <= j < i ==> CallWithModel(models[j], prompt, send).Failure?)
    ensures r.Failure? ==> (r.error == AllModelsFailed &&
      forall i :: 0 <= i < |models| ==> CallWithModel(models[i], prompt, send).Failure?)
  {
    var i := 0;
    while i < |models|
      invariant 0 <= i <= |models|
      invariant forall j :: 0 <= j < i ==> CallWithModel(models[j], prompt, send).Failure?
    {
      var attempt := CallWithModel(models[i], prompt, send);
      if attempt.Success? {
        return attempt;
      }
      i := i + 1;
    }
    return Failure(AllModelsFailed);
  }

  /** The outcome the fallback loop promises, stated over the whole list. */
  function FirstSuccess(models: seq<ModelConfig>, prompt: string, send: RequestBody -> ApiResponse)
    : (r: Result<string, string>)
    ensures r.Failure? <==> forall i :: 0 <= i < |models| ==> CallWithModel(models[i], prompt, send).Failure?
    ensures r.Failure? ==> r.error == AllModelsFailed
  {
    if models == [] then Failure(AllModelsFailed)
    else if CallWithModel(models[0], prompt, send).Success? then CallWithModel(models[0], prompt, send)
    else FirstSuccess(models[1..], prompt, send)
  }

  /** The loop's result is determined: it is the list-order first success. */
  lemma {:induction false} CallOutcomeIsFirstSuccess(
    models: seq<ModelConfig>, prompt: string, send: RequestBody -> ApiResponse, r: Result<string, string>)
    requires r.Success? ==> exists i :: (0 <= i < |models| &&
      CallWithModel(models[i], prompt, send) == r &&
      forall j :: 0 <= j < i ==> CallWithModel(models[j], prompt, send).Failure?)
    requires r.Failure? ==> (r.error == AllModelsFailed &&
      forall i :: 0 <= i < |models| ==> CallWithModel(models[i], prompt, send).Failure?)
    ensures r == FirstSuccess(models, prompt, send)
  {
    if models == [] {
    } else if CallWithModel(models[0], prompt, send).Success? {
      if r.Success? {
        var i :| 0 <= i < |models| && CallWithModel(models[i], prompt, send) == r &&
          forall j :: 0 <= j < i ==> CallWithModel(models[j], prompt, send).Failure?;
        assert i == 0;
      }
    } else {
      if r.Success? {
        var i :| 0 <= i < |models| && CallWithModel(models[i], prompt, send) == r &&
          forall j :: 0 <= j < i ==> CallWithModel(models[j], prompt, send).Failure?;
        assert i > 0;
        assert CallWithModel(models[1..][i - 1], prompt, send) == r;
        forall j | 0 <= j < i - 1 ensures CallWithModel(models[1..][j], prompt, send).Failure? {
          assert models[1..][j] == models[j + 1];
        }
      } else {
        forall j | 0 <= j < |models| - 1 ensures CallWithModel(models[1..][j], prompt, send).Failure? {
          assert models[1..][j] == models[j + 1];
        }
      }
      CallOutcomeIsFirstSuccess(models[1..], prompt, send, r);
    }
  }
}
