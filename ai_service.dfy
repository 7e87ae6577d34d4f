/** `AIService`: the request each provider is sent, and how its answer or its failure
    comes back. The provider SDKs are parameters (an API key and a request in, text
    or an error message out). */
module AiService {
  import opened Wrappers
  import opened Text

  const GeminiDefaultModel := "gemini-2.0-flash-exp"
  const OpenAIDefaultModel := "gpt-4o-mini"
  const Separator := "\n\nHere is the content to enhance:\n\n"
  const GeminiError := "Gemini API error: "
  const OpenAIError := "OpenAI API error: "
  const InvalidService := "Invalid AI service selected"

  /** `generateContent(fullPrompt)` on `getGenerativeModel({ model })`. */
  datatype GeminiRequest = GeminiRequest(model: string, text: string)

  datatype Message = Message(role: string, content: string)

  /** The body of `chat.completions.create`. */
  datatype ChatRequest = ChatRequest(model: string, messages: seq<Message>, temperature: real, maxTokens: nat)

  /** An omitted model argument (`undefined`) takes the parameter's default; any
      string given, even `''`, is used as it is. */
  function ModelOrDefault(model: Option<string>, default: string): (r: string)
    ensures model.Some? ==> r == model.value
    ensures model.None? ==> r == default
  {
    if model.Some? then model.value else default
  }

  /** The single text Gemini is sent: the instructions, a fixed separator, then the
      document. */
  function GeminiPrompt(prompt: string, content: string): string
  {
    prompt + Separator + content
  }

  /** Both parts can be read back out of the text sent to Gemini once the
      instructions are known. */
  lemma GeminiPromptParts(prompt: string, content: string)
    ensures var t := GeminiPrompt(prompt, content);
            |t| == |prompt| + |Separator| + |content|
            && t[..|prompt|] == prompt
            && t[|prompt|..|prompt| + |Separator|] == Separator
            && t[|prompt| + |Separator|..] == content
  {
  }

  /** Two documents sent with the same instructions give the same text only when
      they are the same document. */
  lemma GeminiPromptInjective(prompt: string, c1: string, c2: string)
    requires GeminiPrompt(prompt, c1) == GeminiPrompt(prompt, c2)
    ensures c1 == c2
  {
    GeminiPromptParts(prompt, c1);
    GeminiPromptParts(prompt, c2);
  }

  /** The Gemini request: the model asked for, or the default model when none is
      given, sent the combined prompt. */
  function GeminiCall(content: string, prompt: string, model: Option<string>): (r: GeminiRequest)
    ensures model.Some? ==> r.model == model.value
    ensures model.None? ==> r.model == GeminiDefaultModel
    ensures r.text == GeminiPrompt(prompt, content)
  {
    GeminiRequest(ModelOrDefault(model, GeminiDefaultModel), GeminiPrompt(prompt, content))
  }

  /** The chat request: the model asked for, or the default model when none is given;
      the instructions as the system message, then the document as the only user
      message, each unchanged; temperature 0.7 and at most 4000 tokens. */
  function ChatCall(content: string, prompt: string, model: Option<string>): (r: ChatRequest)
    ensures model.Some? ==> r.model == model.value
    ensures model.None? ==> r.model == OpenAIDefaultModel
    ensures |r.messages| == 2
    ensures r.messages[0].role == "system" && r.messages[0].content == prompt
    ensures r.messages[1].role == "user" && r.messages[1].content == content
    ensures r.temperature == 0.7 && r.maxTokens == 4000
  {
    ChatRequest(ModelOrDefault(model, OpenAIDefaultModel),
                [Message("system", prompt), Message("user", content)], 0.7, 4000)
  }

  /** `enhanceWithGemini`: the reply's text, or the SDK's error behind the Gemini
      prefix. */
  function EnhanceWithGemini(content: string, prompt: string, apiKey: string, model: Option<string>,
                             gemini: (string, GeminiRequest) -> Result<string, string>): (r: Result<string, string>)
    ensures r.Ok? <==> gemini(apiKey, GeminiCall(content, prompt, model)).Ok?
    ensures r.Ok? ==> r.value == gemini(apiKey, GeminiCall(content, prompt, model)).value
    ensures r.Err? ==> StartsWith(r.error, GeminiError)
  {
    match gemini(apiKey, GeminiCall(content, prompt, model))
    case Ok(text) => Ok(text)
    case Err(e) => Err(GeminiError + e)
  }

  /** `enhanceWithOpenAI`: the first choice's content, `''` when the reply carries
      none, or the SDK's error behind the OpenAI prefix. */
  function EnhanceWithOpenAI(content: string, prompt: string, apiKey: string, model: Option<string>,
                             openai: (string, ChatRequest) -> Result<Option<string>, string>): (r: Result<string, string>)
    ensures r.Ok? <==> openai(apiKey, ChatCall(content, prompt, model)).Ok?
    ensures openai(apiKey, ChatCall(content, prompt, model)) == Ok(None) ==> r == Ok([])
    ensures var answer := openai(apiKey, ChatCall(content, prompt, model));
            answer.Ok? && answer.value.Some? ==> r == Ok(answer.value.value)
    ensures r.Err? ==> StartsWith(r.error, OpenAIError)
  {
    match openai(apiKey, ChatCall(content, prompt, model))
    case Ok(Some(text)) => Ok(text)
    case Ok(None) => Ok([])
    case Err(e) => Err(OpenAIError + e)
  }

  /** `enhance`: dispatches on the service name; any other name is refused without
      calling a provider. */
  function Enhance(content: string, prompt: string, service: string, apiKey: string, model: Option<string>,
                   gemini: (string, GeminiRequest) -> Result<string, string>,
                   openai: (string, ChatRequest) -> Result<Option<string>, string>): (r: Result<string, string>)
    ensures service != "gemini" && service != "openai" ==> r == Err(InvalidService)
    ensures service == "gemini" ==> r == EnhanceWithGemini(content, prompt, apiKey, model, gemini)
    ensures service == "openai" ==> r == EnhanceWithOpenAI(content, prompt, apiKey, model, openai)
  {
    if service == "gemini" then EnhanceWithGemini(content, prompt, apiKey, model, gemini)
    else if service == "openai" then EnhanceWithOpenAI(content, prompt, apiKey, model, openai)
    else Err(InvalidService)
  }

  /** Every failure of `enhance` names its cause: the refused service, or the
      provider whose SDK failed; and a success needs one of the two known services. */
  lemma EnhanceErrors(content: string, prompt: string, service: string, apiKey: string, model: Option<string>,
                      gemini: (string, GeminiRequest) -> Result<string, string>,
                      openai: (string, ChatRequest) -> Result<Option<string>, string>)
    ensures var r := Enhance(content, prompt, service, apiKey, model, gemini, openai);
            (r.Ok? ==> service == "gemini" || service == "openai")
            && (r.Err? ==> (service == "gemini" && StartsWith(r.error, GeminiError))
                           || (service == "openai" && StartsWith(r.error, OpenAIError))
                           || r.error == InvalidService)
  {
  }
}
