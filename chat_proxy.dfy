/** The chat edge function: it answers CORS preflight requests, fills in
    the generation parameters, builds the system prompt from the learner's
    interest and level, forwards the conversation to the AI gateway and maps
    the gateway's failures to client responses.  The environment lookup of
    the API key and the gateway call are parameters. */
module ChatProxy {
  import opened Wrappers
  import opened Messages
  import opened JsText

  const DefaultTemperature: real := 0.7
  const DefaultMaxTokens: int := 1024
  const Model: string := "google/gemini-3-flash-preview"
  const MissingKey: string := "LOVABLE_API_KEY is not configured"
  const RateLimited: string := "Rate limit exceeded. Please try again in a moment."
  const OutOfCredits: string := "AI usage limit reached. Please add credits."
  const ServiceError: string := "AI service error"

  /** A numeric field of the JSON body: missing, an explicit `null`, or a
      number. */
  datatype Field<T> = Absent | Null | Present(value: T)

  /** The JSON body of a chat request.  `interest` and `level` are printed
      into the prompt; `None` is JSON `null`. */
  datatype ChatBody = ChatBody(
    messages: seq<ChatMessage>,
    interest: Option<string>,
    level: Option<string>,
    temperature: Field<real>,
    maxTokens: Field<int>)

  /** The destructuring default: a missing field gets the default, while an
      explicit `null` stays `null` (`None`). */
  function WithDefault<T>(f: Field<T>, default: T): (v: Option<T>)
    ensures f.Absent? ==> v == Some(default)
    ensures f.Null? <==> v.None?
    ensures f.Present? ==> v == Some(f.value)
  {
    match f
    case Absent => Some(default)
    case Null => None
    case Present(x) => Some(x)
  }

  /** `temperature = 0.7` */
  function Temperature(body: ChatBody): (t: Option<real>)
    ensures body.temperature.Absent? ==> t == Some(DefaultTemperature)
    ensures body.temperature.Null? <==> t.None?
    ensures body.temperature.Present? ==> t == Some(body.temperature.value)
  {
    WithDefault(body.temperature, DefaultTemperature)
  }

  /** `max_tokens = 1024` */
  function MaxTokens(body: ChatBody): (m: Option<int>)
    ensures body.maxTokens.Absent? ==> m == Some(DefaultMaxTokens)
    ensures body.maxTokens.Null? <==> m.None?
    ensures body.maxTokens.Present? ==> m == Some(body.maxTokens.value)
  {
    WithDefault(body.maxTokens, DefaultMaxTokens)
  }

  /** The number a relational comparison sees: `null` compares as 0. */
  function AsNumber(v: Option<real>): (x: real)
    ensures v.None? ==> x == 0.0
    ensures v.Some? ==> x == v.value
  {
    v.GetOr(0.0)
  }

  function AsInteger(v: Option<int>): (x: int)
    ensures v.None? ==> x == 0
    ensures v.Some? ==> x == v.value
  {
    v.GetOr(0)
  }

  /** The four creativity styles, least creative first. */
  datatype Creativity = Precise | Balanced | Exploratory | Imaginative {
    function Rank(): nat {
      match this
      case Precise => 0
      case Balanced => 1
      case Exploratory => 2
      case Imaginative => 3
    }

    function Text(): string {
      match this
      case Precise => "precise and factual"
      case Balanced => "balanced"
      case Exploratory => "creative and exploratory"
      case Imaginative => "highly creative and imaginative"
    }
  }

  /** `creativityLabel`: thresholds 0.3, 0.6 and 0.8, each inclusive. */
  function CreativityLabel(t: real): (c: Creativity)
    ensures c == Precise <==> t <= 0.3
    ensures c == Balanced <==> 0.3 < t <= 0.6
    ensures c == Exploratory <==> 0.6 < t <= 0.8
    ensures c == Imaginative <==> 0.8 < t
  {
    if t <= 0.3 then Precise
    else if t <= 0.6 then Balanced
    else if t <= 0.8 then Exploratory
    else Imaginative
  }

  /** A higher temperature never asks for a less creative style. */
  lemma CreativityMonotone(t1: real, t2: real)
    requires t1 <= t2
    ensures CreativityLabel(t1).Rank() <= CreativityLabel(t2).Rank()
  {
  }

  /** The four response lengths, shortest first. */
  datatype Length = Brief | Moderate | Thorough | Comprehensive {
    function Rank(): nat {
      match this
      case Brief => 0
      case Moderate => 1
      case Thorough => 2
      case Comprehensive => 3
    }

    function Text(): string {
      match this
      case Brief => "Keep responses brief and concise (1-2 paragraphs)."
      case Moderate => "Provide moderately detailed responses."
      case Thorough => "Give thorough, detailed explanations with examples."
      case Comprehensive => "Provide comprehensive, in-depth responses with multiple examples, analogies, and detailed breakdowns."
    }
  }

  /** `lengthLabel`: thresholds 512, 1024 and 2048, each inclusive. */
  function LengthLabel(m: int): (l: Length)
    ensures l == Brief <==> m <= 512
    ensures l == Moderate <==> 512 < m <= 1024
    ensures l == Thorough <==> 1024 < m <= 2048
    ensures l == Comprehensive <==> 2048 < m
  {
    if m <= 512 then Brief
    else if m <= 1024 then Moderate
    else if m <= 2048 then Thorough
    else Comprehensive
  }

  /** A larger token budget never asks for shorter answers. */
  lemma LengthMonotone(m1: int, m2: int)
    requires m1 <= m2
    ensures LengthLabel(m1).Rank() <= LengthLabel(m2).Rank()
  {
  }

  /** The learner's interest or level as the template prints it. */
  function Show(v: Option<string>): string {
    match v
    case Some(s) => s
    case None => "null"
  }

  /** What the system prompt is filled in with. */
  datatype PromptParams = PromptParams(interest: Option<string>, level: Option<string>, creativity: Creativity, length: Length)

  /** The text of the system prompt: its opening line, naming the interest
      and level, then the style and guidelines. */
  function SystemPrompt(p: PromptParams): string {
    var i, l := Show(p.interest), Show(p.level);
    Opening(i, l) + Guidance(i, l, p.creativity, p.length)
  }

  /** The prompt opens by naming the learner's interest and level. */
  lemma SystemPromptOpening(p: PromptParams)
    ensures StartsWith(SystemPrompt(p), Opening(Show(p.interest), Show(p.level)))
  {
    var i, l := Show(p.interest), Show(p.level);
    StartsWithAppend(Opening(i, l), Guidance(i, l, p.creativity, p.length));
  }

  lemma StartsWithAppend(a: string, b: string)
    ensures StartsWith(a + b, a)
  {
    assert (a + b)[..|a|] == a;
  }

  function Opening(interest: string, level: string): string {
    "You are an expert AI mentor specializing in " + interest + " for " + level + "-level learners."
  }

  function Guidance(i: string, l: string, creativity: Creativity, length: Length): string {
    "\n" +
    "\n" +
    "Response Style: Be " + creativity.Text() + " in your approach.\n" +
    length.Text() + "\n" +
    "\n" +
    "Guidelines:\n" +
    "- Provide accurate, well-researched answers specific to " + i + ".\n" +
    "- Adapt complexity to " + l + " level \U{2014} use simpler language for beginners, technical depth for advanced.\n" +
    "- Use concrete examples, real-world analogies, and practical tips relevant to " + i + ".\n" +
    "- Format with markdown: headers, bullet points, code blocks, and bold text for key concepts.\n" +
    "- When creativity is high, explore unconventional approaches and connections. When low, stick strictly to established facts.\n" +
    "- Always be encouraging and actionable."
  }

  /** A message sent to the gateway: the system prompt, whose content is
      `SystemPrompt(prompt)`, or a client message. */
  datatype Outgoing = SystemMessage(prompt: PromptParams) | Forwarded(message: ChatMessage)

  /** The gateway request. */
  datatype UpstreamCall = UpstreamCall(
    apiKey: string, model: string, messages: seq<Outgoing>, stream: bool,
    temperature: Option<real>, maxTokens: Option<int>)

  /** What the gateway answered: its status and, when OK, the event stream. */
  datatype Upstream = Upstream(ok: bool, status: int, body: seq<string>)

  /** The response body: none (preflight), a JSON `{error}` object, or the
      gateway's event stream passed through. */
  datatype Body = NoBody | ErrorJson(error: string) | EventStream(chunks: seq<string>)

  /** Every response carries the CORS headers; `contentType` is the extra
      `Content-Type`, if any. */
  datatype HttpResponse = HttpResponse(status: int, contentType: Option<string>, body: Body)

  /** The forwarded conversation: the system prompt, then the client's
      messages in order. */
  function Conversation(system: PromptParams, messages: seq<ChatMessage>): (r: seq<Outgoing>)
    ensures |r| == |messages| + 1 && r[0] == SystemMessage(system)
    ensures forall k :: 0 <= k < |messages| ==> r[k + 1] == Forwarded(messages[k])
  {
    [SystemMessage(system)] + seq(|messages|, k requires 0 <= k < |messages| => Forwarded(messages[k]))
  }

  /** The JSON error response with the given status. */
  function ErrorResponse(status: int, message: string): HttpResponse {
    HttpResponse(status, Some("application/json"), ErrorJson(message))
  }

  /** The response for a failed gateway call. */
  function ErrorForStatus(status: int): (r: HttpResponse)
    ensures r.contentType == Some("application/json") && r.body.ErrorJson?
    ensures status == 429 <==> r == ErrorResponse(429, RateLimited)
    ensures status == 402 <==> r == ErrorResponse(402, OutOfCredits)
    ensures status != 429 && status != 402 <==> r == ErrorResponse(500, ServiceError)
  {
    if status == 429 then ErrorResponse(429, RateLimited)
    else if status == 402 then ErrorResponse(402, OutOfCredits)
    else ErrorResponse(500, ServiceError)
  }

  /** The gateway request built from a body and an API key: the
      parameters are forwarded as they came, after the defaults, and the
      labels are chosen by comparing them, `null` as 0. */
  function CallFor(body: ChatBody, apiKey: string): (c: UpstreamCall)
    ensures c.apiKey == apiKey && c.model == Model && c.stream
    ensures c.temperature == Temperature(body) && c.maxTokens == MaxTokens(body)
    ensures |c.messages| == |body.messages| + 1
    ensures c.messages[0] == SystemMessage(PromptParams(body.interest, body.level,
                               CreativityLabel(AsNumber(c.temperature)), LengthLabel(AsInteger(c.maxTokens))))
    ensures forall k :: 0 <= k < |body.messages| ==> c.messages[k + 1] == Forwarded(body.messages[k])
  {
    var t, m := Temperature(body), MaxTokens(body);
    var system := PromptParams(body.interest, body.level, CreativityLabel(AsNumber(t)), LengthLabel(AsInteger(m)));
    UpstreamCall(apiKey, Model, Conversation(system, body.messages), true, t, m)
  }

  /** One exchange: the gateway request made, if any, and the response. */
  datatype Exchange = Exchange(call: Option<UpstreamCall>, response: HttpResponse)

  /** The handler for a request with HTTP method `verb`.  `body` is `req.json()` (an error when it throws),
      `apiKey` is the environment variable, and `gateway` is the fetch (an
      error when it throws). */
  function Handle(verb: string, body: Result<ChatBody>, apiKey: Option<string>,
                  gateway: UpstreamCall -> Result<Upstream>): (x: Exchange)
    ensures verb == "OPTIONS" ==> x == Exchange(None, HttpResponse(200, None, NoBody))
    ensures x.call.Some? ==> verb != "OPTIONS" && body.Ok? && apiKey.Some? && apiKey.value != ""
    ensures x.response.status == 200 <==> x.response.body.NoBody? || x.response.body.EventStream?
  {
    if verb == "OPTIONS" then Exchange(None, HttpResponse(200, None, NoBody))
    else if body.Err? then Exchange(None, ErrorResponse(500, body.message))
    else if apiKey.None? || apiKey.value == "" then Exchange(None, ErrorResponse(500, MissingKey))
    else
      var call := CallFor(body.value, apiKey.value);
      match gateway(call)
      case Err(m) => Exchange(Some(call), ErrorResponse(500, m))
      case Ok(up) =>
        if !up.ok then Exchange(Some(call), ErrorForStatus(up.status))
        else Exchange(Some(call), HttpResponse(200, Some("text/event-stream"), EventStream(up.body)))
  }

  /** Without an API key no gateway request is made and the client gets a
      500 naming the missing variable. */
  lemma MissingKeyIs500(verb: string, body: ChatBody, apiKey: Option<string>, gateway: UpstreamCall -> Result<Upstream>)
    requires verb != "OPTIONS" && (apiKey.None? || apiKey == Some(""))
    ensures Handle(verb, Ok(body), apiKey, gateway) == Exchange(None, ErrorResponse(500, MissingKey))
  {
  }

  /** With a key, the gateway gets the system prompt and then the client's
      messages, the parameters with their defaults, and streaming on; its
      failures map by status and its stream is passed through. */
  lemma ForwardedRequest(verb: string, body: ChatBody, key: string, gateway: UpstreamCall -> Result<Upstream>)
    requires verb != "OPTIONS" && key != ""
    ensures var x := Handle(verb, Ok(body), Some(key), gateway);
      && x.call.Some? && x.call.value.apiKey == key && x.call.value.model == Model && x.call.value.stream
      && x.call.value.temperature == Temperature(body) && x.call.value.maxTokens == MaxTokens(body)
      && x.call.value.messages[1..] == seq(|body.messages|, k requires 0 <= k < |body.messages| => Forwarded(body.messages[k]))
      && |x.call.value.messages| >= 1
      && x.call.value.messages[0] == SystemMessage(PromptParams(body.interest, body.level,
                                                   CreativityLabel(AsNumber(Temperature(body))),
                                                   LengthLabel(AsInteger(MaxTokens(body)))))
      && match gateway(x.call.value)
         case Err(m) => x.response == ErrorResponse(500, m)
         case Ok(up) =>
           x.response == if up.ok then HttpResponse(200, Some("text/event-stream"), EventStream(up.body))
                         else ErrorForStatus(up.status)
  {
    var x := Handle(verb, Ok(body), Some(key), gateway);
    var msgs := x.call.value.messages;
    assert msgs[1..] == seq(|body.messages|, k requires 0 <= k < |body.messages| => Forwarded(body.messages[k]));
  }

  /** An explicit `null` temperature or budget is forwarded as `null` and
      compares as 0: the most precise style and the briefest answers. */
  lemma NullParameters(body: ChatBody, key: string)
    ensures var c := CallFor(body, key);
      && (body.temperature.Null? ==> c.temperature.None? && c.messages[0].prompt.creativity == Precise)
      && (body.maxTokens.Null? ==> c.maxTokens.None? && c.messages[0].prompt.length == Brief)
  {
  }

  /** The default temperature asks for the exploratory style and the
      default budget for moderately detailed answers. */
  lemma DefaultsLabels()
    ensures CreativityLabel(DefaultTemperature) == Exploratory
    ensures LengthLabel(DefaultMaxTokens) == Moderate
  {
  }
}
