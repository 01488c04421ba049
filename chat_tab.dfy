/** The chat screen: `handleSend` appends the user's message to the current
    domain's history, sends the history to the chat endpoint and grows one
    assistant message as deltas arrive.  The stream's callbacks are replayed
    in the order `streamChat` makes them. */
module ChatTab {
  import opened Wrappers
  import opened JsText
  import opened Messages
  import opened AiStream
  import opened MentorContext

  /** What `handleSend` sends: the messages, and the extra fields. */
  datatype ChatRequest = ChatRequest(
    messages: seq<ChatMessage>,
    interest: Option<Interest>,
    level: Option<Level>,
    temperature: real,
    maxTokens: int)

  /** The topic recorded for a message: `text.slice(0, 50)`. */
  const TopicLength: nat := 50

  /** The updater `updateAssistant` hands to `setChatMessages`: the last
      message gets `content` when it is the assistant's, otherwise a new
      assistant message is appended. */
  function UpdateAssistant(prev: seq<ChatMessage>, content: string): (r: seq<ChatMessage>)
    ensures |r| >= 1 && r[|r| - 1] == ChatMessage(Assistant, content)
    ensures |prev| > 0 && prev[|prev| - 1].role == Assistant ==>
      |r| == |prev| && r[..|r| - 1] == prev[..|prev| - 1]
    ensures !(|prev| > 0 && prev[|prev| - 1].role == Assistant) ==> r == prev + [ChatMessage(Assistant, content)]
  {
    var n := |prev|;
    if n > 0 && prev[n - 1].role == Assistant then
      seq(n, i requires 0 <= i < n => if i == n - 1 then prev[i].(content := content) else prev[i])
    else prev + [ChatMessage(Assistant, content)]
  }

  /** The updater `handleSend` passes first: the user's message is appended. */
  function AppendAction(m: ChatMessage): ChatAction {
    Update(prev => prev + [m])
  }

  lemma ApplyAppendAction(m: ChatMessage, prev: seq<ChatMessage>)
    ensures Apply(AppendAction(m), prev) == prev + [m]
  {
  }

  /** The updater `updateAssistant` passes for the content accumulated so far. */
  function AssistantAction(content: string): ChatAction {
    Update(prev => UpdateAssistant(prev, content))
  }

  lemma ApplyAssistantAction(content: string, prev: seq<ChatMessage>)
    ensures Apply(AssistantAction(content), prev) == UpdateAssistant(prev, content)
  {
  }

  /** The history after the user's message and the deltas so far: one
      assistant message holding their concatenation once any has arrived. */
  function Transcript(before: seq<ChatMessage>, user: ChatMessage, deltas: seq<string>): seq<ChatMessage> {
    before + [user] + if deltas == [] then [] else [ChatMessage(Assistant, Concat(deltas))]
  }

  /** One more delta: the first appends the assistant message, later ones
      rewrite only its content, and the messages before it stay. */
  lemma UpdateAssistantStep(before: seq<ChatMessage>, user: ChatMessage, deltas: seq<string>, d: string)
    requires user.role == User
    ensures UpdateAssistant(Transcript(before, user, deltas), Concat(deltas) + d) ==
      Transcript(before, user, deltas + [d])
  {
    ConcatSnoc(deltas, d);
    var content := Concat(deltas + [d]);
    assert Concat(deltas) + d == content;
    var base := before + [user];
    if deltas == [] {
      FirstDelta(base, content);
    } else {
      LaterDelta(base, Concat(deltas), content);
    }
  }

  lemma FirstDelta(base: seq<ChatMessage>, content: string)
    requires |base| > 0 && base[|base| - 1].role == User
    ensures UpdateAssistant(base + [], content) == base + [ChatMessage(Assistant, content)]
  {
    assert base + [] == base;
  }

  lemma LaterDelta(base: seq<ChatMessage>, old_content: string, content: string)
    ensures UpdateAssistant(base + [ChatMessage(Assistant, old_content)], content) ==
      base + [ChatMessage(Assistant, content)]
  {
    var prev := base + [ChatMessage(Assistant, old_content)];
    var r := UpdateAssistant(prev, content);
    assert prev[..|prev| - 1] == base;
    assert r == r[..|r| - 1] + [r[|r| - 1]];
  }

  /** The texts of the `onDelta` callbacks among `events`, in order. */
  function DeltaTexts(events: seq<Event>): (r: seq<string>)
    ensures |r| <= |events|
  {
    if events == [] then []
    else
      var last := events[|events| - 1];
      DeltaTexts(events[..|events| - 1]) + if last.Delta? then [last.text] else []
  }

  lemma DeltaTextsPrefix(events: seq<Event>, j: nat)
    requires j < |events|
    ensures DeltaTexts(events[..j + 1]) ==
      DeltaTexts(events[..j]) + if events[j].Delta? then [events[j].text] else []
  {
    assert events[..j + 1][..j] == events[..j];
  }

  /** The content accumulated over one more delta. */
  lemma ConcatSnoc(parts: seq<string>, d: string)
    ensures Concat(parts + [d]) == Concat(parts) + d
  {
    ConcatAppend(parts, [d]);
    assert Concat([d]) == d + Concat([]);
  }

  /** The deltas a run of `streamChat` reports are the deltas it read. */
  lemma {:induction false} DeltaTextsOfEvents(deltas: seq<string>)
    ensures DeltaTexts(DeltaEvents(deltas) + [Done]) == deltas
  {
    var e := DeltaEvents(deltas) + [Done];
    assert e[..|e| - 1] == DeltaEvents(deltas);
    DeltaTextsOfDeltas(deltas);
  }

  lemma {:induction false} DeltaTextsOfDeltas(deltas: seq<string>)
    ensures DeltaTexts(DeltaEvents(deltas)) == deltas
  {
    if deltas != [] {
      var n := |deltas|;
      var e := DeltaEvents(deltas);
      assert e[..n - 1] == DeltaEvents(deltas[..n - 1]);
      DeltaTextsOfDeltas(deltas[..n - 1]);
      assert deltas[..n - 1] + [deltas[n - 1]] == deltas;
    }
  }

  /** The deltas a call of `streamChat` delivers: none when it throws. */
  function DeliveredDeltas(outcome: StreamOutcome): seq<string> {
    if outcome.Completed? then DeltaTexts(outcome.events) else []
  }

  class ChatScreen {
    var input: string
    var isLoading: bool
    var temperature: real
    var maxTokens: int
    /** The message of the last error toast. */
    var lastError: Option<string>

    constructor()
      ensures input == "" && !isLoading && temperature == 0.7 && maxTokens == 1024 && lastError == None
    {
      input, isLoading, temperature, maxTokens, lastError := "", false, 0.7, 1024, None;
    }

    /** `handleSend`.  `resp` is the endpoint's response to the request sent;
        `request` is that request, or `None` when nothing is sent. */
    method HandleSend(ctx: MentorProvider, resp: Response, parseDelta: DeltaParser, parseError: ErrorParser)
      returns (request: Option<ChatRequest>)
      requires ctx.Valid()
      modifies this, ctx
      ensures ctx.Valid()
      ensures Trim(old(input)) == [] || old(isLoading) ==>
        && request == None
        && input == old(input) && isLoading == old(isLoading) && lastError == old(lastError)
        && ctx.chatsByDomain == old(ctx.chatsByDomain) && ctx.topicsExplored == old(ctx.topicsExplored)
      ensures Trim(old(input)) != [] && !old(isLoading) ==>
        var text := Trim(old(input));
        var user := ChatMessage(User, text);
        var outcome := StreamChatSpec(resp, parseDelta, parseError);
        && request == Some(ChatRequest(old(ctx.ChatMessages()) + [user], ctx.interest, ctx.level, temperature, maxTokens))
        && input == "" && !isLoading
        && lastError == (if outcome.Failed? then Some(outcome.message) else old(lastError))
        && ctx.topicsExplored == WithTopic(old(ctx.topicsExplored), Take(text, TopicLength))
        && ctx.ChatMessages() == Transcript(old(ctx.ChatMessages()), user, DeliveredDeltas(outcome))
        && (forall k :: k != DomainKey(ctx.interest) ==> Lookup(ctx.chatsByDomain, k) == Lookup(old(ctx.chatsByDomain), k))
      ensures temperature == old(temperature) && maxTokens == old(maxTokens)
      ensures ctx.interest == old(ctx.interest) && ctx.level == old(ctx.level)
      ensures ctx.quizResults == old(ctx.quizResults) && ctx.roadmap == old(ctx.roadmap)
    {
      var text := Trim(input);
      if text == [] || isLoading {
        return None;
      }
      input := "";
      var history := ctx.ChatMessages();
      var user := ChatMessage(User, text);
      ApplyAppendAction(user, history);
      ctx.SetChatMessages(AppendAction(user));
      isLoading := true;
      ctx.AddTopic(Take(text, TopicLength));
      request := Some(ChatRequest(history + [user], ctx.interest, ctx.level, temperature, maxTokens));
      var outcome := StreamChat(resp, parseDelta, parseError);
      if outcome.Failed? {
        isLoading := false;
        lastError := Some(outcome.message);
        assert Transcript(history, user, []) == history + [user];
        return;
      }
      assert ctx.ChatMessages() == Transcript(history, user, []);
      ReceiveReply(ctx, history, user, outcome.events);
      assert outcome.events[|outcome.events| - 1] == Done;
    }

    /** `updateAssistant(chunk)`: `content` is `assistantContent`, the
        concatenation of the deltas `seen` so far; the chunk is appended to it
        and the assistant message in the current domain's history is set to
        the result. */
    method OnDelta(ctx: MentorProvider, history: seq<ChatMessage>, user: ChatMessage, ghost seen: seq<string>,
                   content: string, d: string)
      returns (next: string)
      requires ctx.Valid() && user.role == User
      requires content == Concat(seen) && ctx.ChatMessages() == Transcript(history, user, seen)
      modifies ctx
      ensures next == Concat(seen + [d]) && ctx.ChatMessages() == Transcript(history, user, seen + [d])
      ensures ctx.chatsByDomain == old(ctx.chatsByDomain)[DomainKey(ctx.interest) := Transcript(history, user, seen + [d])]
      ensures ctx.Valid() && ctx.interest == old(ctx.interest) && ctx.level == old(ctx.level)
      ensures ctx.topicsExplored == old(ctx.topicsExplored)
      ensures ctx.quizResults == old(ctx.quizResults) && ctx.roadmap == old(ctx.roadmap)
    {
      assert Concat(seen + [d]) == content + d by {
        ConcatSnoc(seen, d);
      }
      assert Apply(AssistantAction(content + d), ctx.ChatMessages()) == Transcript(history, user, seen + [d]) by {
        ApplyAssistantAction(content + d, ctx.ChatMessages());
        UpdateAssistantStep(history, user, seen, d);
      }
      next := content + d;
      ctx.SetChatMessages(AssistantAction(next));
    }

    /** The callbacks of one `streamChat` call, in the order it makes them:
        `onDelta` is `updateAssistant`, which adds the delta to
        `assistantContent` and writes it into the history, and `onDone`
        clears the loading flag. */
    method ReceiveReply(ctx: MentorProvider, history: seq<ChatMessage>, user: ChatMessage, events: seq<Event>)
      requires ctx.Valid() && user.role == User
      requires ctx.ChatMessages() == Transcript(history, user, [])
      modifies this, ctx
      ensures ctx.ChatMessages() == Transcript(history, user, DeltaTexts(events))
      ensures forall k :: k != DomainKey(ctx.interest) ==> Lookup(ctx.chatsByDomain, k) == Lookup(old(ctx.chatsByDomain), k)
      ensures isLoading <==> old(isLoading) && Done !in events
      ensures ctx.Valid() && ctx.interest == old(ctx.interest) && ctx.level == old(ctx.level)
      ensures ctx.topicsExplored == old(ctx.topicsExplored)
      ensures ctx.quizResults == old(ctx.quizResults) && ctx.roadmap == old(ctx.roadmap)
      ensures input == old(input) && lastError == old(lastError)
      ensures temperature == old(temperature) && maxTokens == old(maxTokens)
    {
      ghost var key := DomainKey(ctx.interest);
      var assistantContent := "";
      assert events[..0] == [];
      assert key in ctx.chatsByDomain && ctx.chatsByDomain == ctx.chatsByDomain[key := Transcript(history, user, [])];
      for j := 0 to |events|
        invariant assistantContent == Concat(DeltaTexts(events[..j]))
        invariant ctx.chatsByDomain == old(ctx.chatsByDomain)[key := Transcript(history, user, DeltaTexts(events[..j]))]
        invariant isLoading <==> old(isLoading) && Done !in events[..j]
        invariant key == DomainKey(ctx.interest) && ctx.Valid()
        invariant ctx.interest == old(ctx.interest) && ctx.level == old(ctx.level)
        invariant ctx.topicsExplored == old(ctx.topicsExplored)
        invariant ctx.quizResults == old(ctx.quizResults) && ctx.roadmap == old(ctx.roadmap)
        invariant input == old(input) && lastError == old(lastError)
        invariant temperature == old(temperature) && maxTokens == old(maxTokens)
      {
        ghost var seen := DeltaTexts(events[..j]);
        assert events[..j + 1] == events[..j] + [events[j]];
        assert DeltaTexts(events[..j + 1]) == seen + if events[j].Delta? then [events[j].text] else [] by {
          DeltaTextsPrefix(events, j);
        }
        match events[j]
        case Delta(d) =>
          assistantContent := OnDelta(ctx, history, user, seen, assistantContent, d);
        case Done =>
          assert seen + [] == seen;
          isLoading := false;
      }
      assert events[..|events|] == events;
    }
  }
}
