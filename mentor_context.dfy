/** The session state shared by the dashboard: the chosen interest and
    level, a chat history per interest, the quiz results, the roadmap and the
    topics explored.  Each updater of the provider is a pure function of the
    previous value; the provider is a class whose methods apply them. */
module MentorContext {
  import opened Wrappers
  import opened Messages

  datatype Interest =
    | WebDevelopment | DataScience | MachineLearning | UiUxDesign | MobileDevelopment | Cybersecurity
  {
    /** The string value of the interest, which also keys its chat history. */
    function Name(): (r: string)
      ensures r != ""
    {
      match this
      case WebDevelopment => "Web Development"
      case DataScience => "Data Science"
      case MachineLearning => "Machine Learning"
      case UiUxDesign => "UI/UX Design"
      case MobileDevelopment => "Mobile Development"
      case Cybersecurity => "Cybersecurity"
    }
  }

  datatype Level = Beginner | Intermediate | Advanced

  /** `{topic, score, total, timestamp}`; the timestamp is a value handed in. */
  datatype QuizResult = QuizResult(topic: string, score: int, total: int, timestamp: int)

  datatype RoadmapMilestone =
    RoadmapMilestone(title: string, description: string, resources: seq<string>, completed: bool)

  /** `interest ?? ""`: the key of the current domain's chat history. */
  function DomainKey(interest: Option<Interest>): (k: string)
    ensures k == "" <==> interest.None?
    ensures interest.Some? ==> k == interest.value.Name()
  {
    match interest
    case None => ""
    case Some(i) => i.Name()
  }

  /** Different interests keep different chat histories. */
  lemma DomainKeyInjective(a: Option<Interest>, b: Option<Interest>)
    ensures DomainKey(a) == DomainKey(b) <==> a == b
  {
  }

  /** `chats[key] ?? []` */
  function Lookup(chats: map<string, seq<ChatMessage>>, key: string): (r: seq<ChatMessage>)
    ensures key !in chats ==> r == []
    ensures key in chats ==> r == chats[key]
  {
    if key in chats then chats[key] else []
  }

  /** The argument of `setChatMessages`: a new history, or an updater applied
      to the current one. */
  datatype ChatAction =
    | Replace(messages: seq<ChatMessage>)
    | Update(f: seq<ChatMessage> -> seq<ChatMessage>)

  function Apply(action: ChatAction, current: seq<ChatMessage>): seq<ChatMessage> {
    match action
    case Replace(m) => m
    case Update(f) => f(current)
  }

  /** `{ ...prev, [key]: next }` where `next` is the action applied to the
      key's current history. */
  function SetChat(chats: map<string, seq<ChatMessage>>, key: string, action: ChatAction): (r: map<string, seq<ChatMessage>>)
    ensures r.Keys == chats.Keys + {key}
    ensures Lookup(r, key) == Apply(action, Lookup(chats, key))
    ensures forall k :: k in chats && k != key ==> r[k] == chats[k]
  {
    chats[key := Apply(action, Lookup(chats, key))]
  }

  /** Writing one domain's history leaves every other domain's history as
      it was, including the domains never written. */
  lemma SetChatFrame(chats: map<string, seq<ChatMessage>>, key: string, action: ChatAction, other: string)
    requires other != key
    ensures Lookup(SetChat(chats, key, action), other) == Lookup(chats, other)
  {
  }

  /** The milestones with the one at `index` flipped (`map` with `i === index`). */
  function Toggled(roadmap: seq<RoadmapMilestone>, index: int): (r: seq<RoadmapMilestone>)
    ensures |r| == |roadmap|
    ensures forall i :: 0 <= i < |r| && i != index ==> r[i] == roadmap[i]
    ensures 0 <= index < |r| ==> r[index] == roadmap[index].(completed := !roadmap[index].completed)
  {
    seq(|roadmap|, i requires 0 <= i < |roadmap| =>
      if i == index then roadmap[i].(completed := !roadmap[i].completed) else roadmap[i])
  }

  /** Toggling the same milestone twice restores the roadmap. */
  lemma ToggleTwice(roadmap: seq<RoadmapMilestone>, index: int)
    ensures Toggled(Toggled(roadmap, index), index) == roadmap
  {
    var r := Toggled(Toggled(roadmap, index), index);
    assert forall i :: 0 <= i < |r| ==> r[i] == roadmap[i];
  }

  /** An index outside the roadmap changes nothing. */
  lemma ToggleOutOfRange(roadmap: seq<RoadmapMilestone>, index: int)
    requires index < 0 || index >= |roadmap|
    ensures Toggled(roadmap, index) == roadmap
  {
    var r := Toggled(roadmap, index);
    assert forall i :: 0 <= i < |r| ==> r[i] == roadmap[i];
  }

  predicate NoDuplicates(s: seq<string>) {
    forall i, j :: 0 <= i < j < |s| ==> s[i] != s[j]
  }

  /** `prev.includes(t) ? prev : [...prev, t]` */
  function WithTopic(topics: seq<string>, t: string): (r: seq<string>)
    ensures t in r
    ensures t in topics ==> r == topics
    ensures t !in topics ==> r == topics + [t]
  {
    if t in topics then topics else topics + [t]
  }

  /** Adding a topic twice is the same as adding it once. */
  lemma WithTopicIdempotent(topics: seq<string>, t: string)
    ensures WithTopic(WithTopic(topics, t), t) == WithTopic(topics, t)
  {
  }

  /** The topic list never holds the same topic twice. */
  lemma WithTopicNoDuplicates(topics: seq<string>, t: string)
    requires NoDuplicates(topics)
    ensures NoDuplicates(WithTopic(topics, t))
  {
    if t !in topics {
      var r := topics + [t];
      forall i, j | 0 <= i < j < |r|
        ensures r[i] != r[j]
      {
        if j == |topics| {
          assert r[i] == topics[i];
        }
      }
    }
  }

  /** The topics after `WithTopic` are the earlier ones together with `t`. */
  lemma WithTopicContents(topics: seq<string>, t: string, u: string)
    ensures u in WithTopic(topics, t) <==> u in topics || u == t
  {
  }

  /** The provider: one field per state cell and one method per updater. */
  class MentorProvider {
    var interest: Option<Interest>
    var level: Option<Level>
    var chatsByDomain: map<string, seq<ChatMessage>>
    var quizResults: seq<QuizResult>
    var roadmap: seq<RoadmapMilestone>
    var topicsExplored: seq<string>

    /** The state the provider keeps: no topic is listed twice. */
    ghost predicate Valid()
      reads this
    {
      NoDuplicates(topicsExplored)
    }

    constructor()
      ensures Valid()
      ensures interest == None && level == None
      ensures chatsByDomain == map[] && quizResults == [] && roadmap == [] && topicsExplored == []
    {
      interest, level := None, None;
      chatsByDomain, quizResults, roadmap, topicsExplored := map[], [], [], [];
    }

    /** `chatsByDomain[domainKey] ?? []` */
    function ChatMessages(): (r: seq<ChatMessage>)
      reads this
      ensures DomainKey(interest) !in chatsByDomain ==> r == []
      ensures DomainKey(interest) in chatsByDomain ==> r == chatsByDomain[DomainKey(interest)]
    {
      Lookup(chatsByDomain, DomainKey(interest))
    }

    method SetInterest(i: Interest)
      modifies this
      ensures interest == Some(i)
      ensures level == old(level) && chatsByDomain == old(chatsByDomain) && quizResults == old(quizResults)
      ensures roadmap == old(roadmap) && topicsExplored == old(topicsExplored)
    {
      interest := Some(i);
    }

    method SetLevel(l: Level)
      modifies this
      ensures level == Some(l)
      ensures interest == old(interest) && chatsByDomain == old(chatsByDomain) && quizResults == old(quizResults)
      ensures roadmap == old(roadmap) && topicsExplored == old(topicsExplored)
    {
      level := Some(l);
    }

    /** `setChatMessages`: writes the current domain's history only. */
    method SetChatMessages(action: ChatAction)
      modifies this
      ensures chatsByDomain == SetChat(old(chatsByDomain), DomainKey(interest), action)
      ensures ChatMessages() == Apply(action, old(ChatMessages()))
      ensures forall k :: k != DomainKey(interest) ==> Lookup(chatsByDomain, k) == Lookup(old(chatsByDomain), k)
      ensures interest == old(interest) && level == old(level) && quizResults == old(quizResults)
      ensures roadmap == old(roadmap) && topicsExplored == old(topicsExplored)
    {
      chatsByDomain := SetChat(chatsByDomain, DomainKey(interest), action);
    }

    /** `addQuizResult`: appends; earlier results stay as they were. */
    method AddQuizResult(r: QuizResult)
      modifies this
      ensures quizResults == old(quizResults) + [r]
      ensures interest == old(interest) && level == old(level) && chatsByDomain == old(chatsByDomain)
      ensures roadmap == old(roadmap) && topicsExplored == old(topicsExplored)
    {
      quizResults := quizResults + [r];
    }

    method SetRoadmap(r: seq<RoadmapMilestone>)
      modifies this
      ensures roadmap == r
      ensures interest == old(interest) && level == old(level) && chatsByDomain == old(chatsByDomain)
      ensures quizResults == old(quizResults) && topicsExplored == old(topicsExplored)
    {
      roadmap := r;
    }

    /** `toggleMilestone(index)` */
    method ToggleMilestone(index: int)
      modifies this
      ensures roadmap == Toggled(old(roadmap), index)
      ensures interest == old(interest) && level == old(level) && chatsByDomain == old(chatsByDomain)
      ensures quizResults == old(quizResults) && topicsExplored == old(topicsExplored)
    {
      roadmap := Toggled(roadmap, index);
    }

    /** `addTopic(t)`: keeps the list free of duplicates. */
    method AddTopic(t: string)
      requires Valid()
      modifies this
      ensures Valid()
      ensures topicsExplored == WithTopic(old(topicsExplored), t)
      ensures interest == old(interest) && level == old(level) && chatsByDomain == old(chatsByDomain)
      ensures quizResults == old(quizResults) && roadmap == old(roadmap)
    {
      WithTopicNoDuplicates(topicsExplored, t);
      topicsExplored := WithTopic(topicsExplored, t);
    }
  }
}
