/**
 * The chat turn of the Python AI service (services/ai_service.py): loading a
 * user's context, choosing the conversation stage, assembling the messages
 * sent to the chat-completion API, appending knowledge-base answers, the
 * fallback replies, and the two rows the turn writes to the message log.
 * Prompt wording is content, not behaviour: each system prompt is a
 * constructor carrying the values the source interpolates into it.
 */
module AiService {
  import opened Wrappers
  import opened Text

  // ===================== stored data =====================

  /** A row of the `messages` table, in insertion order. */
  datatype StoredMessage = StoredMessage(userId: string, role: string, content: string)

  /** A row as `get_user_messages` returns it (role and content). */
  datatype HistoryEntry = HistoryEntry(role: string, content: string)

  /** The columns of a `users` row the service reads. */
  datatype UserRow = UserRow(name: string, goal: string, source: string)

  datatype UserContext = UserContext(name: string, goal: string, source: string, history: seq<HistoryEntry>)

  /** The most recent messages `get_user_messages` returns at most. */
  const HistoryLimit: nat := 50

  /** The rows of one user, oldest first. */
  function UserRows(log: seq<StoredMessage>, userId: string): (rows: seq<HistoryEntry>)
    ensures |rows| <= |log|
  {
    if |log| == 0 then []
    else
      var last := log[|log| - 1];
      UserRows(log[..|log| - 1], userId) + (if last.userId == userId then [HistoryEntry(last.role, last.content)] else [])
  }

  /** The last `n` elements, or all of them when there are fewer (Python's `s[-n:]` for n > 0). */
  function LastN<T>(s: seq<T>, n: nat): (r: seq<T>)
    ensures |r| == if |s| <= n then |s| else n
    ensures r == s[|s| - |r|..]
  {
    if |s| <= n then s else s[|s| - n..]
  }

  /** `get_user_messages`: the newest fifty rows of the user, returned oldest first. */
  function UserHistory(log: seq<StoredMessage>, userId: string): seq<HistoryEntry> {
    LastN(UserRows(log, userId), HistoryLimit)
  }

  const DefaultContext := UserContext("Friend", "your fitness goals", "website", [])

  /** `get_user_context`. */
  function GetUserContext(users: map<string, UserRow>, log: seq<StoredMessage>, userId: string): (c: UserContext)
    ensures userId !in users ==> c == DefaultContext
    ensures userId in users ==>
      c.name == users[userId].name && c.goal == users[userId].goal && c.source == users[userId].source
      && c.history == UserHistory(log, userId)
  {
    if userId !in users then DefaultContext
    else
      var user := users[userId];
      UserContext(user.name, user.goal, user.source, UserHistory(log, userId))
  }

  /** Appending one message appends its row when it is the user's. */
  lemma UserRowsSnoc(log: seq<StoredMessage>, m: StoredMessage, userId: string)
    ensures UserRows(log + [m], userId) == UserRows(log, userId) + UserRows([m], userId)
  {
    assert (log + [m])[..|log|] == log;
    assert [m][..0] == [];
  }

  lemma {:induction false} UserRowsAppend(log: seq<StoredMessage>, more: seq<StoredMessage>, userId: string)
    ensures UserRows(log + more, userId) == UserRows(log, userId) + UserRows(more, userId)
    decreases |more|
  {
    if |more| == 0 {
      assert log + more == log;
    } else {
      var init := more[..|more| - 1];
      var m := more[|more| - 1];
      LastSplit(log, more);
      UserRowsAppend(log, init, userId);
      UserRowsSnoc(log + init, m, userId);
      UserRowsSnoc(init, m, userId);
      AppendAssoc(UserRows(log, userId), UserRows(init, userId), UserRows([m], userId));
    }
  }

  /**
   * The history is the user's own messages and nothing else: in order,
   * exactly the newest fifty of them, and all of them while there are at
   * most fifty.
   */
  lemma HistoryIsNewestOwnMessages(users: map<string, UserRow>, log: seq<StoredMessage>, userId: string)
    requires userId in users
    ensures var rows := UserRows(log, userId);
      var h := GetUserContext(users, log, userId).history;
      && |h| == (if |rows| <= HistoryLimit then |rows| else HistoryLimit)
      && h == rows[|rows| - |h|..]
      && (|rows| <= HistoryLimit ==> h == rows)
  {
  }

  /** A visitor without a `users` row starts from the defaults, whatever the log holds. */
  lemma UnknownUserStartsFresh(users: map<string, UserRow>, log: seq<StoredMessage>, userId: string)
    requires userId !in users
    ensures GetUserContext(users, log, userId).history == []
    ensures GetUserContext(users, log, userId).name == "Friend"
  {
  }

  // ===================== conversation stage =====================

  const SubscriptionKeywords: seq<string> := [
    "subscribe", "sign up", "join", "purchase", "buy", "pay", "membership",
    "what do i do", "next step", "how do i", "ready to"
  ]

  /** Whether any subscription keyword is in the lower-cased input. */
  predicate IsSubscriptionRequest(userInput: string) {
    ContainsAny(ToLower(userInput), SubscriptionKeywords)
  }

  function CountRole(history: seq<HistoryEntry>, role: string): (n: nat)
    ensures n <= |history|
  {
    if |history| == 0 then 0
    else CountRole(history[..|history| - 1], role) + (if history[|history| - 1].role == role then 1 else 0)
  }

  /** The user's earlier messages in the history, plus one for the current message. */
  function MessageCount(history: seq<HistoryEntry>): (n: nat)
    ensures 1 <= n <= |history| + 1
  {
    CountRole(history, "user") + 1
  }

  /** With at most fifty history rows the stage number runs from 1 to 51. */
  lemma MessageCountBounds(users: map<string, UserRow>, log: seq<StoredMessage>, userId: string)
    ensures 1 <= MessageCount(GetUserContext(users, log, userId).history) <= HistoryLimit + 1
  {
  }

  /** The four system prompts, each with the values interpolated into it. */
  datatype SystemPrompt =
    | SubscriptionPrompt(name: string)
    | FirstResponsePrompt(name: string, goal: string, userInput: string)
    | MembershipPitchPrompt(name: string, goal: string)
    | SalesProtectionPrompt(name: string, goal: string)

  /** A message body: a system prompt followed by appended text, or plain text. */
  datatype Content = Prompt(prompt: SystemPrompt, appended: string) | Plain(text: string)

  datatype ChatMessage = ChatMessage(role: string, content: Content)

  /** The number of history rows replayed from the third stage on. */
  const ReplayedHistory: nat := 10

  function HistoryMessages(history: seq<HistoryEntry>): (m: seq<ChatMessage>)
    ensures |m| == |history|
    ensures forall i :: 0 <= i < |history| ==> m[i] == ChatMessage(history[i].role, Plain(history[i].content))
  {
    seq(|history|, i requires 0 <= i < |history| => ChatMessage(history[i].role, Plain(history[i].content)))
  }

  /** `_build_conversation_messages` as a value. */
  function ConversationMessages(userInput: string, context: UserContext, messageCount: int): (m: seq<ChatMessage>)
    ensures |m| >= 2
  {
    var user := ChatMessage("user", Plain(userInput));
    if IsSubscriptionRequest(userInput) then
      [ChatMessage("system", Prompt(SubscriptionPrompt(context.name), "")), user]
    else if messageCount == 1 then
      [ChatMessage("system", Prompt(FirstResponsePrompt(context.name, context.goal, userInput), "")), user]
    else if messageCount == 2 then
      [ChatMessage("system", Prompt(MembershipPitchPrompt(context.name, context.goal), "")), user]
    else
      [ChatMessage("system", Prompt(SalesProtectionPrompt(context.name, context.goal), ""))]
      + HistoryMessages(LastN(context.history, ReplayedHistory)) + [user]
  }

  /** `_build_conversation_messages`, replaying the history with a loop as the source does. */
  method BuildConversationMessages(userInput: string, context: UserContext, messageCount: int)
    returns (messages: seq<ChatMessage>)
    ensures messages == ConversationMessages(userInput, context, messageCount)
  {
    var name, goal := context.name, context.goal;
    if IsSubscriptionRequest(userInput) {
      return [ChatMessage("system", Prompt(SubscriptionPrompt(name), "")), ChatMessage("user", Plain(userInput))];
    }
    if messageCount == 1 {
      return [ChatMessage("system", Prompt(FirstResponsePrompt(name, goal, userInput), "")), ChatMessage("user", Plain(userInput))];
    } else if messageCount == 2 {
      return [ChatMessage("system", Prompt(MembershipPitchPrompt(name, goal), "")), ChatMessage("user", Plain(userInput))];
    }
    messages := [ChatMessage("system", Prompt(SalesProtectionPrompt(name, goal), ""))];
    var recent := LastN(context.history, ReplayedHistory);
    var i := 0;
    while i < |recent|
      invariant 0 <= i <= |recent|
      invariant messages == [ChatMessage("system", Prompt(SalesProtectionPrompt(name, goal), ""))] + HistoryMessages(recent[..i])
    {
      var msg := recent[i];
      messages := messages + [ChatMessage(msg.role, Plain(msg.content))];
      assert recent[..i + 1] == recent[..i] + [msg];
      i := i + 1;
    }
    assert recent[..i] == recent;
    messages := messages + [ChatMessage("user", Plain(userInput))];
  }

  /**
   * Every message list opens with the system prompt and closes with the
   * user's input; the prompts carry no appended text yet.
   */
  lemma ConversationShape(userInput: string, context: UserContext, messageCount: int)
    ensures var m := ConversationMessages(userInput, context, messageCount);
      && m[0].role == "system" && m[0].content.Prompt? && m[0].content.appended == ""
      && m[|m| - 1] == ChatMessage("user", Plain(userInput))
      && forall i :: 1 <= i < |m| ==> m[i].content.Plain?
  {
  }

  /**
   * A subscription question overrides the stage: the subscription prompt is
   * used whatever the message count, and the history is not replayed.
   */
  lemma SubscriptionOverridesStage(userInput: string, context: UserContext, c1: int, c2: int)
    requires IsSubscriptionRequest(userInput)
    ensures ConversationMessages(userInput, context, c1) == ConversationMessages(userInput, context, c2)
    ensures ConversationMessages(userInput, context, c1)[0].content.prompt == SubscriptionPrompt(context.name)
    ensures |ConversationMessages(userInput, context, c1)| == 2
  {
  }

  /**
   * Outside a subscription question, the first message gets the
   * first-response prompt, the second the membership pitch, and from the
   * third on the sales-protection prompt with the newest ten history rows
   * replayed, in order, between the prompt and the input.
   */
  lemma StageDispatch(userInput: string, context: UserContext, messageCount: int)
    requires !IsSubscriptionRequest(userInput) && messageCount >= 1
    ensures var m := ConversationMessages(userInput, context, messageCount);
      && (messageCount == 1 <==> m[0].content.prompt.FirstResponsePrompt?)
      && (messageCount == 2 <==> m[0].content.prompt.MembershipPitchPrompt?)
      && (messageCount >= 3 <==> m[0].content.prompt.SalesProtectionPrompt?)
      && (messageCount <= 2 ==> |m| == 2)
      && (messageCount >= 3 ==>
            && |m| == 2 + (if |context.history| <= ReplayedHistory then |context.history| else ReplayedHistory)
            && m[1..|m| - 1] == HistoryMessages(LastN(context.history, ReplayedHistory)))
  {
    var m := ConversationMessages(userInput, context, messageCount);
    if messageCount >= 3 {
      var replay := HistoryMessages(LastN(context.history, ReplayedHistory));
      assert m[1..|m| - 1] == replay;
    }
  }

  /**
   * A visitor without a `users` row is always at the first stage: their
   * earlier messages are stored but never read back.
   */
  lemma UnknownUserAlwaysFirstStage(users: map<string, UserRow>, log: seq<StoredMessage>, userId: string, userInput: string)
    requires userId !in users && !IsSubscriptionRequest(userInput)
    ensures var c := GetUserContext(users, log, userId);
      ConversationMessages(userInput, c, MessageCount(c.history))[0].content.prompt
        == FirstResponsePrompt("Friend", "your fitness goals", userInput)
  {
  }

  // ===================== knowledge =====================

  datatype KnowledgeItem = KnowledgeItem(question: string, answer: string)

  /** The knowledge-base answers used at most. */
  const KnowledgeLimit: nat := 3

  const KnowledgeHeader := "\n\nRELEVANT KNOWLEDGE:\n"

  function KnowledgeEntry(item: KnowledgeItem): string {
    "Q: " + item.question + "\nA: " + item.answer + "\n\n"
  }

  /** The entries of `items` one after another. */
  function KnowledgeText(items: seq<KnowledgeItem>): string {
    if |items| == 0 then "" else KnowledgeText(items[..|items| - 1]) + KnowledgeEntry(items[|items| - 1])
  }

  function Take<T>(s: seq<T>, n: nat): (r: seq<T>)
    ensures |r| == if |s| <= n then |s| else n
    ensures r == s[..|r|]
  {
    if |s| <= n then s else s[..n]
  }

  /** `_format_knowledge`. */
  method FormatKnowledge(items: seq<KnowledgeItem>) returns (formatted: string)
    ensures formatted == KnowledgeText(Take(items, KnowledgeLimit))
  {
    formatted := "";
    var top := Take(items, KnowledgeLimit);
    var i := 0;
    while i < |top|
      invariant 0 <= i <= |top|
      invariant formatted == KnowledgeText(top[..i])
    {
      formatted := formatted + KnowledgeEntry(top[i]);
      assert top[..i + 1][..i] == top[..i];
      i := i + 1;
    }
    assert top[..i] == top;
  }

  /** Appending one item appends its entry. */
  lemma KnowledgeTextSnoc(items: seq<KnowledgeItem>, item: KnowledgeItem)
    ensures KnowledgeText(items + [item]) == KnowledgeText(items) + KnowledgeEntry(item)
  {
    assert (items + [item])[..|items|] == items;
  }

  lemma AppendAssoc<T>(x: seq<T>, y: seq<T>, z: seq<T>)
    ensures (x + y) + z == x + (y + z)
  {
  }

  lemma LastSplit<T>(a: seq<T>, b: seq<T>)
    requires |b| > 0
    ensures b == b[..|b| - 1] + [b[|b| - 1]]
    ensures a + b == (a + b[..|b| - 1]) + [b[|b| - 1]]
  {
    assert b == b[..|b| - 1] + [b[|b| - 1]];
  }

  lemma {:induction false} KnowledgeTextConcat(a: seq<KnowledgeItem>, b: seq<KnowledgeItem>)
    ensures KnowledgeText(a + b) == KnowledgeText(a) + KnowledgeText(b)
    decreases |b|
  {
    if |b| == 0 {
      assert a + b == a;
    } else {
      var init := b[..|b| - 1];
      var item := b[|b| - 1];
      LastSplit(a, b);
      KnowledgeTextConcat(a, init);
      KnowledgeTextSnoc(a + init, item);
      KnowledgeTextSnoc(init, item);
      AppendAssoc(KnowledgeText(a), KnowledgeText(init), KnowledgeEntry(item));
    }
  }

  lemma SplitAround<T>(s: seq<T>, k: nat)
    requires k < |s|
    ensures s == s[..k] + [s[k]] + s[k + 1..]
  {
    assert s == s[..k + 1] + s[k + 1..];
    assert s[..k + 1] == s[..k] + [s[k]];
  }

  /** Every item's own entry appears in the text of a list that holds it. */
  lemma EntryInKnowledgeText(items: seq<KnowledgeItem>, k: nat)
    requires k < |items|
    ensures Contains(KnowledgeText(items), KnowledgeEntry(items[k]))
  {
    var before := items[..k];
    var after := items[k + 1..];
    SplitAround(items, k);
    KnowledgeTextConcat(before + [items[k]], after);
    KnowledgeTextSnoc(before, items[k]);
    ContainsMiddle(KnowledgeText(before), KnowledgeEntry(items[k]), KnowledgeText(after));
  }

  /**
   * Each of the first three items appears, as its own "Q: … A: …" entry, in
   * the formatted text; items after the third do not change it.
   */
  lemma FormattedKnowledgeHoldsTopThree(items: seq<KnowledgeItem>, k: nat, more: seq<KnowledgeItem>)
    requires k < |items| && k < KnowledgeLimit
    ensures Contains(KnowledgeText(Take(items, KnowledgeLimit)), KnowledgeEntry(items[k]))
    ensures |items| >= KnowledgeLimit ==>
      KnowledgeText(Take(items + more, KnowledgeLimit)) == KnowledgeText(Take(items, KnowledgeLimit))
  {
    var top := Take(items, KnowledgeLimit);
    assert top[k] == items[k];
    EntryInKnowledgeText(top, k);
    if |items| >= KnowledgeLimit {
      assert Take(items + more, KnowledgeLimit) == top;
    }
  }

  /** `content += text` on a message body. */
  function AppendToContent(c: Content, text: string): Content {
    match c
    case Prompt(p, appended) => Prompt(p, appended + text)
    case Plain(t) => Plain(t + text)
  }

  /** The messages after the knowledge search: with results, the system message gains the formatted answers. */
  function WithKnowledge(messages: seq<ChatMessage>, knowledge: seq<KnowledgeItem>): (m: seq<ChatMessage>)
    requires |messages| >= 1
    ensures |m| == |messages|
  {
    if |knowledge| == 0 then messages
    else
      var first := messages[0];
      messages[0 := ChatMessage(first.role, AppendToContent(first.content, KnowledgeHeader + KnowledgeText(Take(knowledge, KnowledgeLimit))))]
  }

  /**
   * Knowledge touches nothing but the system message, and there it only
   * appends: the prompt itself and every other message are unchanged.
   */
  lemma KnowledgeOnlyExtendsSystemPrompt(userInput: string, context: UserContext, messageCount: int, knowledge: seq<KnowledgeItem>)
    ensures var m := ConversationMessages(userInput, context, messageCount);
      var k := WithKnowledge(m, knowledge);
      && k[1..] == m[1..]
      && k[0].role == "system" && k[0].content.Prompt? && k[0].content.prompt == m[0].content.prompt
      && (|knowledge| == 0 ==> k[0].content.appended == "")
      && (|knowledge| > 0 ==> k[0].content.appended == KnowledgeHeader + KnowledgeText(Take(knowledge, KnowledgeLimit)))
  {
    ConversationShape(userInput, context, messageCount);
  }

  // ===================== replies =====================

  const MissingKeyReply := "Error: GROQ_API_KEY not configured"
  const ErrorReply := "Sorry, there was a problem generating a response. Please try again."
  const ConnectionReply := "Sorry, I'm having trouble connecting right now. Please try again!"

  /** What follows the user's name in the subscription fallback. */
  const JoinInvitation := "! To become a Willpower Fitness member, simply click the BUY NOW button that says '$225/MONTH + FREE T-SHIRT' on this page. Once you complete your purchase, you'll have 24/7 access to me as your personal AI trainer!"

  /** The reply when the API answers with a status other than 200. */
  function FallbackReply(userInput: string, name: string): string {
    if IsSubscriptionRequest(userInput) then
      "Great " + name + JoinInvitation
    else ConnectionReply
  }

  /** The subscription fallback greets the user by name; the other is fixed. */
  lemma FallbackReplyMentionsName(userInput: string, name: string)
    ensures IsSubscriptionRequest(userInput) ==> Contains(FallbackReply(userInput, name), name)
    ensures !IsSubscriptionRequest(userInput) ==> FallbackReply(userInput, name) == ConnectionReply
  {
    if IsSubscriptionRequest(userInput) {
      var r := FallbackReply(userInput, name);
      assert r == "Great " + name + JoinInvitation;
      assert OccursAt(r, 6, name) by {
        assert r[6..6 + |name|] == name;
      }
    }
  }

  // ===================== one turn =====================

  /**
   * What the chat-completion call produced: an HTTP status and, for 200,
   * the reply text at `choices[0].message.content`; or an exception (no
   * connection, or a body without that path).
   */
  datatype ApiOutcome = Responded(status: int, reply: string) | Raised

  /** The reply, the message log afterwards, and the messages sent to the API (None when none were sent). */
  datatype TurnResult = TurnResult(reply: string, log: seq<StoredMessage>, request: Option<seq<ChatMessage>>)

  /** The messages `generate_response` sends for this input, context and knowledge. */
  function RequestMessages(userInput: string, context: UserContext, knowledge: seq<KnowledgeItem>): seq<ChatMessage> {
    WithKnowledge(ConversationMessages(userInput, context, MessageCount(context.history)), knowledge)
  }

  /** `generate_response` as a value: the knowledge search result and the API outcome are inputs. */
  function Turn(apiKey: Option<string>, users: map<string, UserRow>, log: seq<StoredMessage>,
                userInput: string, userId: string, knowledge: seq<KnowledgeItem>, api: ApiOutcome): (t: TurnResult)
    ensures !Truthy(apiKey) ==> t == TurnResult(MissingKeyReply, log, None)
    ensures Truthy(apiKey) ==> |t.log| >= |log| + 1 && t.log[..|log|] == log
    ensures Truthy(apiKey) ==> t.request == Some(RequestMessages(userInput, GetUserContext(users, log, userId), knowledge))
  {
    if !Truthy(apiKey) then TurnResult(MissingKeyReply, log, None)
    else
      var context := GetUserContext(users, log, userId);
      var logged := log + [StoredMessage(userId, "user", userInput)];
      var request := RequestMessages(userInput, context, knowledge);
      match api
      case Raised => TurnResult(ErrorReply, logged, Some(request))
      case Responded(status, body) =>
        var reply := if status == 200 then body else FallbackReply(userInput, context.name);
        TurnResult(reply, logged + [StoredMessage(userId, "assistant", reply)], Some(request))
  }

  /**
   * A turn with a key sends the messages built from the context read
   * before anything is written, so the history never holds the current
   * input; it stores the user's message first, then, unless the call
   * raised, the reply it returns; nothing else is written and earlier rows
   * are kept. A status other than 200 still stores the fallback reply.
   */
  lemma TurnWrites(apiKey: Option<string>, users: map<string, UserRow>, log: seq<StoredMessage>,
                   userInput: string, userId: string, knowledge: seq<KnowledgeItem>, api: ApiOutcome)
    requires Truthy(apiKey)
    ensures var t := Turn(apiKey, users, log, userInput, userId, knowledge, api);
      && t.request == Some(RequestMessages(userInput, GetUserContext(users, log, userId), knowledge))
      && (api.Raised? ==> t.log == log + [StoredMessage(userId, "user", userInput)] && t.reply == ErrorReply)
      && (api.Responded? ==> t.log == log + [StoredMessage(userId, "user", userInput), StoredMessage(userId, "assistant", t.reply)])
      && (api.Responded? && api.status == 200 ==> t.reply == api.reply)
      && (api.Responded? && api.status != 200 ==>
            t.reply == FallbackReply(userInput, GetUserContext(users, log, userId).name))
  {
  }

  /**
   * The stage is counted from the history read before the user's message is
   * stored: for a registered user whose log holds at most 48 of their rows,
   * a turn the API answered moves the next turn's count up by exactly one.
   */
  lemma CountAdvancesAfterTurn(apiKey: Option<string>, users: map<string, UserRow>, log: seq<StoredMessage>,
                               userInput: string, userId: string, knowledge: seq<KnowledgeItem>, api: ApiOutcome)
    requires Truthy(apiKey) && api.Responded? && userId in users
    requires |UserRows(log, userId)| <= HistoryLimit - 2
    ensures var t := Turn(apiKey, users, log, userInput, userId, knowledge, api);
      MessageCount(GetUserContext(users, t.log, userId).history)
        == MessageCount(GetUserContext(users, log, userId).history) + 1
  {
    var t := Turn(apiKey, users, log, userInput, userId, knowledge, api);
    TurnWrites(apiKey, users, log, userInput, userId, knowledge, api);
    CountAdvancesAfterRows(users, log, userId, userInput, t.reply);
  }

  /** The user row and assistant row of one turn add one user message to the count. */
  lemma CountAdvancesAfterRows(users: map<string, UserRow>, log: seq<StoredMessage>,
                               userId: string, userInput: string, reply: string)
    requires userId in users
    requires |UserRows(log, userId)| <= HistoryLimit - 2
    ensures var after := log + [StoredMessage(userId, "user", userInput), StoredMessage(userId, "assistant", reply)];
      MessageCount(GetUserContext(users, after, userId).history)
        == MessageCount(GetUserContext(users, log, userId).history) + 1
  {
    var written := [StoredMessage(userId, "user", userInput), StoredMessage(userId, "assistant", reply)];
    var rows := UserRows(log, userId);
    var after := rows + [HistoryEntry("user", userInput), HistoryEntry("assistant", reply)];
    UserRowsAppend(log, written, userId);
    TurnRows(userId, userInput, reply);
    TurnCountsOneUserMessage(rows, userInput, reply);
    assert UserRows(log + written, userId) == after;
    assert UserHistory(log + written, userId) == after;
    assert UserHistory(log, userId) == rows;
  }

  /** The two rows a turn writes are both the user's. */
  lemma TurnRows(userId: string, userInput: string, reply: string)
    ensures UserRows([StoredMessage(userId, "user", userInput), StoredMessage(userId, "assistant", reply)], userId)
      == [HistoryEntry("user", userInput), HistoryEntry("assistant", reply)]
  {
    var written := [StoredMessage(userId, "user", userInput), StoredMessage(userId, "assistant", reply)];
    assert written[..1] == [StoredMessage(userId, "user", userInput)];
    assert written[..1][..0] == [];
  }

  /** A user row then an assistant row add one user message to the count. */
  lemma TurnCountsOneUserMessage(rows: seq<HistoryEntry>, userInput: string, reply: string)
    ensures CountRole(rows + [HistoryEntry("user", userInput), HistoryEntry("assistant", reply)], "user")
      == CountRole(rows, "user") + 1
  {
    var user := HistoryEntry("user", userInput);
    var after := rows + [user, HistoryEntry("assistant", reply)];
    assert after[..|after| - 1] == rows + [user];
    assert (rows + [user])[..|rows|] == rows;
  }

  /** The service: the API key and the two tables the turn reads and writes. */
  class AIService {
    var apiKey: Option<string>
    var users: map<string, UserRow>
    var log: seq<StoredMessage>

    constructor(apiKey: Option<string>, users: map<string, UserRow>, log: seq<StoredMessage>)
      ensures this.apiKey == apiKey && this.users == users && this.log == log
    {
      this.apiKey := apiKey;
      this.users := users;
      this.log := log;
    }

    /** `get_user_context` against the current tables. */
    function UserContextOf(userId: string): (c: UserContext)
      reads this
      ensures userId !in users ==> c == DefaultContext
      ensures userId in users ==>
        c == UserContext(users[userId].name, users[userId].goal, users[userId].source, UserHistory(log, userId))
    {
      GetUserContext(users, log, userId)
    }

    /**
     * `generate_response`: `knowledge` is what `search_knowledge` found for
     * the input and `api` what the chat-completion call did; `request` is
     * the message list sent, None when the key is missing.
     */
    method GenerateResponse(userInput: string, userId: string, knowledge: seq<KnowledgeItem>, api: ApiOutcome)
      returns (reply: string, request: Option<seq<ChatMessage>>)
      modifies this
      ensures apiKey == old(apiKey) && users == old(users)
      ensures TurnResult(reply, log, request) == Turn(old(apiKey), old(users), old(log), userInput, userId, knowledge, api)
    {
      if !Truthy(apiKey) {
        return MissingKeyReply, None;
      }
      var context := UserContextOf(userId);
      log := log + [StoredMessage(userId, "user", userInput)];
      var messageCount := MessageCount(context.history);
      var messages := BuildConversationMessages(userInput, context, messageCount);
      if |knowledge| > 0 {
        var knowledgeContext := FormatKnowledge(knowledge);
        messages := messages[0 := ChatMessage(messages[0].role, AppendToContent(messages[0].content, KnowledgeHeader + knowledgeContext))];
      }
      request := Some(messages);
      match api
      case Raised =>
        reply := ErrorReply;
      case Responded(status, body) =>
        if status == 200 {
          reply := body;
        } else {
          reply := FallbackReply(userInput, context.name);
        }
        log := log + [StoredMessage(userId, "assistant", reply)];
    }
  }
}
