/** The chat endpoint (`POST /api/chat`): validates the request, fills in default settings,
    picks the completion provider, renders the user's memories into the system prompt and
    assembles the ordered message list handed to the provider. The provider call itself and
    the streamed body it produces are foreign; the handler's result is the selection and the
    message list it would pass on. */
module ChatRoute {
  import opened Wrappers
  import opened Seqs
  import opened Text
  import opened ChatTypes

  /** The parsed JSON body. `message` is `None` when absent or `null`; absent lists are
      empty lists, which the handler treats identically. */
  datatype ChatRequest = ChatRequest(
    message: Option<string>,
    settings: Option<Settings>,
    conversationHistory: seq<Message>,
    userMemories: seq<MemoryItem>,
    userId: Option<string>)

  datatype Provider = Groq | Xai

  datatype ProviderSelection = ProviderSelection(provider: Provider, modelName: string, apiKeyVariable: string)

  datatype ContextRole = SystemRole | UserRole | AssistantRole

  datatype ContextMessage = ContextMessage(role: ContextRole, content: string)

  datatype Response =
    | TextResponse(status: nat, body: string)
    | StreamResponse(selection: ProviderSelection, messages: seq<ContextMessage>, temperature: real, maxTokens: int)

  const MessageRequired := "Message is required"
  const GenerationFailed := "Failed to generate response"

  // ---------------------------------------------------------------------------
  // Request defaults and model routing

  /** JavaScript truthiness of the `message` field. */
  predicate HasMessage(req: ChatRequest) {
    req.message.Some? && req.message.value != ""
  }

  /** `settings || defaults`. */
  function EffectiveSettings(req: ChatRequest): (s: Settings)
    ensures req.settings.None? ==> s.model == "grok" && s.temperature == 0.7 && s.maxTokens == 2048
                                   && s.systemPrompt == DefaultSystemPrompt && s.theme == Auto
    ensures req.settings.Some? ==> s == req.settings.value
  {
    req.settings.GetOr(DefaultSettings)
  }

  /** "groq" selects Groq's hosted Llama model; every other identifier, including ones the
      client never writes, falls back to xAI's Grok rather than failing. */
  function SelectProvider(model: string): (r: ProviderSelection)
    ensures r.provider == Groq <==> model == "groq"
    ensures r.provider == Groq ==> r.modelName == "llama-3.1-70b-versatile" && r.apiKeyVariable == "GROQ_API_KEY"
    ensures r.provider == Xai ==> r.modelName == "grok-4" && r.apiKeyVariable == "XAI_API_KEY"
  {
    if model == "groq" then ProviderSelection(Groq, "llama-3.1-70b-versatile", "GROQ_API_KEY")
    else ProviderSelection(Xai, "grok-4", "XAI_API_KEY")
  }

  // ---------------------------------------------------------------------------
  // Memory block

  /** The comparator's weights: high 3, medium 2, low 1. */
  function Rank(i: Importance): nat {
    match i
    case High => 3
    case Medium => 2
    case Low => 1
  }

  predicate IsHigh(m: MemoryItem) { m.importance == High }
  predicate IsMedium(m: MemoryItem) { m.importance == Medium }
  predicate IsLow(m: MemoryItem) { m.importance == Low }

  /** The filter step: only high and medium memories are considered. */
  predicate IsSelectable(m: MemoryItem) { m.importance == High || m.importance == Medium }

  /** Inserts `x` behind every element ranked at least as high: one step of a stable sort
      by descending rank. */
  function InsertByRank(x: MemoryItem, sorted: seq<MemoryItem>): seq<MemoryItem> {
    if sorted == [] then [x]
    else if Rank(sorted[0].importance) >= Rank(x.importance) then [sorted[0]] + InsertByRank(x, sorted[1..])
    else [x] + sorted
  }

  /** `sort((a, b) => rank(b) - rank(a))`. Since ECMAScript 2019 `Array.prototype.sort` is
      stable, so every conforming engine gives the result of this stable insertion sort. */
  function SortByImportance(s: seq<MemoryItem>): seq<MemoryItem> {
    if s == [] then [] else InsertByRank(s[|s| - 1], SortByImportance(s[..|s| - 1]))
  }

  /** The memories that make it into the prompt: filtered, sorted, the first ten. */
  function SelectedMemories(mems: seq<MemoryItem>): seq<MemoryItem> {
    Take(SortByImportance(Filter(IsSelectable, mems)), 10)
  }

  /** One line of the block: `TYPE: title - content`. */
  function MemoryLine(m: MemoryItem): string {
    ToUpper(KindName(m.kind)) + ": " + m.title + " - " + m.content
  }

  /** The selected memories rendered one per line. */
  function MemoryContext(mems: seq<MemoryItem>): string {
    Join(Map(MemoryLine, SelectedMemories(mems)), "\n")
  }

  const MemoryPreambleHead := "\n\nIMPORTANT USER CONTEXT:\nRemember these key details about the user:\n"
  const MemoryPreambleTail := "\n\nUse this information to provide more personalized and relevant responses. Reference these details naturally when appropriate."

  /** The system prompt with the memory preamble appended whenever any memory was sent. */
  function EnhancedSystemPrompt(prompt: string, mems: seq<MemoryItem>): string {
    if |mems| > 0 then prompt + MemoryPreambleHead + MemoryContext(mems) + MemoryPreambleTail
    else prompt
  }

  lemma {:induction false} InsertBetween(x: MemoryItem, a: seq<MemoryItem>, b: seq<MemoryItem>)
    requires forall i :: 0 <= i < |a| ==> Rank(a[i].importance) >= Rank(x.importance)
    requires forall i :: 0 <= i < |b| ==> Rank(b[i].importance) < Rank(x.importance)
    ensures InsertByRank(x, a + b) == a + [x] + b
  {
    if a == [] {
      assert a + b == b;
    } else {
      assert (a + b)[1..] == a[1..] + b;
      InsertBetween(x, a[1..], b);
    }
  }

  /** The sort puts high before medium before low and keeps input order within a rank. */
  lemma {:induction false} SortIsStablePartition(s: seq<MemoryItem>)
    ensures SortByImportance(s) == Filter(IsHigh, s) + Filter(IsMedium, s) + Filter(IsLow, s)
  {
    if s != [] {
      var p, x := s[..|s| - 1], s[|s| - 1];
      assert s == p + [x];
      SortIsStablePartition(p);
      assert SortByImportance(s) == InsertByRank(x, SortByImportance(p));
      InsertIntoPartition(p, x);
    }
  }

  /** Every element of a rank's filter has that rank. */
  lemma {:induction false} FilterRanks(s: seq<MemoryItem>)
    ensures forall i :: 0 <= i < |Filter(IsHigh, s)| ==> Filter(IsHigh, s)[i].importance == High
    ensures forall i :: 0 <= i < |Filter(IsMedium, s)| ==> Filter(IsMedium, s)[i].importance == Medium
    ensures forall i :: 0 <= i < |Filter(IsLow, s)| ==> Filter(IsLow, s)[i].importance == Low
  {
    FilterMembers(IsHigh, s);
    FilterMembers(IsMedium, s);
    FilterMembers(IsLow, s);
  }

  lemma {:induction false} InsertIntoPartition(p: seq<MemoryItem>, x: MemoryItem)
    ensures InsertByRank(x, Filter(IsHigh, p) + Filter(IsMedium, p) + Filter(IsLow, p))
            == Filter(IsHigh, p + [x]) + Filter(IsMedium, p + [x]) + Filter(IsLow, p + [x])
  {
    match x.importance
    case High => PartitionStepHigh(p, x);
    case Medium => PartitionStepMedium(p, x);
    case Low => PartitionStepLow(p, x);
  }

  /** How each rank's filter grows when `x` is appended to the input. */
  lemma {:induction false} AppendOne(p: seq<MemoryItem>, x: MemoryItem)
    ensures Filter(IsHigh, p + [x]) == Filter(IsHigh, p) + (if IsHigh(x) then [x] else [])
    ensures Filter(IsMedium, p + [x]) == Filter(IsMedium, p) + (if IsMedium(x) then [x] else [])
    ensures Filter(IsLow, p + [x]) == Filter(IsLow, p) + (if IsLow(x) then [x] else [])
  {
    FilterAppend(IsHigh, p, [x]);
    FilterAppend(IsMedium, p, [x]);
    FilterAppend(IsLow, p, [x]);
    FilterSingleton(IsHigh, x);
    FilterSingleton(IsMedium, x);
    FilterSingleton(IsLow, x);
  }

  lemma {:induction false} AppendHigh(p: seq<MemoryItem>, x: MemoryItem)
    requires x.importance == High
    ensures Filter(IsHigh, p + [x]) == Filter(IsHigh, p) + [x]
    ensures Filter(IsMedium, p + [x]) == Filter(IsMedium, p)
    ensures Filter(IsLow, p + [x]) == Filter(IsLow, p)
  {
    AppendOne(p, x);
  }

  lemma {:induction false} AppendMedium(p: seq<MemoryItem>, x: MemoryItem)
    requires x.importance == Medium
    ensures Filter(IsHigh, p + [x]) == Filter(IsHigh, p)
    ensures Filter(IsMedium, p + [x]) == Filter(IsMedium, p) + [x]
    ensures Filter(IsLow, p + [x]) == Filter(IsLow, p)
  {
    AppendOne(p, x);
  }

  lemma {:induction false} AppendLow(p: seq<MemoryItem>, x: MemoryItem)
    requires x.importance == Low
    ensures Filter(IsHigh, p + [x]) == Filter(IsHigh, p)
    ensures Filter(IsMedium, p + [x]) == Filter(IsMedium, p)
    ensures Filter(IsLow, p + [x]) == Filter(IsLow, p) + [x]
  {
    AppendOne(p, x);
  }

  lemma {:induction false} InsertHigh(p: seq<MemoryItem>, x: MemoryItem)
    requires x.importance == High
    ensures InsertByRank(x, Filter(IsHigh, p) + Filter(IsMedium, p) + Filter(IsLow, p))
            == Filter(IsHigh, p) + [x] + (Filter(IsMedium, p) + Filter(IsLow, p))
  {
    FilterRanks(p);
    var h, m, l := Filter(IsHigh, p), Filter(IsMedium, p), Filter(IsLow, p);
    InsertBetween(x, h, m + l);
    assert h + (m + l) == h + m + l;
  }

  lemma {:induction false} InsertMedium(p: seq<MemoryItem>, x: MemoryItem)
    requires x.importance == Medium
    ensures InsertByRank(x, Filter(IsHigh, p) + Filter(IsMedium, p) + Filter(IsLow, p))
            == Filter(IsHigh, p) + Filter(IsMedium, p) + [x] + Filter(IsLow, p)
  {
    FilterRanks(p);
    InsertBetween(x, Filter(IsHigh, p) + Filter(IsMedium, p), Filter(IsLow, p));
  }

  lemma {:induction false} InsertLow(p: seq<MemoryItem>, x: MemoryItem)
    requires x.importance == Low
    ensures InsertByRank(x, Filter(IsHigh, p) + Filter(IsMedium, p) + Filter(IsLow, p))
            == Filter(IsHigh, p) + Filter(IsMedium, p) + Filter(IsLow, p) + [x]
  {
    FilterRanks(p);
    var hml := Filter(IsHigh, p) + Filter(IsMedium, p) + Filter(IsLow, p);
    InsertBetween(x, hml, []);
    assert hml + [] == hml;
  }

  lemma {:induction false} PartitionStepHigh(p: seq<MemoryItem>, x: MemoryItem)
    requires x.importance == High
    ensures InsertByRank(x, Filter(IsHigh, p) + Filter(IsMedium, p) + Filter(IsLow, p))
            == Filter(IsHigh, p + [x]) + Filter(IsMedium, p + [x]) + Filter(IsLow, p + [x])
  {
    InsertHigh(p, x);
    AppendHigh(p, x);
    var h, m, l := Filter(IsHigh, p), Filter(IsMedium, p), Filter(IsLow, p);
    assert h + [x] + (m + l) == (h + [x]) + m + l;
  }

  lemma {:induction false} PartitionStepMedium(p: seq<MemoryItem>, x: MemoryItem)
    requires x.importance == Medium
    ensures InsertByRank(x, Filter(IsHigh, p) + Filter(IsMedium, p) + Filter(IsLow, p))
            == Filter(IsHigh, p + [x]) + Filter(IsMedium, p + [x]) + Filter(IsLow, p + [x])
  {
    InsertMedium(p, x);
    AppendMedium(p, x);
    var h, m, l := Filter(IsHigh, p), Filter(IsMedium, p), Filter(IsLow, p);
    assert h + m + [x] + l == h + (m + [x]) + l;
  }

  lemma {:induction false} PartitionStepLow(p: seq<MemoryItem>, x: MemoryItem)
    requires x.importance == Low
    ensures InsertByRank(x, Filter(IsHigh, p) + Filter(IsMedium, p) + Filter(IsLow, p))
            == Filter(IsHigh, p + [x]) + Filter(IsMedium, p + [x]) + Filter(IsLow, p + [x])
  {
    InsertLow(p, x);
    AppendLow(p, x);
    var h, m, l := Filter(IsHigh, p), Filter(IsMedium, p), Filter(IsLow, p);
    assert h + m + l + [x] == h + m + (l + [x]);
  }

  lemma {:induction false} FilterSelectable(s: seq<MemoryItem>)
    ensures Filter(IsHigh, Filter(IsSelectable, s)) == Filter(IsHigh, s)
    ensures Filter(IsMedium, Filter(IsSelectable, s)) == Filter(IsMedium, s)
    ensures Filter(IsLow, Filter(IsSelectable, s)) == []
  {
    if s != [] {
      FilterSelectable(s[1..]);
      var head: seq<MemoryItem> := if IsSelectable(s[0]) then [s[0]] else [];
      FilterAppend(IsHigh, head, Filter(IsSelectable, s[1..]));
      FilterAppend(IsMedium, head, Filter(IsSelectable, s[1..]));
      FilterAppend(IsLow, head, Filter(IsSelectable, s[1..]));
    }
  }

  /** What the block is built from: the high memories in input order, then the medium ones
      in input order, cut to ten. */
  lemma {:induction false} SelectedIsRankedPrefix(mems: seq<MemoryItem>)
    ensures SelectedMemories(mems) == Take(Filter(IsHigh, mems) + Filter(IsMedium, mems), 10)
  {
    var f := Filter(IsSelectable, mems);
    SortIsStablePartition(f);
    FilterSelectable(mems);
    assert SortByImportance(f) == Filter(IsHigh, mems) + Filter(IsMedium, mems) + [];
  }

  /** The selection holds `min(10, n)` memories, where `n` counts the high and medium ones;
      none of them is ranked low, and no memory is ranked above one before it. */
  lemma {:induction false} SelectedMemoriesRanked(mems: seq<MemoryItem>)
    ensures |SelectedMemories(mems)| == if |Filter(IsSelectable, mems)| < 10 then |Filter(IsSelectable, mems)| else 10
    ensures forall i :: 0 <= i < |SelectedMemories(mems)| ==> SelectedMemories(mems)[i].importance != Low
    ensures forall i, j :: 0 <= i < j < |SelectedMemories(mems)| ==>
              Rank(SelectedMemories(mems)[i].importance) >= Rank(SelectedMemories(mems)[j].importance)
  {
    SelectedIsRankedPrefix(mems);
    var h, m := Filter(IsHigh, mems), Filter(IsMedium, mems);
    PartitionSelectableLength(mems);
    FilterRanks(mems);
    var hm := h + m;
    var sel := SelectedMemories(mems);
    assert forall i :: 0 <= i < |hm| ==> hm[i].importance == (if i < |h| then High else Medium);
    assert forall i :: 0 <= i < |sel| ==> sel[i] == hm[i];
  }

  lemma {:induction false} PartitionSelectableLength(mems: seq<MemoryItem>)
    ensures |Filter(IsSelectable, mems)| == |Filter(IsHigh, mems)| + |Filter(IsMedium, mems)|
  {
    var f := Filter(IsSelectable, mems);
    SortIsStablePartition(f);
    FilterSelectable(mems);
    SortPreservesLength(f);
  }

  lemma {:induction false} SortPreservesLength(s: seq<MemoryItem>)
    ensures |SortByImportance(s)| == |s|
  {
    if s != [] {
      SortPreservesLength(s[..|s| - 1]);
      InsertLength(s[|s| - 1], SortByImportance(s[..|s| - 1]));
    }
  }

  lemma {:induction false} InsertLength(x: MemoryItem, s: seq<MemoryItem>)
    ensures |InsertByRank(x, s)| == |s| + 1
  {
    if s != [] && Rank(s[0].importance) >= Rank(x.importance) {
      InsertLength(x, s[1..]);
    }
  }

  /** The block is rendered from the selection, one `TYPE: title - content` line each,
      separated by newlines. */
  lemma {:induction false} MemoryContextLines(mems: seq<MemoryItem>)
    ensures MemoryContext(mems) == Join(Map(MemoryLine, Take(Filter(IsHigh, mems) + Filter(IsMedium, mems), 10)), "\n")
  {
    SelectedIsRankedPrefix(mems);
  }

  /** The preamble is appended when memories were sent even if none of them is high or
      medium: the system prompt then carries an empty block. */
  lemma {:induction false} PreambleWithoutSelectableMemories(prompt: string, mems: seq<MemoryItem>)
    requires |mems| > 0
    requires forall i :: 0 <= i < |mems| ==> mems[i].importance == Low
    ensures MemoryContext(mems) == ""
    ensures EnhancedSystemPrompt(prompt, mems) == prompt + MemoryPreambleHead + MemoryPreambleTail
  {
    SelectedMemoriesRanked(mems);
    FilterMembers(IsSelectable, mems);
    assert SelectedMemories(mems) == [];
    assert Map(MemoryLine, SelectedMemories(mems)) == [];
    assert MemoryContext(mems) == "";
    assert prompt + MemoryPreambleHead + "" + MemoryPreambleTail == prompt + MemoryPreambleHead + MemoryPreambleTail;
  }

  // ---------------------------------------------------------------------------
  // Context assembly

  function ContextRoleOf(r: Role): (c: ContextRole)
    ensures c != SystemRole
  {
    match r
    case User => UserRole
    case Assistant => AssistantRole
  }

  /** A history entry as the provider sees it: role and content only. */
  function ToContextMessage(m: Message): ContextMessage {
    ContextMessage(ContextRoleOf(m.role), m.content)
  }

  /** The provider input: the system message, then the last `min(10, n)` history entries in
      their original order with role and content copied, then the new user message. */
  ghost predicate IsAssembledContext(ctx: seq<ContextMessage>, system: string, history: seq<Message>, message: string) {
    var k := if |history| < 10 then |history| else 10;
    && |ctx| == k + 2
    && ctx[0] == ContextMessage(SystemRole, system)
    && ctx[1..k + 1] == Map(ToContextMessage, LastN(history, 10))
    && ctx[k + 1] == ContextMessage(UserRole, message)
  }

  /** The history loop: push each entry, role and content only, after what is there. */
  method PushHistory(start: seq<ContextMessage>, recent: seq<Message>) returns (messages: seq<ContextMessage>)
    ensures messages == start + Map(ToContextMessage, recent)
  {
    messages := start;
    var i := 0;
    while i < |recent|
      invariant 0 <= i <= |recent|
      invariant messages == start + Map(ToContextMessage, recent[..i])
    {
      assert recent[..i + 1] == recent[..i] + [recent[i]];
      assert Map(ToContextMessage, recent[..i + 1]) == Map(ToContextMessage, recent[..i]) + [ToContextMessage(recent[i])];
      messages := messages + [ToContextMessage(recent[i])];
      i := i + 1;
    }
    assert recent[..i] == recent;
  }

  /** The imperative assembly: push the system message (the prompt with the memory
      preamble appended when any memory was sent), then each of the last ten history
      entries, then the user's message. */
  method AssembleContext(systemPrompt: string, memories: seq<MemoryItem>, history: seq<Message>, message: string)
    returns (messages: seq<ContextMessage>)
    ensures IsAssembledContext(messages, EnhancedSystemPrompt(systemPrompt, memories), history, message)
    ensures |messages| == 2 + (if |history| < 10 then |history| else 10)
    ensures forall i :: 1 <= i < |messages| ==> messages[i].role != SystemRole
  {
    var enhanced := systemPrompt;
    if |memories| > 0 {
      enhanced := enhanced + MemoryPreambleHead + MemoryContext(memories) + MemoryPreambleTail;
    }
    assert enhanced == EnhancedSystemPrompt(systemPrompt, memories);
    messages := [ContextMessage(SystemRole, enhanced)];
    var recent := LastN(history, 10);
    if |history| > 0 {
      messages := PushHistory(messages, recent);
    } else {
      assert Map(ToContextMessage, recent) == [];
      assert messages == messages + Map(ToContextMessage, recent);
    }
    ghost var middle := Map(ToContextMessage, recent);
    assert messages == [ContextMessage(SystemRole, enhanced)] + middle;
    messages := messages + [ContextMessage(UserRole, message)];
    assert messages[1..|middle| + 1] == middle;
  }

  /** The handler. `request` is `None` when the body is not valid JSON; `providerFails`
      says whether the provider call throws. */
  method Post(request: Option<ChatRequest>, providerFails: bool) returns (response: Response)
    ensures request.None? ==> response == TextResponse(500, GenerationFailed)
    ensures request.Some? && !HasMessage(request.value) ==> response == TextResponse(400, MessageRequired)
    ensures request.Some? && HasMessage(request.value) && providerFails ==> response == TextResponse(500, GenerationFailed)
    ensures request.Some? && HasMessage(request.value) && !providerFails ==>
              var req := request.value;
              var settings := EffectiveSettings(req);
              && response.StreamResponse?
              && response.selection == SelectProvider(settings.model)
              && response.temperature == settings.temperature
              && response.maxTokens == settings.maxTokens
              && IsAssembledContext(response.messages, EnhancedSystemPrompt(settings.systemPrompt, req.userMemories),
                                    req.conversationHistory, req.message.value)
              && (forall i :: 1 <= i < |response.messages| ==> response.messages[i].role != SystemRole)
    ensures response.TextResponse? ==> response.status in {400, 500}
  {
    if request.None? {
      return TextResponse(500, GenerationFailed);
    }
    var req := request.value;
    if !HasMessage(req) {
      return TextResponse(400, MessageRequired);
    }
    var settings := EffectiveSettings(req);
    var selection := SelectProvider(settings.model);
    var messages := AssembleContext(settings.systemPrompt, req.userMemories, req.conversationHistory, req.message.value);
    if providerFails {
      return TextResponse(500, GenerationFailed);
    }
    response := StreamResponse(selection, messages, settings.temperature, settings.maxTokens);
  }
}
