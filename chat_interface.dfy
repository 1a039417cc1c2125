/** The chat client's state machine: the visible message list, the conversation list and the
    pointer to the active conversation, the edit state, and the handlers that change them.
    Ids and timestamps (`Date.now()`), the streamed reply, object URLs and stored user
    memories are supplied by the caller. The two React effects the client relies on, saving
    the active conversation when the messages change and writing the conversation list to
    storage, are methods the environment invokes. */
module ChatClient {
  import opened Wrappers
  import opened Seqs
  import opened Text
  import opened ChatTypes
  import ChatRoute

  const NewConversationTitle: string := "New Conversation"
  const ErrorReply: string := "Sorry, I encountered an error. Please try again."
  const FallbackExportTitle: string := "Conversation"
  const TitleLength: nat := 50
  const HistoryLength: nat := 10
  /** The attachment limit, 10 MiB; larger files are skipped. */
  const MaxUploadSize: nat := 10 * 1024 * 1024

  /** What the `/api/chat` call produced: a non-ok status or a throw before reading
      (`Rejected`), or the chunks the reader delivered, possibly ending in a throw. */
  datatype StreamOutcome = Rejected | Streamed(chunks: seq<string>, fault: bool)

  /** A file offered to the upload handler, with the object URL the browser mints for it. */
  datatype UploadFile = UploadFile(name: string, mimeType: string, size: nat, url: string)

  // ---------------------------------------------------------------------------
  // Submitting a message

  /** The guard of `handleSubmit`: a non-blank input and no reply in flight. */
  predicate CanSubmit(input: string, isLoading: bool) {
    Trim(input) != "" && !isLoading
  }

  function UserTurn(content: string, now: nat): Message {
    Message(NatToString(now), content, User, now, None, map[], false, [])
  }

  /** The empty assistant message the reply streams into; its id is `now + 1`. */
  function Placeholder(model: string, now: nat): Message {
    Message(NatToString(now + 1), "", Assistant, now, Some(model), map[], false, [])
  }

  function FreshConversation(now: nat): Conversation {
    Conversation(NatToString(now), NewConversationTitle, [], now, now)
  }

  /** The list after the two appends of a submit. */
  function SubmitBase(prior: seq<Message>, content: string, model: string, now: nat): seq<Message> {
    prior + [UserTurn(content, now), Placeholder(model, now)]
  }

  /** Every message carrying `id` with its content replaced by `c`. */
  function WithContent(msgs: seq<Message>, id: string, c: string): (r: seq<Message>)
    ensures |r| == |msgs|
    ensures forall i :: 0 <= i < |msgs| ==> r[i] == if msgs[i].id == id then msgs[i].(content := c) else msgs[i]
  {
    Map((m: Message) => if m.id == id then m.(content := c) else m, msgs)
  }

  /** The placeholder's final content, or `None` when it is never written: the error text
      after any failure, whatever had streamed before; the streamed text otherwise. */
  function FinalContent(outcome: StreamOutcome): Option<string> {
    match outcome
    case Rejected => Some(ErrorReply)
    case Streamed(chunks, fault) =>
      if fault then Some(ErrorReply) else if chunks == [] then None else Some(Concat(chunks))
  }

  function AfterStream(base: seq<Message>, id: string, outcome: StreamOutcome): seq<Message> {
    match FinalContent(outcome)
    case None => base
    case Some(c) => WithContent(base, id, c)
  }

  /** The body posted to `/api/chat`: the trimmed input, the settings, and the last ten
      messages as they were before this submit touched the list. */
  function SubmittedRequest(input: string, settings: Settings, messages: seq<Message>,
                            userMemories: seq<MemoryItem>, userId: Option<string>): ChatRoute.ChatRequest {
    ChatRoute.ChatRequest(Some(Trim(input)), Some(settings), LastN(messages, HistoryLength), userMemories, userId)
  }

  /** A request the client sends always passes the endpoint's message check, and the
      history it carries is at most ten entries long, the newest last. */
  lemma SubmittedRequestAccepted(input: string, settings: Settings, messages: seq<Message>,
                                 userMemories: seq<MemoryItem>, userId: Option<string>)
    requires CanSubmit(input, false)
    ensures ChatRoute.HasMessage(SubmittedRequest(input, settings, messages, userMemories, userId))
    ensures var h := SubmittedRequest(input, settings, messages, userMemories, userId).conversationHistory;
            |h| <= HistoryLength && (messages != [] ==> h != [] && h[|h| - 1] == messages[|messages| - 1])
  {
  }

  /** Distinct instants give distinct decimal ids. */
  lemma NatToStringInjective(a: nat, b: nat)
    requires a != b
    ensures NatToString(a) != NatToString(b)
  {
    ParseIntNatToString(a);
    ParseIntNatToString(b);
  }

  /** A later write by id overrides an earlier one: the error path discards partial text. */
  lemma WithContentOverwrite(msgs: seq<Message>, id: string, a: string, b: string)
    ensures WithContent(WithContent(msgs, id, a), id, b) == WithContent(msgs, id, b)
  {
    var l, r := WithContent(WithContent(msgs, id, a), id, b), WithContent(msgs, id, b);
    assert |l| == |r|;
    forall i | 0 <= i < |l| ensures l[i] == r[i] {
    }
  }

  /** When one message alone carries the id, the write changes that message's content and
      nothing else. */
  lemma WithContentUnique(msgs: seq<Message>, k: nat, c: string)
    requires k < |msgs|
    requires forall j :: 0 <= j < |msgs| && j != k ==> msgs[j].id != msgs[k].id
    ensures WithContent(msgs, msgs[k].id, c) == msgs[k := msgs[k].(content := c)]
  {
    var l, r := WithContent(msgs, msgs[k].id, c), msgs[k := msgs[k].(content := c)];
    assert |l| == |r|;
    forall i | 0 <= i < |l| ensures l[i] == r[i] {
    }
  }

  /** The shape of the list after a submit whose placeholder id is fresh: two more entries,
      the earlier ones untouched, the trimmed user turn just before the assistant entry, and
      the assistant entry tagged with the model and holding the final content. */
  lemma SubmitShape(prior: seq<Message>, content: string, model: string, now: nat, outcome: StreamOutcome)
    requires forall j :: 0 <= j < |prior| ==> prior[j].id != NatToString(now + 1)
    ensures var r := AfterStream(SubmitBase(prior, content, model, now), NatToString(now + 1), outcome);
            && |r| == |prior| + 2
            && r[..|prior|] == prior
            && r[|prior|] == UserTurn(content, now)
            && r[|prior| + 1] == Placeholder(model, now).(content := FinalContent(outcome).GetOr(""))
  {
    var base := SubmitBase(prior, content, model, now);
    var k := |prior| + 1;
    NatToStringInjective(now, now + 1);
    assert base[k] == Placeholder(model, now);
    assert forall j :: 0 <= j < |base| && j != k ==> base[j].id != base[k].id;
    match FinalContent(outcome)
    case None =>
    case Some(c) =>
      WithContentUnique(base, k, c);
      assert base[k := base[k].(content := c)][..|prior|] == prior;
  }

  // ---------------------------------------------------------------------------
  // Conversations

  /** The title a save derives from the first message: at most fifty characters, always
      followed by an ellipsis. */
  function DerivedTitle(content: string): string {
    Take(content, TitleLength) + "..."
  }

  /** A derived title ends in "..." and so is never the placeholder title again. */
  lemma DerivedTitleFinal(content: string)
    ensures EndsWith(DerivedTitle(content), "...")
    ensures DerivedTitle(content) != NewConversationTitle
    ensures StartsWith(DerivedTitle(content), Take(content, TitleLength))
    ensures |DerivedTitle(content)| <= TitleLength + 3
  {
    var t := DerivedTitle(content);
    assert t[|t| - 3..] == "...";
    assert NewConversationTitle[|NewConversationTitle| - 1] == 'n';
    assert t[..|Take(content, TitleLength)|] == Take(content, TitleLength);
  }

  function SavedConversation(c: Conversation, msgs: seq<Message>, now: Timestamp): Conversation
    requires |msgs| > 0
  {
    c.(messages := msgs, updatedAt := now,
       title := if c.title == NewConversationTitle then DerivedTitle(msgs[0].content) else c.title)
  }

  /** The title is derived at most once: later saves keep whatever the first save set. */
  lemma TitleDerivedOnce(c: Conversation, m1: seq<Message>, t1: Timestamp, m2: seq<Message>, t2: Timestamp)
    requires |m1| > 0 && |m2| > 0
    ensures SavedConversation(SavedConversation(c, m1, t1), m2, t2).title == SavedConversation(c, m1, t1).title
    ensures SavedConversation(c, m1, t1).title == if c.title == NewConversationTitle then DerivedTitle(m1[0].content) else c.title
    ensures SavedConversation(SavedConversation(c, m1, t1), m2, t2).messages == m2
  {
    DerivedTitleFinal(m1[0].content);
  }

  function SaveInto(cs: seq<Conversation>, id: string, msgs: seq<Message>, now: Timestamp): (r: seq<Conversation>)
    requires |msgs| > 0
    ensures |r| == |cs|
    ensures forall i :: 0 <= i < |cs| ==> r[i] == if cs[i].id == id then SavedConversation(cs[i], msgs, now) else cs[i]
  {
    Map((c: Conversation) => if c.id == id then SavedConversation(c, msgs, now) else c, cs)
  }

  /** `conversations.find(c => c.id === id)`: the first conversation with that id. */
  function FindConversation(cs: seq<Conversation>, id: string): (r: Option<Conversation>)
    ensures r.Some? ==> exists i :: 0 <= i < |cs| && cs[i] == r.value && cs[i].id == id
                                   && forall j :: 0 <= j < i ==> cs[j].id != id
    ensures r.None? ==> forall i :: 0 <= i < |cs| ==> cs[i].id != id
  {
    if cs == [] then None
    else if cs[0].id == id then Some(cs[0])
    else
      var r := FindConversation(cs[1..], id);
      if r.Some? then
        ghost var i :| 0 <= i < |cs[1..]| && cs[1..][i] == r.value && cs[1..][i].id == id
                   && forall j :: 0 <= j < i ==> cs[1..][j].id != id;
        assert cs[i + 1] == r.value && forall j :: 0 <= j < i + 1 ==> cs[j].id != id;
        r
      else r
  }

  function WithoutConversation(cs: seq<Conversation>, id: string): seq<Conversation> {
    Filter((c: Conversation) => c.id != id, cs)
  }

  /** Deleting removes exactly the conversations with that id and keeps the others. */
  lemma WithoutConversationExact(cs: seq<Conversation>, id: string)
    ensures forall i :: 0 <= i < |WithoutConversation(cs, id)| ==>
              WithoutConversation(cs, id)[i].id != id && WithoutConversation(cs, id)[i] in cs
    ensures forall i :: 0 <= i < |cs| && cs[i].id != id ==> cs[i] in WithoutConversation(cs, id)
    ensures FindConversation(WithoutConversation(cs, id), id).None?
  {
    FilterMembers((c: Conversation) => c.id != id, cs);
  }

  function Retitled(cs: seq<Conversation>, id: string, title: string, now: Timestamp): (r: seq<Conversation>)
    ensures |r| == |cs|
  {
    Map((c: Conversation) => if c.id == id then c.(title := title, updatedAt := now) else c, cs)
  }

  /** After a rename, looking the id up finds the renamed conversation; other ids are found
      exactly as before. */
  lemma {:induction false} RetitledFind(cs: seq<Conversation>, id: string, title: string, now: Timestamp, other: string)
    ensures FindConversation(Retitled(cs, id, title, now), id) ==
            match FindConversation(cs, id)
            case None => None
            case Some(c) => Some(c.(title := title, updatedAt := now))
    ensures other != id ==> FindConversation(Retitled(cs, id, title, now), other) == FindConversation(cs, other)
  {
    if cs != [] {
      RetitledFind(cs[1..], id, title, now, other);
      assert Retitled(cs, id, title, now)[1..] == Retitled(cs[1..], id, title, now);
    }
  }

  /** The storage effect: the list is written only when it is non-empty. */
  function Persisted(stored: Option<seq<Conversation>>, cs: seq<Conversation>): (r: Option<seq<Conversation>>)
    ensures cs != [] ==> r == Some(cs)
    ensures cs == [] ==> r == stored
  {
    if |cs| > 0 then Some(cs) else stored
  }

  /** Deleting the only conversation is never written: storage keeps the deleted one. */
  lemma DeletingLastNotPersisted(stored: Option<seq<Conversation>>, c: Conversation)
    ensures Persisted(stored, WithoutConversation([c], c.id)) == stored
  {
    FilterSingleton((x: Conversation) => x.id != c.id, c);
  }

  // ---------------------------------------------------------------------------
  // Reactions and edits

  /** One more of `reaction`, counting from zero when absent. */
  function Bump(reactions: map<string, nat>, reaction: string): (r: map<string, nat>)
    ensures r.Keys == reactions.Keys + {reaction}
    ensures r[reaction] == (if reaction in reactions then reactions[reaction] else 0) + 1
    ensures forall k :: k in reactions && k != reaction ==> r[k] == reactions[k]
  {
    reactions[reaction := (if reaction in reactions then reactions[reaction] else 0) + 1]
  }

  function Reacted(msgs: seq<Message>, id: string, reaction: string): (r: seq<Message>)
    ensures |r| == |msgs|
  {
    Map((m: Message) => if m.id == id then m.(reactions := Bump(m.reactions, reaction)) else m, msgs)
  }

  /** A reaction raises exactly one counter on the messages with that id and leaves every
      other message, and every other field, as it was. */
  lemma ReactedExact(msgs: seq<Message>, id: string, reaction: string)
    ensures forall i :: 0 <= i < |msgs| && msgs[i].id != id ==> Reacted(msgs, id, reaction)[i] == msgs[i]
    ensures forall i :: 0 <= i < |msgs| && msgs[i].id == id ==>
              var m, n := msgs[i], Reacted(msgs, id, reaction)[i];
              && n.(reactions := m.reactions) == m
              && n.reactions[reaction] == (if reaction in m.reactions then m.reactions[reaction] else 0) + 1
              && forall k :: k in m.reactions && k != reaction ==> n.reactions[k] == m.reactions[k]
  {
  }

  function Edited(msgs: seq<Message>, id: string, content: string): (r: seq<Message>)
    ensures |r| == |msgs|
  {
    Map((m: Message) => if m.id == id then m.(content := content, edited := true) else m, msgs)
  }

  /** Saving an edit stores trimmed, non-blank content, marks the message edited, and saving
      the same edit again changes nothing more. */
  lemma EditedExact(msgs: seq<Message>, id: string, text: string)
    requires Trim(text) != ""
    ensures forall i :: 0 <= i < |msgs| ==>
              var n := Edited(msgs, id, Trim(text))[i];
              if msgs[i].id == id then n.content == Trim(text) && Trim(n.content) == n.content && n.edited
              else n == msgs[i]
    ensures Edited(Edited(msgs, id, Trim(text)), id, Trim(text)) == Edited(msgs, id, Trim(text))
  {
    TrimIdempotent(text);
    var e := Edited(msgs, id, Trim(text));
    var ee := Edited(e, id, Trim(text));
    assert |ee| == |e|;
    forall i | 0 <= i < |e| ensures ee[i] == e[i] {
    }
  }

  // ---------------------------------------------------------------------------
  // Attachments

  predicate Small(f: UploadFile) {
    f.size <= MaxUploadSize
  }

  function Attach(f: UploadFile, i: nat, now: nat): FileAttachment {
    FileAttachment(NatToString(now) + NatToString(i), f.name, f.mimeType, f.size, f.url)
  }

  /** The attachments made from the first `n` files: each file within the limit, in order,
      with an id made of the upload instant followed by the file's position. */
  function AcceptedPrefix(files: seq<UploadFile>, n: nat, now: nat): seq<FileAttachment>
    requires n <= |files|
  {
    if n == 0 then []
    else AcceptedPrefix(files, n - 1, now) + (if Small(files[n - 1]) then [Attach(files[n - 1], n - 1, now)] else [])
  }

  function AttachmentName(a: FileAttachment): string { a.name }
  function FileName(f: UploadFile): string { f.name }

  /** Every accepted attachment is within the limit. */
  lemma {:induction false} AcceptedWithinLimit(files: seq<UploadFile>, n: nat, now: nat)
    requires n <= |files|
    ensures forall i :: 0 <= i < |AcceptedPrefix(files, n, now)| ==> AcceptedPrefix(files, n, now)[i].size <= MaxUploadSize
  {
    if n > 0 {
      AcceptedWithinLimit(files, n - 1, now);
    }
  }

  /** The accepted attachments are the files within the limit, in order, and no others. */
  lemma {:induction false} AcceptedAreSmallFiles(files: seq<UploadFile>, n: nat, now: nat)
    requires n <= |files|
    ensures Map(AttachmentName, AcceptedPrefix(files, n, now)) == Map(FileName, Filter(Small, files[..n]))
    ensures forall i :: 0 <= i < |AcceptedPrefix(files, n, now)| ==> AcceptedPrefix(files, n, now)[i].size <= MaxUploadSize
  {
    AcceptedWithinLimit(files, n, now);
    if n > 0 {
      AcceptedAreSmallFiles(files, n - 1, now);
      var f := files[n - 1];
      assert files[..n] == files[..n - 1] + [f];
      FilterAppend(Small, files[..n - 1], [f]);
      FilterSingleton(Small, f);
      var prev := AcceptedPrefix(files, n - 1, now);
      var fs := Filter(Small, files[..n - 1]);
      if Small(f) {
        assert AcceptedPrefix(files, n, now) == prev + [Attach(f, n - 1, now)];
        assert Filter(Small, files[..n]) == fs + [f];
        MapAppend(AttachmentName, prev, [Attach(f, n - 1, now)]);
        MapAppend(FileName, fs, [f]);
      } else {
        assert AcceptedPrefix(files, n, now) == prev;
        assert Filter(Small, files[..n]) == fs;
      }
    }
  }

  /** The loop of `handleFileUpload`: oversized files are skipped, each other file becomes
      an attachment. */
  method AcceptFiles(files: seq<UploadFile>, now: nat) returns (attachments: seq<FileAttachment>)
    ensures attachments == AcceptedPrefix(files, |files|, now)
    ensures forall i :: 0 <= i < |attachments| ==> attachments[i].size <= MaxUploadSize
  {
    attachments := [];
    for i := 0 to |files|
      invariant attachments == AcceptedPrefix(files, i, now)
    {
      if files[i].size > MaxUploadSize {
        continue;
      }
      attachments := attachments + [Attach(files[i], i, now)];
    }
    AcceptedAreSmallFiles(files, |files|, now);
  }

  /** "Uploaded N file(s): a, b". */
  function UploadMessage(attachments: seq<FileAttachment>, now: nat): Message {
    var content := "Uploaded " + NatToString(|attachments|) + " file(s): " + Join(Map(AttachmentName, attachments), ", ");
    Message(NatToString(now), content, User, now, None, map[], false, attachments)
  }

  // ---------------------------------------------------------------------------
  // Search and export

  /** The search box: everything for an empty query, otherwise the messages whose content
      contains the query ignoring case, in order. */
  function FilterMessages(msgs: seq<Message>, query: string): seq<Message> {
    Filter((m: Message) => query == "" || ContainsIgnoringCase(m.content, query), msgs)
  }

  lemma FilterMessagesExact(msgs: seq<Message>, query: string)
    ensures forall i :: 0 <= i < |FilterMessages(msgs, query)| ==>
              FilterMessages(msgs, query)[i] in msgs
              && (query == "" || ContainsIgnoringCase(FilterMessages(msgs, query)[i].content, query))
    ensures forall i :: 0 <= i < |msgs| && (query == "" || ContainsIgnoringCase(msgs[i].content, query)) ==>
              msgs[i] in FilterMessages(msgs, query)
    ensures query == "" ==> FilterMessages(msgs, query) == msgs
  {
    var p := (m: Message) => query == "" || ContainsIgnoringCase(m.content, query);
    FilterMembers(p, msgs);
    if query == "" {
      FilterAll(p, msgs);
    }
  }

  predicate IsAsciiAlphanumeric(c: char) {
    'a' <= c <= 'z' || 'A' <= c <= 'Z' || '0' <= c <= '9'
  }

  function SafeChar(c: char): char {
    if IsAsciiAlphanumeric(c) then LowerChar(c) else '_'
  }

  /** The title of the active conversation, with an empty or missing one replaced. */
  function ExportTitle(cs: seq<Conversation>, current: Option<string>): string {
    var found := if current.Some? then FindConversation(cs, current.value) else None;
    if found.Some? && found.value.title != "" then found.value.title else FallbackExportTitle
  }

  /** The download name: every character outside ASCII letters and digits becomes `_`, the
      rest is lower-cased, and ".json" is appended; nothing is exported without messages. */
  function ExportFileName(msgs: seq<Message>, cs: seq<Conversation>, current: Option<string>): (r: Option<string>)
    ensures r.None? <==> msgs == []
  {
    if |msgs| == 0 then None
    else Some(Map(SafeChar, ExportTitle(cs, current)) + ".json")
  }

  /** The file name is the title, character for character, reduced to `[a-z0-9_]`. */
  lemma ExportFileNameSafe(msgs: seq<Message>, cs: seq<Conversation>, current: Option<string>)
    requires msgs != []
    ensures var name := ExportFileName(msgs, cs, current).value;
            var title := ExportTitle(cs, current);
            && |name| == |title| + 5
            && EndsWith(name, ".json")
            && (forall i :: 0 <= i < |title| ==> ('a' <= name[i] <= 'z' || '0' <= name[i] <= '9' || name[i] == '_'))
            && (forall i :: 0 <= i < |title| && IsAsciiAlphanumeric(title[i]) ==> name[i] == LowerChar(title[i]))
  {
    var title := ExportTitle(cs, current);
    var name := ExportFileName(msgs, cs, current).value;
    assert name[|name| - 5..] == ".json";
  }

  /** An active conversation with a title is exported under that title; otherwise under
      the fallback. */
  lemma ExportTitleChoice(cs: seq<Conversation>, current: Option<string>)
    ensures current.None? ==> ExportTitle(cs, current) == FallbackExportTitle
    ensures current.Some? && FindConversation(cs, current.value).Some? && FindConversation(cs, current.value).value.title != "" ==>
              ExportTitle(cs, current) == FindConversation(cs, current.value).value.title
    ensures ExportTitle(cs, current) != ""
  {
  }

  /** The list after each chunk: the placeholder holds the text of all chunks so far. */
  predicate IsStreamTrace(snapshots: seq<seq<Message>>, base: seq<Message>, aid: string, outcome: StreamOutcome) {
    && |snapshots| == (if outcome.Streamed? then |outcome.chunks| else 0)
    && forall k :: 0 <= k < |snapshots| ==> snapshots[k] == WithContent(base, aid, Concat(outcome.chunks[..k + 1]))
  }

  /** The read loop of `handleSubmit` and its error path, over the list after the two
      appends: each chunk rewrites the placeholder with all text so far; a failure then
      overwrites it with the error text. Also returns the list after each chunk. */
  method StreamReply(base: seq<Message>, aid: string, outcome: StreamOutcome)
    returns (messages: seq<Message>, snapshots: seq<seq<Message>>)
    ensures messages == AfterStream(base, aid, outcome)
    ensures IsStreamTrace(snapshots, base, aid, outcome)
  {
    messages := base;
    snapshots := [];
    var failed := true;
    if outcome.Streamed? {
      var chunks := outcome.chunks;
      var full := "";
      var i := 0;
      while i < |chunks|
        invariant 0 <= i <= |chunks|
        invariant full == Concat(chunks[..i])
        invariant |snapshots| == i
        invariant forall k :: 0 <= k < i ==> snapshots[k] == WithContent(base, aid, Concat(chunks[..k + 1]))
        invariant messages == if i == 0 then base else WithContent(base, aid, full)
      {
        ConcatStep(chunks, i);
        full := full + chunks[i];
        if i > 0 {
          WithContentOverwrite(base, aid, Concat(chunks[..i]), full);
        }
        messages := WithContent(messages, aid, full);
        snapshots := snapshots + [messages];
        i := i + 1;
      }
      assert chunks[..i] == chunks;
      failed := outcome.fault;
    }
    if failed {
      if outcome.Streamed? && outcome.chunks != [] {
        WithContentOverwrite(base, aid, Concat(outcome.chunks), ErrorReply);
      }
      messages := WithContent(messages, aid, ErrorReply);
    }
  }

  // ---------------------------------------------------------------------------
  // The component

  class ChatInterface {
    var messages: seq<Message>
    var input: string
    var isLoading: bool
    var conversations: seq<Conversation>
    var currentConversationId: Option<string>
    var settings: Settings
    var searchQuery: string
    var editingMessageId: Option<string>
    var editingContent: string
    /** The conversation list last written to storage, if any. */
    var storedConversations: Option<seq<Conversation>>

    constructor ()
      ensures messages == [] && input == "" && !isLoading
      ensures conversations == [] && currentConversationId == None
      ensures settings == DefaultSettings && searchQuery == ""
      ensures editingMessageId == None && editingContent == ""
      ensures storedConversations == None
    {
      messages := [];
      input := "";
      isLoading := false;
      conversations := [];
      currentConversationId := None;
      settings := DefaultSettings;
      searchQuery := "";
      editingMessageId := None;
      editingContent := "";
      storedConversations := None;
    }

    method SetInput(text: string)
      modifies this
      ensures input == text
      ensures messages == old(messages) && isLoading == old(isLoading) && conversations == old(conversations)
      ensures currentConversationId == old(currentConversationId) && settings == old(settings)
      ensures searchQuery == old(searchQuery) && editingMessageId == old(editingMessageId)
      ensures editingContent == old(editingContent) && storedConversations == old(storedConversations)
    {
      input := text;
    }

    /** The settings dialog's save hands its working copy over, and the startup effect
        restores the stored settings, both by replacing the settings wholesale. */
    method SetSettings(s: Settings)
      modifies this
      ensures settings == s
      ensures messages == old(messages) && input == old(input) && isLoading == old(isLoading)
      ensures conversations == old(conversations) && currentConversationId == old(currentConversationId)
      ensures searchQuery == old(searchQuery) && editingMessageId == old(editingMessageId)
      ensures editingContent == old(editingContent) && storedConversations == old(storedConversations)
    {
      settings := s;
    }

    /** A fresh conversation is put first and made active, and the message list cleared. */
    method CreateNewConversation(now: nat)
      modifies this
      ensures conversations == [FreshConversation(now)] + old(conversations)
      ensures currentConversationId == Some(NatToString(now))
      ensures messages == []
      ensures input == old(input) && isLoading == old(isLoading) && settings == old(settings)
      ensures searchQuery == old(searchQuery) && editingMessageId == old(editingMessageId)
      ensures editingContent == old(editingContent) && storedConversations == old(storedConversations)
    {
      var c := FreshConversation(now);
      conversations := [c] + conversations;
      currentConversationId := Some(c.id);
      messages := [];
    }

    /** Switches to the first conversation with that id; an unknown id changes nothing. */
    method LoadConversation(id: string)
      modifies this
      ensures FindConversation(old(conversations), id).Some? ==>
                currentConversationId == Some(id) && messages == FindConversation(old(conversations), id).value.messages
      ensures FindConversation(old(conversations), id).None? ==>
                currentConversationId == old(currentConversationId) && messages == old(messages)
      ensures conversations == old(conversations) && input == old(input) && isLoading == old(isLoading)
      ensures settings == old(settings) && searchQuery == old(searchQuery)
      ensures editingMessageId == old(editingMessageId) && editingContent == old(editingContent)
      ensures storedConversations == old(storedConversations)
    {
      var found := FindConversation(conversations, id);
      if found.Some? {
        currentConversationId := Some(id);
        messages := found.value.messages;
      }
    }

    /** Removes the conversation; deleting the active one also clears the active id and
        the visible messages. */
    method DeleteConversation(id: string)
      modifies this
      ensures conversations == WithoutConversation(old(conversations), id)
      ensures old(currentConversationId) == Some(id) ==> currentConversationId == None && messages == []
      ensures old(currentConversationId) != Some(id) ==>
                currentConversationId == old(currentConversationId) && messages == old(messages)
      ensures input == old(input) && isLoading == old(isLoading) && settings == old(settings)
      ensures searchQuery == old(searchQuery) && editingMessageId == old(editingMessageId)
      ensures editingContent == old(editingContent) && storedConversations == old(storedConversations)
    {
      conversations := WithoutConversation(conversations, id);
      if currentConversationId == Some(id) {
        currentConversationId := None;
        messages := [];
      }
    }

    method UpdateConversationTitle(id: string, title: string, now: Timestamp)
      modifies this
      ensures conversations == Retitled(old(conversations), id, title, now)
      ensures messages == old(messages) && currentConversationId == old(currentConversationId)
      ensures input == old(input) && isLoading == old(isLoading) && settings == old(settings)
      ensures searchQuery == old(searchQuery) && editingMessageId == old(editingMessageId)
      ensures editingContent == old(editingContent) && storedConversations == old(storedConversations)
    {
      conversations := Retitled(conversations, id, title, now);
    }

    /** The save effect: with an active id and a non-empty list, the active conversation
        takes the messages, a new update time and, the first time, a derived title. */
    method SaveCurrentConversation(now: Timestamp)
      modifies this
      ensures old(currentConversationId).Some? && |old(messages)| > 0 ==>
                conversations == SaveInto(old(conversations), old(currentConversationId).value, old(messages), now)
      ensures old(currentConversationId).None? || |old(messages)| == 0 ==> conversations == old(conversations)
      ensures messages == old(messages) && currentConversationId == old(currentConversationId)
      ensures input == old(input) && isLoading == old(isLoading) && settings == old(settings)
      ensures searchQuery == old(searchQuery) && editingMessageId == old(editingMessageId)
      ensures editingContent == old(editingContent) && storedConversations == old(storedConversations)
    {
      if currentConversationId.Some? && |messages| > 0 {
        conversations := SaveInto(conversations, currentConversationId.value, messages, now);
      }
    }

    /** The storage effect on the conversation list. */
    method PersistConversations()
      modifies this
      ensures storedConversations == Persisted(old(storedConversations), old(conversations))
      ensures messages == old(messages) && conversations == old(conversations)
      ensures currentConversationId == old(currentConversationId)
      ensures input == old(input) && isLoading == old(isLoading) && settings == old(settings)
      ensures searchQuery == old(searchQuery) && editingMessageId == old(editingMessageId)
      ensures editingContent == old(editingContent)
    {
      if |conversations| > 0 {
        storedConversations := Some(conversations);
      }
    }

    /** `handleSubmit`. Returns the request body it posts (`None` when the guard stops it)
        and the message list as it stands after each streamed chunk. */
    method HandleSubmit(now: nat, userMemories: seq<MemoryItem>, userId: Option<string>, outcome: StreamOutcome)
      returns (request: Option<ChatRoute.ChatRequest>, snapshots: seq<seq<Message>>)
      modifies this
      ensures !CanSubmit(old(input), old(isLoading)) ==>
                && request.None? && snapshots == []
                && messages == old(messages) && conversations == old(conversations)
                && currentConversationId == old(currentConversationId)
                && input == old(input) && isLoading == old(isLoading)
      ensures CanSubmit(old(input), old(isLoading)) ==>
                var prior := if old(currentConversationId).None? then [] else old(messages);
                var base := SubmitBase(prior, Trim(old(input)), old(settings).model, now);
                var aid := NatToString(now + 1);
                && request == Some(SubmittedRequest(old(input), old(settings), old(messages), userMemories, userId))
                && messages == AfterStream(base, aid, outcome)
                && IsStreamTrace(snapshots, base, aid, outcome)
                && input == "" && !isLoading
                && conversations == (if old(currentConversationId).None? then [FreshConversation(now)] + old(conversations)
                                     else old(conversations))
                && currentConversationId == (if old(currentConversationId).None? then Some(NatToString(now))
                                             else old(currentConversationId))
      ensures settings == old(settings) && searchQuery == old(searchQuery)
      ensures editingMessageId == old(editingMessageId) && editingContent == old(editingContent)
      ensures storedConversations == old(storedConversations)
    {
      if !CanSubmit(input, isLoading) {
        return None, [];
      }
      request, snapshots := Submit(now, userMemories, userId, outcome);
    }

    /** The body of `handleSubmit` past its guard: the two appends, then the reply. */
    method Submit(now: nat, userMemories: seq<MemoryItem>, userId: Option<string>, outcome: StreamOutcome)
      returns (request: Option<ChatRoute.ChatRequest>, snapshots: seq<seq<Message>>)
      requires CanSubmit(input, isLoading)
      modifies this
      ensures var prior := if old(currentConversationId).None? then [] else old(messages);
              var base := SubmitBase(prior, Trim(old(input)), old(settings).model, now);
              var aid := NatToString(now + 1);
              && request == Some(SubmittedRequest(old(input), old(settings), old(messages), userMemories, userId))
              && messages == AfterStream(base, aid, outcome)
              && IsStreamTrace(snapshots, base, aid, outcome)
              && input == "" && !isLoading
              && conversations == (if old(currentConversationId).None? then [FreshConversation(now)] + old(conversations)
                                   else old(conversations))
              && currentConversationId == (if old(currentConversationId).None? then Some(NatToString(now))
                                           else old(currentConversationId))
      ensures settings == old(settings) && searchQuery == old(searchQuery)
      ensures editingMessageId == old(editingMessageId) && editingContent == old(editingContent)
      ensures storedConversations == old(storedConversations)
    {
      var base;
      request, base := BeginSubmit(now, userMemories, userId);
      var final;
      final, snapshots := StreamReply(base, NatToString(now + 1), outcome);
      messages := final;
      isLoading := false;
    }

    /** Up to the fetch: opens a conversation if none is current, captures the request,
        appends the user turn and the placeholder, clears the input and starts loading. */
    method BeginSubmit(now: nat, userMemories: seq<MemoryItem>, userId: Option<string>)
      returns (request: Option<ChatRoute.ChatRequest>, base: seq<Message>)
      requires CanSubmit(input, isLoading)
      modifies this
      ensures base == SubmitBase(if old(currentConversationId).None? then [] else old(messages),
                                 Trim(old(input)), old(settings).model, now)
      ensures request == Some(SubmittedRequest(old(input), old(settings), old(messages), userMemories, userId))
      ensures messages == base && input == "" && isLoading
      ensures conversations == (if old(currentConversationId).None? then [FreshConversation(now)] + old(conversations)
                                else old(conversations))
      ensures currentConversationId == (if old(currentConversationId).None? then Some(NatToString(now))
                                        else old(currentConversationId))
      ensures settings == old(settings) && searchQuery == old(searchQuery)
      ensures editingMessageId == old(editingMessageId) && editingContent == old(editingContent)
      ensures storedConversations == old(storedConversations)
    {
      var text, history, model := input, messages, settings.model;
      request := Some(SubmittedRequest(text, settings, history, userMemories, userId));
      var prior := history;
      if currentConversationId.None? {
        CreateNewConversation(now);
        prior := [];
      }
      base := SubmitBase(prior, Trim(text), model, now);
      messages := base;
      input := "";
      isLoading := true;
    }

    method AddReaction(id: string, reaction: string)
      modifies this
      ensures messages == Reacted(old(messages), id, reaction)
      ensures conversations == old(conversations) && currentConversationId == old(currentConversationId)
      ensures input == old(input) && isLoading == old(isLoading) && settings == old(settings)
      ensures searchQuery == old(searchQuery) && editingMessageId == old(editingMessageId)
      ensures editingContent == old(editingContent) && storedConversations == old(storedConversations)
    {
      messages := Reacted(messages, id, reaction);
    }

    method StartEditingMessage(m: Message)
      modifies this
      ensures editingMessageId == Some(m.id) && editingContent == m.content
      ensures messages == old(messages) && conversations == old(conversations)
      ensures currentConversationId == old(currentConversationId)
      ensures input == old(input) && isLoading == old(isLoading) && settings == old(settings)
      ensures searchQuery == old(searchQuery) && storedConversations == old(storedConversations)
    {
      editingMessageId := Some(m.id);
      editingContent := m.content;
    }

    /** Stores the trimmed edit when there is one to store (an empty id is falsy and counts
        as none); the edit state is cleared in every case. */
    method SaveEditedMessage()
      modifies this
      ensures old(editingMessageId).Some? && old(editingMessageId).value != "" && Trim(old(editingContent)) != "" ==>
                messages == Edited(old(messages), old(editingMessageId).value, Trim(old(editingContent)))
      ensures old(editingMessageId).None? || old(editingMessageId) == Some("") || Trim(old(editingContent)) == "" ==>
                messages == old(messages)
      ensures editingMessageId == None && editingContent == ""
      ensures conversations == old(conversations) && currentConversationId == old(currentConversationId)
      ensures input == old(input) && isLoading == old(isLoading) && settings == old(settings)
      ensures searchQuery == old(searchQuery) && storedConversations == old(storedConversations)
    {
      if editingMessageId.Some? && editingMessageId.value != "" && Trim(editingContent) != "" {
        messages := Edited(messages, editingMessageId.value, Trim(editingContent));
      }
      editingMessageId := None;
      editingContent := "";
    }

    method CancelEditingMessage()
      modifies this
      ensures editingMessageId == None && editingContent == ""
      ensures messages == old(messages) && conversations == old(conversations)
      ensures currentConversationId == old(currentConversationId)
      ensures input == old(input) && isLoading == old(isLoading) && settings == old(settings)
      ensures searchQuery == old(searchQuery) && storedConversations == old(storedConversations)
    {
      editingMessageId := None;
      editingContent := "";
    }

    /** Appends one upload message holding every file within the limit, or nothing when all
        files were skipped. */
    method HandleFileUpload(files: seq<UploadFile>, now: nat)
      modifies this
      ensures var accepted := AcceptedPrefix(files, |files|, now);
              messages == if |accepted| > 0 then old(messages) + [UploadMessage(accepted, now)] else old(messages)
      ensures conversations == old(conversations) && currentConversationId == old(currentConversationId)
      ensures input == old(input) && isLoading == old(isLoading) && settings == old(settings)
      ensures searchQuery == old(searchQuery) && editingMessageId == old(editingMessageId)
      ensures editingContent == old(editingContent) && storedConversations == old(storedConversations)
    {
      var attachments := AcceptFiles(files, now);
      if |attachments| > 0 {
        messages := messages + [UploadMessage(attachments, now)];
      }
    }
  }
}
