# Verified model of the chatbot's conversation core

This project models the sequential logic of a Next.js chatbot in Dafny and proves
properties of that model. The chatbot has a chat endpoint and a set of client components.
Seven pieces are modelled:

- **The chat endpoint** (`ChatRoute`, app/api/chat/route.ts). It validates the request,
  fills in default settings and routes the model id to a provider. It also builds the
  message list for the provider: one system message, then the last ten history turns, then
  the user's turn. The system message is the system prompt plus a ranked, capped memory
  block.
- **The chat client** (`ChatClient`, components/chat-interface.tsx). This is a class over
  the message list, the conversation list and the active conversation. It covers
  submitting a message, with the reply streamed into a placeholder. It also covers saving,
  creating, loading, deleting and renaming conversations, reactions, message edits, file
  uploads, the search filter and the export file name.
- **The memory store** (`MemorySystem`, components/memory-system.tsx). It adds memories,
  parsing comma-separated tags, and deletes, updates, searches and persists them.
- **The fenced-code renderer** (`CodeBlock`, components/code-block.tsx). Its parser splits
  on non-greedy triple-backtick pairs. The renderer numbers code blocks in order, keeps the
  "copied" tick set, and looks up a language's CSS class.
- **The plugin registry** (`PluginSystem`, components/plugin-system.tsx). It installs,
  uninstalls and toggles plugins over two lists that are kept consistent. It also provides
  the search and category filter and the active count.
- **The sidebar's title editor** (`ConversationSidebar`,
  components/conversation-sidebar.tsx).
- **The settings dialog** (`ChatSettings`, components/chat-settings.tsx). It resets,
  applies presets, saves, and updates single fields, including the max-tokens parse
  fallback.

The modules `Wrappers`, `Seqs`, `Text` and `ChatTypes` are shared. `Seqs` and `Text` model
the JavaScript built-ins the core relies on: `filter`, `map`, `slice`, `trim`,
`toLowerCase`, `includes`, `split`, `join`, `parseInt` and decimal rendering. `ChatTypes`
holds the records the parts exchange.

Where the components update state, the model is a class whose methods have a `modifies`
clause. Each method's new state is stated as a function of the old one. The properties are
proved as lemmas about those functions. Loops in the source are `while`/`for` loops here,
each with its invariants:

- the history push in the endpoint;
- the stream read loop;
- the upload loop;
- the render pass that numbers code blocks.

Time, randomness, the network and storage are parameters:

- ids and timestamps are the `now` arguments;
- the stream is a `StreamOutcome`;
- storage is a "last written value" field.

## Model

| member | source | states |
|---|---|---|
| ChatRoute.EffectiveSettings | app/api/chat/route.ts:39-46 | Absent settings become grok, 0.7, 2048 and the default prompt; given settings are used as they are |
| ChatRoute.SelectProvider | app/api/chat/route.ts:48-55 | The provider is Groq iff the model is "groq", with its Llama model and key variable; every other id goes to xAI's grok-4 |
| ChatRoute.SortIsStablePartition | app/api/chat/route.ts:64-67 | The importance sort yields the high memories, then the medium ones, then the low ones, each group in input order |
| ChatRoute.FilterSelectable | app/api/chat/route.ts:63 | Filtering to high and medium keeps every high and every medium memory and no low one |
| ChatRoute.SelectedIsRankedPrefix | app/api/chat/route.ts:62-68 | The selected memories are the first ten of the high memories followed by the medium ones |
| ChatRoute.SelectedMemoriesRanked | app/api/chat/route.ts:62-68 | The selection holds min(10, n) memories, where n counts the high and medium ones; none is low; high precedes medium |
| ChatRoute.PartitionSelectableLength | app/api/chat/route.ts:63 | The number of high-or-medium memories is the number of high plus the number of medium |
| ChatRoute.SortPreservesLength | app/api/chat/route.ts:64-67 | Sorting keeps the number of memories |
| ChatRoute.MemoryContextLines | app/api/chat/route.ts:69-70 | The memory block is the selection rendered as "TYPE: title - content" lines joined by newlines |
| ChatRoute.PreambleWithoutSelectableMemories | app/api/chat/route.ts:61-72 | When memories are sent but all are low, the block is empty and the preamble is still appended |
| ChatRoute.ContextRoleOf | app/api/chat/route.ts:85 | A history entry's role is never the system role |
| ChatRoute.PushHistory | app/api/chat/route.ts:82-89 | The history loop appends every entry, role and content only, in order, after what is there |
| ChatRoute.AssembleContext | app/api/chat/route.ts:57-95 | The list is the system message with the enhanced prompt, then the last min(10, n) history turns in order, then the user turn; its length is 2 + min(10, n); only the first entry has the system role |
| ChatRoute.Post | app/api/chat/route.ts:31-108 | Invalid JSON or a provider failure gives 500 "Failed to generate response"; a missing message gives 400 "Message is required"; otherwise the stream goes to the routed provider with the assembled list, temperature and max tokens |
| ChatClient.WithContent | components/chat-interface.tsx:281-283 | Writing by id replaces the content of exactly the messages with that id and changes nothing else |
| ChatClient.SubmittedRequestAccepted | components/chat-interface.tsx:254-260 | A request the client can send always passes the endpoint's message check, and its history is the last min(10, n) messages from before the submit |
| ChatClient.NatToStringInjective | components/chat-interface.tsx:225-236 | Distinct instants give distinct decimal ids |
| ChatClient.WithContentOverwrite | components/chat-interface.tsx:286-292 | A later write by id overrides an earlier one, so the error text discards partial text |
| ChatClient.WithContentUnique | components/chat-interface.tsx:281-283 | When one message alone carries the id, the write changes only that message |
| ChatClient.SubmitShape | components/chat-interface.tsx:224-295 | After a submit the list has grown by two; the prefix is unchanged; the trimmed user turn sits just before the placeholder, which is tagged with the model and holds the streamed text, the error text, or nothing |
| ChatClient.DerivedTitleFinal | components/chat-interface.tsx:204 | A derived title is the first fifty characters followed by "...", at most 53 long, and never "New Conversation" |
| ChatClient.TitleDerivedOnce | components/chat-interface.tsx:195-210 | The first save of a "New Conversation" derives the title; later saves keep it and store the messages |
| ChatClient.SaveInto | components/chat-interface.tsx:197-208 | A save updates exactly the conversations with the current id |
| ChatClient.FindConversation | components/chat-interface.tsx:176 | The lookup returns the first conversation with that id, or none if no conversation has it |
| ChatClient.WithoutConversationExact | components/chat-interface.tsx:184 | Deleting removes exactly the conversations with that id, keeps the others, and the id is no longer found |
| ChatClient.RetitledFind | components/chat-interface.tsx:191-193 | After a rename the id is found with the new title and time; other ids are found as before |
| ChatClient.Persisted | components/chat-interface.tsx:152-156 | The conversation list is written only when it is non-empty |
| ChatClient.DeletingLastNotPersisted | components/chat-interface.tsx:152-156 | Deleting the only conversation is never written, so storage keeps it |
| ChatClient.Bump | components/chat-interface.tsx:344-345 | A reaction raises that counter by one, counting from zero, and leaves every other counter alone |
| ChatClient.ReactedExact | components/chat-interface.tsx:340-351 | A reaction changes only the reactions of the messages with that id |
| ChatClient.EditedExact | components/chat-interface.tsx:358-365 | A saved edit stores the trimmed text and the edited mark on the messages with that id only; saving it again changes nothing |
| ChatClient.AcceptedAreSmallFiles | components/chat-interface.tsx:378-396 | The attachments' names are the names of the files within 10 MiB, in order, and each attachment's size is within the limit |
| ChatClient.AcceptFiles | components/chat-interface.tsx:378-396 | The upload loop skips oversized files and turns each other file into one attachment |
| ChatClient.FilterMessagesExact | components/chat-interface.tsx:430-432 | The search keeps, in order, exactly the messages containing the query case-insensitively; an empty query keeps all |
| ChatClient.ExportFileName | components/chat-interface.tsx:298-311 | There is no export iff there are no messages |
| ChatClient.ExportFileNameSafe | components/chat-interface.tsx:311 | The file name is the title with each character outside ASCII letters and digits replaced by "_", lower-cased, plus ".json" |
| ChatClient.ExportTitleChoice | components/chat-interface.tsx:302 | The active conversation's non-empty title is used, otherwise "Conversation" |
| ChatClient.StreamReply | components/chat-interface.tsx:263-292 | After each chunk the placeholder holds all chunks so far and nothing else changes; a fault or a refused response leaves the error text |
| ChatClient.ChatInterface.constructor | components/chat-interface.tsx:86-105 | The client starts with no messages, no conversations, no active id, the default settings, and nothing stored |
| ChatClient.ChatInterface.CreateNewConversation | components/chat-interface.tsx:162-173 | A fresh "New Conversation" is put first and made current, and the messages are cleared |
| ChatClient.ChatInterface.LoadConversation | components/chat-interface.tsx:175-181 | A known id becomes current with its messages; an unknown id changes nothing |
| ChatClient.ChatInterface.DeleteConversation | components/chat-interface.tsx:183-189 | The id is removed; if it was current, the active id and the messages are cleared |
| ChatClient.ChatInterface.UpdateConversationTitle | components/chat-interface.tsx:191-193 | The conversations with that id take the title and time; nothing else changes |
| ChatClient.ChatInterface.SaveCurrentConversation | components/chat-interface.tsx:195-210 | With an active id and messages, the list is saved into that conversation; otherwise nothing changes |
| ChatClient.ChatInterface.PersistConversations | components/chat-interface.tsx:152-156 | The storage effect writes the list when it is non-empty |
| ChatClient.ChatInterface.HandleSubmit | components/chat-interface.tsx:216-296 | A blank input or a reply in flight changes nothing; otherwise the list becomes the streamed result of the two appends, the input is cleared, loading ends, and the request carries the pre-submit history; its two steps are the helpers `Submit` (the appends and the stream) and `BeginSubmit` (the appends before the stream) |
| ChatClient.ChatInterface.SetInput | components/chat-interface.tsx:854 | Typing sets the input to the text, and nothing else changes |
| ChatClient.ChatInterface.SetSettings | components/chat-interface.tsx:896-898 | The settings dialog's save replaces the client's settings wholesale, and nothing else changes |
| ChatClient.ChatInterface.AddReaction | components/chat-interface.tsx:340-351 | The messages take the reaction; nothing else changes |
| ChatClient.ChatInterface.StartEditingMessage | components/chat-interface.tsx:353-356 | The edit state holds the message's id and content |
| ChatClient.ChatInterface.SaveEditedMessage | components/chat-interface.tsx:358-368 | A non-blank edit of a message with a non-empty id is stored trimmed and marked; the edit state is always cleared |
| ChatClient.ChatInterface.CancelEditingMessage | components/chat-interface.tsx:370-373 | The edit state is cleared and the messages are untouched |
| ChatClient.ChatInterface.HandleFileUpload | components/chat-interface.tsx:375-409 | One "Uploaded N file(s): …" message is appended iff some file is within the limit |
| MemorySystem.ParseTagsClean | components/memory-system.tsx:72-75 | Every parsed tag is non-empty, trimmed and free of commas |
| MemorySystem.ParseTagsEmpty | components/memory-system.tsx:72-75 | An empty tag field gives no tags |
| MemorySystem.ParseTagsJoin | components/memory-system.tsx:72-75 | Clean tags joined with commas parse back to the same tags |
| MemorySystem.NewMemoryClean | components/memory-system.tsx:67-79 | A new memory keeps the form's kind and importance, has trimmed non-empty title and content, and clean tags |
| MemorySystem.WithoutMemoryExact | components/memory-system.tsx:91-93 | Deleting removes every memory with that id and keeps the others in order |
| MemorySystem.UpdatedExact | components/memory-system.tsx:95-96 | An update gives the memories with that id every given field (kind, title, content, tags, importance) and the new time, keeps their other fields, and leaves the other memories alone |
| MemorySystem.FilteredMemoriesExact | components/memory-system.tsx:100-106 | The search keeps, in order, exactly the memories whose title, content or some tag contains the query case-insensitively; an empty query keeps all |
| MemorySystem.Persisted | components/memory-system.tsx:58-62 | A signed-in user's non-empty list is written under their id; otherwise storage is unchanged |
| MemorySystem.DeletingLastMemoryNotPersisted | components/memory-system.tsx:58-62 | Deleting a user's only memory is never written |
| MemorySystem.MemoryStore.constructor | components/memory-system.tsx:27-40 | The store starts empty with the empty form |
| MemorySystem.MemoryStore.SetForm | components/memory-system.tsx:172-226 | A form field's edit replaces the form, and nothing else changes |
| MemorySystem.MemoryStore.AddMemory | components/memory-system.tsx:64-89 | A form with a blank title or content changes nothing; otherwise the new memory is put first and the form is reset |
| MemorySystem.MemoryStore.DeleteMemory | components/memory-system.tsx:91-93 | The memories with that id are removed |
| MemorySystem.MemoryStore.UpdateMemory | components/memory-system.tsx:95-98 | The update is merged and the edit state is cleared |
| MemorySystem.MemoryStore.SetEditing | components/memory-system.tsx:282-312 | The edit button sets the edited id, and done clears it; nothing else changes |
| MemorySystem.MemoryStore.PersistMemories | components/memory-system.tsx:58-62 | The storage effect writes only a signed-in user's non-empty list |
| CodeBlock.FenceSplit | components/code-block.tsx:28 | The split at the capture-group regular expression always has an odd number of pieces: text, then fence and text pairs |
| CodeBlock.FenceSplitConcat | components/code-block.tsx:28 | The split's pieces concatenate back to the content |
| CodeBlock.FenceSplitAlternates | components/code-block.tsx:28 | The split is text, fence, text, …, text. Every text piece before a fence holds no "```". Each fence is the first one, opened at the first "```" and closed at the first "```" at least three characters later, so it is the shortest (non-greedy) one. The last piece holds no complete fence |
| CodeBlock.AlternatingCutIsFenceSplit | components/code-block.tsx:28 | The split is the only alternating cut of the content: any list of pieces that alternates in that sense and concatenates to the content is the split |
| CodeBlock.GreedyCutDoesNotAlternate | components/code-block.tsx:28 | A greedy fence over "```a```b```" does not alternate, because its fence holds a "```" before its end |
| CodeBlock.FenceLanguage | components/code-block.tsx:33 | The language is never empty: "text" replaces an empty one |
| CodeBlock.Classify | components/code-block.tsx:30-47 | A piece is code iff it starts and ends with a fence; it keeps its split index; a text part keeps the piece |
| CodeBlock.SingleLineFenceIsEmpty | components/code-block.tsx:34 | A fence with no newline has an empty body |
| CodeBlock.FenceBodyLines | components/code-block.tsx:32-34 | The body splits back into exactly the lines between the first and the last |
| CodeBlock.ParseContentExact | components/code-block.tsx:27-50 | The parts are the non-blank classified pieces in split order, each with its split index, and the indices increase |
| CodeBlock.NumberCodeBlocks | components/code-block.tsx:53-59 | The render pass gives each code part the number of code parts before it, and text parts no number |
| CodeBlock.CodeBlocksBeforeMonotone | components/code-block.tsx:53-59 | The count of earlier code parts grows by one past each code part |
| CodeBlock.CodeBlockNumbering | components/code-block.tsx:53-59 | Code blocks are numbered 0, 1, 2, … in order, independent of the text parts |
| CodeBlock.CopyState.MarkCopied | components/code-block.tsx:15-17 | Copying adds the block's number to the ticked set |
| CodeBlock.CopyState.Expire | components/code-block.tsx:18-24 | The timer removes that number and no other |
| CodeBlock.LanguageClass | components/code-block.tsx:90-106 | A name is looked up lower-cased in the table, and "language-text" is used when it is absent |
| CodeBlock.TableClassesNameTheirKey | components/code-block.tsx:91-103 | Each of the eleven table entries is "language-" followed by its key |
| CodeBlock.LanguageClassShape | components/code-block.tsx:90-106 | The class ignores case and is "language-" followed by the lower-cased name or "text" |
| CodeBlock.ConstructorLanguageAsWritten | components/code-block.tsx:105 | As written, "constructor" looks up an inherited member of the object literal instead of a class name |
| CodeBlock.LanguageClassAgrees | components/code-block.tsx:105 | Away from the two inherited names, the lookup as written and the table-only lookup agree |
| PluginSystem.InitialInstalled | components/plugin-system.tsx:160-168 | The first installed list has one entry per flagged catalogue entry |
| PluginSystem.InitialConsistent | components/plugin-system.tsx:158-170 | With distinct ids, the loaded lists are consistent: flagged iff installed, installed ones are in the catalogue, and the enabled flags agree |
| PluginSystem.FindPlugin | components/plugin-system.tsx:174 | The lookup returns the first catalogue plugin with that id, or none if no plugin has it |
| PluginSystem.MarkInstalled | components/plugin-system.tsx:177-179 | Only the entries with that id are flagged installed and enabled |
| PluginSystem.InstallPreservesConsistency | components/plugin-system.tsx:173-190 | Installing a plugin that is not yet installed keeps the lists consistent |
| PluginSystem.MarkUninstalled | components/plugin-system.tsx:193-195 | Only the entries with that id lose both flags |
| PluginSystem.UninstallPreservesConsistency | components/plugin-system.tsx:192-198 | Uninstalling keeps the lists consistent and leaves no installed entry with that id |
| PluginSystem.FlipAvailable | components/plugin-system.tsx:202 | Only the catalogue entries with that id change their enabled flag |
| PluginSystem.FlipInstalled | components/plugin-system.tsx:201 | Only the installed entries with that id change their enabled flag |
| PluginSystem.TogglePreservesConsistency | components/plugin-system.tsx:200-203 | Toggling keeps the lists consistent |
| PluginSystem.ToggleTwiceRestores | components/plugin-system.tsx:200-203 | Toggling the same plugin twice restores both lists |
| PluginSystem.FilteredPluginsExact | components/plugin-system.tsx:205-211 | The filter keeps, in order, exactly the plugins matching the query in name or description and the selected category; an empty query with "all" keeps everything |
| PluginSystem.ActiveCount | components/plugin-system.tsx:438 | The active figure is the number of enabled installed plugins, at most the number installed |
| PluginSystem.UninstallActive | components/plugin-system.tsx:192-198 | After an uninstall no active plugin has that id, and the active count does not grow |
| PluginSystem.PluginRegistry.constructor | components/plugin-system.tsx:49-53 | The registry starts empty, with category "all" and loading |
| PluginSystem.PluginRegistry.Load | components/plugin-system.tsx:158-170 | The catalogue and its flagged entries are loaded and loading ends |
| PluginSystem.PluginRegistry.InstallPlugin | components/plugin-system.tsx:173-190 | An unknown id changes nothing; otherwise exactly one entry is appended, with no duplicate check |
| PluginSystem.PluginRegistry.UninstallPlugin | components/plugin-system.tsx:192-198 | Both flags are cleared and every installed entry with that id is removed |
| PluginSystem.PluginRegistry.TogglePlugin | components/plugin-system.tsx:200-203 | The enabled flag flips in both lists |
| PluginSystem.PluginRegistry.SetSearch | components/plugin-system.tsx:250-261 | The search box and the category buttons set the query and the category; the lists and the loading flag are unchanged |
| ConversationSidebar.SaveOutcome | components/conversation-sidebar.tsx:56-59 | A rename is emitted iff an id is being edited and the title is not blank; the title is trimmed and non-empty |
| ConversationSidebar.SaveRenames | components/conversation-sidebar.tsx:56-59 | The emitted rename, applied by the client, gives the conversation the trimmed title and leaves the others unchanged |
| ConversationSidebar.TitleEditor.StartEditing | components/conversation-sidebar.tsx:51-54 | The editor holds the conversation's id and title |
| ConversationSidebar.TitleEditor.SetEditTitle | components/conversation-sidebar.tsx:102 | Typing sets the edited title and keeps the edited id |
| ConversationSidebar.TitleEditor.SaveEdit | components/conversation-sidebar.tsx:56-62 | Saving emits the rename's outcome and always returns to idle |
| ConversationSidebar.TitleEditor.CancelEdit | components/conversation-sidebar.tsx:64-67 | Cancelling returns to idle and emits nothing |
| ChatSettings.MaxTokensFrom | components/chat-settings.tsx:280-282 | The max tokens are never zero: a text that does not parse as an integer, or parses to 0, gives 2048; any other parsed value is kept |
| ChatSettings.MaxTokensRoundTrip | components/chat-settings.tsx:280-282 | A typed positive number is kept as is; zero becomes 2048 |
| ChatSettings.MaxTokensNegative | components/chat-settings.tsx:280-286 | A typed negative number is kept: the input's 100 and 8192 limits are not enforced |
| ChatSettings.MaxTokensEmpty | components/chat-settings.tsx:280-282 | An empty field gives 2048 |
| ChatSettings.SettingsDialog.HandleSave | components/chat-settings.tsx:80-83 | Saving hands back exactly the working copy and closes |
| ChatSettings.SettingsDialog.HandleReset | components/chat-settings.tsx:85-87 | Reset gives grok, 0.7, 2048, the default prompt and auto |
| ChatSettings.SettingsDialog.ApplyPreset | components/chat-settings.tsx:89-91 | A preset changes only the system prompt |
| ChatSettings.SettingsDialog.SelectModel | components/chat-settings.tsx:157 | A model card changes only the model |
| ChatSettings.SettingsDialog.SetTemperature | components/chat-settings.tsx:259 | The slider changes only the temperature |
| ChatSettings.SettingsDialog.SetMaxTokens | components/chat-settings.tsx:280-282 | The field changes only the max tokens, to the parsed value or the fallback |
| ChatSettings.SettingsDialog.SetSystemPrompt | components/chat-settings.tsx:211 | The prompt box changes only the system prompt |
| ChatSettings.SettingsDialog.SetTheme | components/chat-settings.tsx:294-296 | The theme select changes only the theme |

A few behaviours are kept as the code has them:

- The memory preamble is appended whenever any memory is sent, even when every memory is
  low and the block is empty.
- The error text overwrites partial streamed text.
- "..." is appended even to a short derived title.
- Lists are written to storage only when they are non-empty.
- The sidebar treats an empty conversation id as "not editing", because the source tests
  the id for truthiness. Conversation ids are decimal timestamps and never empty.
- When there is no active conversation, a submit first creates one, which clears the message
  list. The request still carries the history from before the submit.

## Left out

- Storage is not modelled as JSON: the `localStorage` load of conversations, settings and memories, and the date revival, are I/O over untyped JSON. Storage is a "last written value" field that keeps the write-when-non-empty rule.
- The request body is a typed `ChatRequest`: a body whose JSON fields have the wrong type is not modelled. For example, a memory without `type` makes the `toUpperCase` call (app/api/chat/route.ts:69) throw, and the catch answers 500.
- The settings-persist effect of the chat client is not modelled: it writes the settings on every change, with no condition to prove.
- The provider SDK calls (`streamText`, the provider factories, `toTextStreamResponse`), `fetch` and `TextDecoder` are foreign calls. The endpoint takes a "provider fails" flag. The client takes a `StreamOutcome`: either a refused response, or chunks ending with or without a fault.
- `Date.now()`, `new Date()` and `Math.random()` are clock and randomness reads, and are parameters instead. The plugin panel's random last-used times are a function argument to `Load`.
- The several clock reads of one handler call become one `now`: during a submit, the new conversation's id, the user message's id and the placeholder's id `now + 1` (components/chat-interface.tsx:164, 225, 236) share it, as do the attachment ids of one upload (components/chat-interface.tsx:390). The model does not capture the clock advancing between those reads; `ChatClient.SubmitShape`'s fresh-id requirement is stated for that single instant.
- `URL.createObjectURL`, the clipboard write, speech recognition, scrolling, drag events, `alert` and the two-second timer are browser I/O. The timer is the `Expire` method, which the environment calls.
- React batching and async interleaving are not modelled. `handleSubmit` is one sequential run over the given chunks, and the `isLoading` guard is the only control against re-entry.
- The temperature and the plugin rating are floating-point values carried as opaque `real`s and never computed with.
- The plugin panel's mock catalogue data (six plugins, two of them installed) is not reproduced: `Load` accepts any catalogue. The consistency lemma assumes distinct ids, which the mock data has.
- The settings dialog's preset catalogue and its descriptions are display data. `ApplyPreset` takes the chosen prompt.
- JSX rendering, CSS classes other than the language class, and the open/close flags of the other panels are presentation.
- ChatClient.ChatInterface.SaveCurrentConversation, HandleSubmit, Submit and BeginSubmit test the active id for presence, where the source tests it for truthiness (components/chat-interface.tsx:196, 220). The two differ only on an empty id, and there is none: every conversation id is `NatToString(now)`, which is never empty, and the active id is always one of those.
- String slicing and `toLowerCase` work on Dafny characters (Unicode scalar values), whereas JavaScript uses UTF-16 code units. Case folding covers ASCII letters only.

## Findings

| source | as written | input that shows it | evidently intended | confidence | as-written member | corrected member |
|---|---|---|---|---|---|---|
| components/code-block.tsx:105 | `languageMap[language.toLowerCase()]` is a property lookup on a plain object literal, so the names of inherited members resolve to those members | a code fence tagged "constructor" (or "__proto__") gets the `Object` function (or `Object.prototype`) as its class instead of a class name | names outside the eleven table entries map to "language-text" | not executed | CodeBlock.ConstructorLanguageAsWritten | CodeBlock.LanguageClass |
