/** The conversation sidebar's title editor: which conversation is being renamed, the title
    being typed, and the rename it hands to the chat client when the edit is saved. */
module ConversationSidebar {
  import opened Wrappers
  import opened Text
  import opened ChatTypes
  import ChatClient

  /** The `onUpdateTitle(id, title)` callback's arguments. */
  datatype TitleUpdate = TitleUpdate(id: string, title: string)

  /** What saving emits: a rename only when a conversation is being edited (an empty id is
      falsy and counts as none) and the typed title is not blank; the title is trimmed. */
  function SaveOutcome(editingId: Option<string>, editTitle: string): (r: Option<TitleUpdate>)
    ensures r.Some? <==> editingId.Some? && editingId.value != "" && !IsBlank(editTitle)
    ensures r.Some? ==> r.value.id == editingId.value && r.value.title != "" && Trim(r.value.title) == r.value.title
  {
    TrimEmptyIffBlank(editTitle);
    TrimIdempotent(editTitle);
    if editingId.Some? && editingId.value != "" && Trim(editTitle) != "" then
      Some(TitleUpdate(editingId.value, Trim(editTitle)))
    else
      None
  }

  /** A saved rename, applied by the chat client, gives the conversation the trimmed title
      and leaves every other conversation as it was. */
  lemma SaveRenames(cs: seq<Conversation>, c: Conversation, editTitle: string, now: Timestamp, other: string)
    requires ChatClient.FindConversation(cs, c.id) == Some(c)
    requires SaveOutcome(Some(c.id), editTitle).Some?
    ensures ChatClient.FindConversation(ChatClient.Retitled(cs, c.id, SaveOutcome(Some(c.id), editTitle).value.title, now), c.id)
            == Some(c.(title := Trim(editTitle), updatedAt := now))
    ensures other != c.id ==>
              ChatClient.FindConversation(ChatClient.Retitled(cs, c.id, SaveOutcome(Some(c.id), editTitle).value.title, now), other)
              == ChatClient.FindConversation(cs, other)
  {
    ChatClient.RetitledFind(cs, c.id, Trim(editTitle), now, other);
  }

  class TitleEditor {
    var editingId: Option<string>
    var editTitle: string

    /** Nothing is being edited. */
    predicate Idle()
      reads this
    {
      editingId.None? && editTitle == ""
    }

    constructor ()
      ensures Idle()
    {
      editingId := None;
      editTitle := "";
    }

    method StartEditing(c: Conversation)
      modifies this
      ensures editingId == Some(c.id) && editTitle == c.title
    {
      editingId := Some(c.id);
      editTitle := c.title;
    }

    method SetEditTitle(title: string)
      modifies this
      ensures editTitle == title && editingId == old(editingId)
    {
      editTitle := title;
    }

    /** Emits the rename, if any, and always returns to idle. */
    method SaveEdit() returns (update: Option<TitleUpdate>)
      modifies this
      ensures update == SaveOutcome(old(editingId), old(editTitle))
      ensures Idle()
    {
      update := SaveOutcome(editingId, editTitle);
      editingId := None;
      editTitle := "";
    }

    /** Returns to idle without emitting anything. */
    method CancelEdit()
      modifies this
      ensures Idle()
    {
      editingId := None;
      editTitle := "";
    }
  }
}
