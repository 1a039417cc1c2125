/** The memory panel: the signed-in user's list of memories, the "add memory" form, the
    id being edited and the search box. Ids and timestamps (`Date.now()`) are supplied by
    the caller; storage is the map from user id to the list last written for that user. */
module MemorySystem {
  import opened Wrappers
  import opened Seqs
  import opened Text
  import opened ChatTypes

  /** The add form; `tags` is the raw comma-separated text. */
  datatype MemoryForm = MemoryForm(kind: MemoryKind, title: string, content: string, tags: string, importance: Importance)

  /** What an edit may change; absent fields keep their value. */
  datatype MemoryUpdate = MemoryUpdate(
    kind: Option<MemoryKind>,
    title: Option<string>,
    content: Option<string>,
    tags: Option<seq<string>>,
    importance: Option<Importance>)

  /** The form as it opens and as it is reset after an add. */
  const EmptyForm: MemoryForm := MemoryForm(Personal, "", "", "", Medium)

  // ---------------------------------------------------------------------------
  // Adding

  predicate CanAdd(form: MemoryForm) {
    Trim(form.title) != "" && Trim(form.content) != ""
  }

  predicate NonEmpty(s: string) { s != "" }

  /** Comma-separated tags: split at every comma, trim each piece, drop the empty ones. */
  function ParseTags(s: string): seq<string> {
    Filter(NonEmpty, Map(Trim, Split(s, ',')))
  }

  /** Trimming a comma-free piece leaves it comma-free. */
  lemma TrimKeepsCommaFree(s: string)
    requires ',' !in s
    ensures ',' !in Trim(s)
  {
    var r := Trim(s);
    var a, b :| 0 <= a <= b <= |s| && r == s[a..b] && IsBlank(s[..a]) && IsBlank(s[b..]);
    forall i | 0 <= i < |r| ensures r[i] != ',' {
      assert r[i] == s[a + i];
    }
  }

  /** Every parsed tag is non-empty, already trimmed and free of commas. */
  lemma ParseTagsClean(s: string)
    ensures forall i :: 0 <= i < |ParseTags(s)| ==>
              var t := ParseTags(s)[i]; t != "" && Trim(t) == t && ',' !in t
  {
    var pieces := Split(s, ',');
    var trimmed := Map(Trim, pieces);
    FilterMembers(NonEmpty, trimmed);
    forall j | 0 <= j < |trimmed| ensures Trim(trimmed[j]) == trimmed[j] && ',' !in trimmed[j] {
      TrimIdempotent(pieces[j]);
      TrimKeepsCommaFree(pieces[j]);
    }
  }

  /** An empty tag field parses to no tags. */
  lemma ParseTagsEmpty()
    ensures ParseTags("") == []
  {
    assert Split("", ',') == [""];
    TrimEmptyIffBlank("");
    assert Map(Trim, [""]) == [""];
    FilterSingleton(NonEmpty, "");
  }

  /** Writing clean tags with commas between them and parsing the text gives the tags back. */
  lemma {:induction false} ParseTagsJoin(tags: seq<string>)
    requires forall i :: 0 <= i < |tags| ==> tags[i] != "" && Trim(tags[i]) == tags[i] && ',' !in tags[i]
    ensures ParseTags(Join(tags, ",")) == tags
  {
    if tags == [] {
      ParseTagsEmpty();
    } else {
      SplitJoin(tags, ',');
      var trimmed := Map(Trim, tags);
      assert trimmed == tags by {
        forall i | 0 <= i < |tags| ensures trimmed[i] == tags[i] {
        }
      }
      FilterAll(NonEmpty, tags);
    }
  }

  function NewMemory(form: MemoryForm, now: nat): MemoryItem {
    MemoryItem(NatToString(now), form.kind, Trim(form.title), Trim(form.content), ParseTags(form.tags), now, now,
               form.importance)
  }

  /** A memory made from an accepted form keeps its kind and importance and has trimmed,
      non-blank title and content and clean tags. */
  lemma NewMemoryClean(form: MemoryForm, now: nat)
    requires CanAdd(form)
    ensures var m := NewMemory(form, now);
            && m.kind == form.kind && m.importance == form.importance
            && m.title != "" && Trim(m.title) == m.title
            && m.content != "" && Trim(m.content) == m.content
            && m.createdAt == m.updatedAt == now
            && forall i :: 0 <= i < |m.tags| ==> m.tags[i] != "" && Trim(m.tags[i]) == m.tags[i]
  {
    TrimIdempotent(form.title);
    TrimIdempotent(form.content);
    ParseTagsClean(form.tags);
  }

  // ---------------------------------------------------------------------------
  // Deleting and updating

  function WithoutMemory(ms: seq<MemoryItem>, id: string): seq<MemoryItem> {
    Filter((m: MemoryItem) => m.id != id, ms)
  }

  /** Deleting removes every memory with that id and keeps the others. */
  lemma WithoutMemoryExact(ms: seq<MemoryItem>, id: string)
    ensures forall i :: 0 <= i < |WithoutMemory(ms, id)| ==> WithoutMemory(ms, id)[i].id != id && WithoutMemory(ms, id)[i] in ms
    ensures forall i :: 0 <= i < |ms| && ms[i].id != id ==> ms[i] in WithoutMemory(ms, id)
    ensures (forall i :: 0 <= i < |ms| ==> ms[i].id != id) ==> WithoutMemory(ms, id) == ms
  {
    var p := (m: MemoryItem) => m.id != id;
    FilterMembers(p, ms);
    if forall i :: 0 <= i < |ms| ==> ms[i].id != id {
      FilterAll(p, ms);
    }
  }

  /** `{ ...mem, ...updates, updatedAt: now }`. */
  function Merge(m: MemoryItem, u: MemoryUpdate, now: Timestamp): MemoryItem {
    m.(kind := u.kind.GetOr(m.kind), title := u.title.GetOr(m.title), content := u.content.GetOr(m.content),
       tags := u.tags.GetOr(m.tags), importance := u.importance.GetOr(m.importance), updatedAt := now)
  }

  function Updated(ms: seq<MemoryItem>, id: string, u: MemoryUpdate, now: Timestamp): (r: seq<MemoryItem>)
    ensures |r| == |ms|
  {
    Map((m: MemoryItem) => if m.id == id then Merge(m, u, now) else m, ms)
  }

  /** An update rewrites only the memories with that id: each takes the given fields and
      the new update time and keeps its id, creation time and every field not given. */
  lemma UpdatedExact(ms: seq<MemoryItem>, id: string, u: MemoryUpdate, now: Timestamp)
    ensures forall i :: 0 <= i < |ms| && ms[i].id != id ==> Updated(ms, id, u, now)[i] == ms[i]
    ensures forall i :: 0 <= i < |ms| && ms[i].id == id ==>
              var m, n := ms[i], Updated(ms, id, u, now)[i];
              && n.id == m.id && n.createdAt == m.createdAt && n.updatedAt == now
              && (u.title.Some? ==> n.title == u.title.value) && (u.title.None? ==> n.title == m.title)
              && (u.content.Some? ==> n.content == u.content.value) && (u.content.None? ==> n.content == m.content)
              && (u.tags.Some? ==> n.tags == u.tags.value) && (u.tags.None? ==> n.tags == m.tags)
              && (u.kind.Some? ==> n.kind == u.kind.value) && (u.kind.None? ==> n.kind == m.kind)
              && (u.importance.Some? ==> n.importance == u.importance.value)
              && (u.importance.None? ==> n.importance == m.importance)
  {
  }

  // ---------------------------------------------------------------------------
  // Search and storage

  predicate MemoryMatches(m: MemoryItem, query: string) {
    || query == ""
    || ContainsIgnoringCase(m.title, query)
    || ContainsIgnoringCase(m.content, query)
    || exists i :: 0 <= i < |m.tags| && ContainsIgnoringCase(m.tags[i], query)
  }

  function FilteredMemories(ms: seq<MemoryItem>, query: string): seq<MemoryItem> {
    Filter((m: MemoryItem) => MemoryMatches(m, query), ms)
  }

  /** The search keeps, in order, exactly the memories whose title, content or some tag
      contains the query ignoring case; an empty query keeps all. */
  lemma FilteredMemoriesExact(ms: seq<MemoryItem>, query: string)
    ensures forall i :: 0 <= i < |FilteredMemories(ms, query)| ==>
              FilteredMemories(ms, query)[i] in ms && MemoryMatches(FilteredMemories(ms, query)[i], query)
    ensures forall i :: 0 <= i < |ms| && MemoryMatches(ms[i], query) ==> ms[i] in FilteredMemories(ms, query)
    ensures query == "" ==> FilteredMemories(ms, query) == ms
  {
    var p := (m: MemoryItem) => MemoryMatches(m, query);
    FilterMembers(p, ms);
    if query == "" {
      FilterAll(p, ms);
    }
  }

  /** The storage effect: a signed-in user's non-empty list is written under their id;
      otherwise storage is left alone. */
  function Persisted(stored: map<string, seq<MemoryItem>>, user: Option<string>, ms: seq<MemoryItem>)
    : (r: map<string, seq<MemoryItem>>)
    ensures user.Some? && ms != [] ==> r == stored[user.value := ms]
    ensures user.None? || ms == [] ==> r == stored
  {
    if user.Some? && |ms| > 0 then stored[user.value := ms] else stored
  }

  /** Deleting a user's only memory is never written: storage still holds it. */
  lemma DeletingLastMemoryNotPersisted(stored: map<string, seq<MemoryItem>>, user: Option<string>, m: MemoryItem)
    ensures Persisted(stored, user, WithoutMemory([m], m.id)) == stored
  {
    FilterSingleton((x: MemoryItem) => x.id != m.id, m);
  }

  // ---------------------------------------------------------------------------
  // The component

  class MemoryStore {
    var memories: seq<MemoryItem>
    var form: MemoryForm
    var editingId: Option<string>
    var searchQuery: string
    var user: Option<string>
    var stored: map<string, seq<MemoryItem>>

    constructor (user: Option<string>, stored: map<string, seq<MemoryItem>>)
      ensures memories == [] && form == EmptyForm && editingId == None && searchQuery == ""
      ensures this.user == user && this.stored == stored
    {
      memories := [];
      form := EmptyForm;
      editingId := None;
      searchQuery := "";
      this.user := user;
      this.stored := stored;
    }

    method SetForm(f: MemoryForm)
      modifies this
      ensures form == f
      ensures memories == old(memories) && editingId == old(editingId) && searchQuery == old(searchQuery)
      ensures user == old(user) && stored == old(stored)
    {
      form := f;
    }

    /** A valid form becomes a new memory at the front of the list and the form is reset;
        an invalid form changes nothing. */
    method AddMemory(now: nat)
      modifies this
      ensures CanAdd(old(form)) ==> memories == [NewMemory(old(form), now)] + old(memories) && form == EmptyForm
      ensures !CanAdd(old(form)) ==> memories == old(memories) && form == old(form)
      ensures editingId == old(editingId) && searchQuery == old(searchQuery)
      ensures user == old(user) && stored == old(stored)
    {
      if !CanAdd(form) {
        return;
      }
      var memory := NewMemory(form, now);
      memories := [memory] + memories;
      form := EmptyForm;
    }

    method DeleteMemory(id: string)
      modifies this
      ensures memories == WithoutMemory(old(memories), id)
      ensures form == old(form) && editingId == old(editingId) && searchQuery == old(searchQuery)
      ensures user == old(user) && stored == old(stored)
    {
      memories := WithoutMemory(memories, id);
    }

    /** Applies the update to the memories with that id and leaves edit mode. */
    method UpdateMemory(id: string, u: MemoryUpdate, now: Timestamp)
      modifies this
      ensures memories == Updated(old(memories), id, u, now)
      ensures editingId == None
      ensures form == old(form) && searchQuery == old(searchQuery)
      ensures user == old(user) && stored == old(stored)
    {
      memories := Updated(memories, id, u, now);
      editingId := None;
    }

    method SetEditing(id: Option<string>)
      modifies this
      ensures editingId == id
      ensures memories == old(memories) && form == old(form) && searchQuery == old(searchQuery)
      ensures user == old(user) && stored == old(stored)
    {
      editingId := id;
    }

    /** The storage effect, run after the list or the user changes. */
    method PersistMemories()
      modifies this
      ensures stored == Persisted(old(stored), old(user), old(memories))
      ensures memories == old(memories) && form == old(form) && editingId == old(editingId)
      ensures searchQuery == old(searchQuery) && user == old(user)
    {
      if user.Some? && |memories| > 0 {
        stored := stored[user.value := memories];
      }
    }
  }
}
