/**
 * Conversations: the record of one processed voice session (the classified
 * intent, the data extracted from the assistant's answer and its reply
 * text), the link rows tying a conversation to the memories and reminders it
 * produced, and `ConversationRepository`'s queries and `create`.
 *
 * A conversation belongs to exactly one voice session: the
 * `voice_session_id` column is unique, so a second conversation for the same
 * session fails on insert.
 */
module Conversations {
  import opened Wrappers
  import opened Sequences
  import opened MemoryStore
  import opened Assistant

  /** `parsed_data`: the saved memory's fields, the ids a query found, or nothing. */
  datatype ParsedData =
    | SavedData(memoryType: string, keywords: string, content: string, metadata: Option<Metadata>)
    | QueryData(relatedMemoryIds: seq<int>)
    | NoData

  datatype Conversation = Conversation(
    id: int, voiceSessionId: int, userId: int, intent: IntentType, parsedData: ParsedData,
    assistantResponse: string, createdAt: int)

  /** A row of `conversation_memory_link` or `conversation_reminder_link`. */
  datatype Link = Link(conversationId: int, targetId: int)

  datatype StoreError = DuplicateVoiceSession

  function ConversationId(c: Conversation): int { c.id }

  function VoiceKey(c: Conversation): int { c.voiceSessionId }

  function Recency(c: Conversation): real { c.createdAt as real }

  predicate VisibleTo(c: Conversation, userId: Option<int>) {
    userId.None? || c.userId == userId.value
  }

  /** An id list that may be absent: `None` and `[]` both mean no links. */
  function IdsOf(ids: Option<seq<int>>): seq<int> {
    if ids.Some? then ids.value else []
  }

  /** One link row per id, in order, all pointing at conversation `cid`. */
  function LinksFor(cid: int, ids: seq<int>): (r: seq<Link>)
    ensures |r| == |ids|
  {
    seq(|ids|, i requires 0 <= i < |ids| => Link(cid, ids[i]))
  }

  // ---------------------------------------------------------------------------
  // Queries

  /** `get_by_id`: the row with that id, hidden when a user is given and it is not theirs. */
  function FindConversation(rows: seq<Conversation>, id: int, userId: Option<int>): (r: Option<Conversation>)
    ensures r.Some? ==> r.value in rows && r.value.id == id && VisibleTo(r.value, userId)
    ensures r.None? <==> forall i :: 0 <= i < |rows| ==> !(rows[i].id == id && VisibleTo(rows[i], userId))
  {
    FirstMatch(rows, (c: Conversation) => c.id == id && VisibleTo(c, userId))
  }

  /** `get_by_voice_session_id`. */
  function FindByVoiceSession(rows: seq<Conversation>, voiceSessionId: int): (r: Option<Conversation>)
    ensures r.Some? ==> r.value in rows && r.value.voiceSessionId == voiceSessionId
    ensures r.None? <==> forall i :: 0 <= i < |rows| ==> rows[i].voiceSessionId != voiceSessionId
  {
    FirstMatch(rows, (c: Conversation) => c.voiceSessionId == voiceSessionId)
  }

  /** `get_all_by_user`: the user's conversations, newest first, then OFFSET and LIMIT. */
  function AllByUser(rows: seq<Conversation>, userId: int, limit: nat, offset: nat): seq<Conversation> {
    Page(Newest(rows, userId), offset, limit)
  }

  /** The rows `get_all_by_user` pages through: the user's conversations, newest first. */
  function Newest(rows: seq<Conversation>, userId: int): (s: seq<Conversation>)
    ensures forall c :: c in s <==> c in rows && c.userId == userId
    ensures forall c :: multiset(s)[c] == if c.userId == userId then multiset(rows)[c] else 0
    ensures forall i, j :: 0 <= i < j < |s| ==> s[i].createdAt >= s[j].createdAt
  {
    SortedFilterMembers(rows, (c: Conversation) => c.userId == userId, Recency);
    SortDesc(Owned(rows, userId), Recency)
  }

  function Owned(rows: seq<Conversation>, userId: int): seq<Conversation> {
    Filter(rows, (c: Conversation) => c.userId == userId)
  }

  /** Another owner's conversation is invisible to a user; without a user, every row is found by its id. */
  lemma FindConversationOwnership(rows: seq<Conversation>, i: nat, u: int)
    requires UniqueBy(rows, ConversationId) && i < |rows|
    ensures FindConversation(rows, rows[i].id, None) == Some(rows[i])
    ensures rows[i].userId != u ==> FindConversation(rows, rows[i].id, Some(u)).None?
    ensures rows[i].userId == u ==> FindConversation(rows, rows[i].id, Some(u)) == Some(rows[i])
  {
    FindByUniqueKey(rows, ConversationId, i, (c: Conversation) => c.id == rows[i].id && VisibleTo(c, None));
    if rows[i].userId == u {
      FindByUniqueKey(rows, ConversationId, i, (c: Conversation) => c.id == rows[i].id && VisibleTo(c, Some(u)));
    }
  }

  /** The voice session's conversation is the one row carrying its id (the relation is one to one). */
  lemma FindByVoiceSessionUnique(rows: seq<Conversation>, i: nat)
    requires UniqueBy(rows, VoiceKey) && i < |rows|
    ensures FindByVoiceSession(rows, rows[i].voiceSessionId) == Some(rows[i])
  {
    FindByUniqueKey(rows, VoiceKey, i, (c: Conversation) => c.voiceSessionId == rows[i].voiceSessionId);
  }

  /** The list holds only the user's own conversations, newest first. */
  lemma AllByUserSpec(rows: seq<Conversation>, userId: int, limit: nat, offset: nat)
    ensures var r := AllByUser(rows, userId, limit, offset);
      |r| <= limit
      && (forall i :: 0 <= i < |r| ==> r[i] in rows && r[i].userId == userId)
      && (forall i, j :: 0 <= i < j < |r| ==> r[i].createdAt >= r[j].createdAt)
  {
    var s := Newest(rows, userId);
    var r := Page(s, offset, limit);
    forall i | 0 <= i < |r|
      ensures r[i] in rows && r[i].userId == userId
    {
      assert r[i] == s[offset + i];
    }
    forall i, j | 0 <= i < j < |r|
      ensures r[i].createdAt >= r[j].createdAt
    {
      assert r[i] == s[offset + i] && r[j] == s[offset + j];
    }
  }

  /** The page length: as many as the user's conversations past the offset allow, up to the limit. */
  lemma AllByUserSize(rows: seq<Conversation>, userId: int, limit: nat, offset: nat)
    ensures var owned := Owned(rows, userId);
      var r := AllByUser(rows, userId, limit, offset);
      && (offset < |owned| ==> |r| == Min(limit, |owned| - offset))
      && (offset >= |owned| ==> r == [])
  {
    var f := Owned(rows, userId);
    var s := Newest(rows, userId);
    assert |s| == |multiset(s)| == |multiset(f)| == |f|;
  }

  /**
   * None of the user's conversations is lost: each has a place in the
   * newest-first list, and it is on the page whenever that place falls within
   * the window the offset and the limit select.
   */
  lemma AllByUserComplete(rows: seq<Conversation>, userId: int, limit: nat, offset: nat, c: Conversation)
    requires c in rows && c.userId == userId
    ensures var s := Newest(rows, userId);
      var r := AllByUser(rows, userId, limit, offset);
      exists k :: 0 <= k < |s| && s[k] == c && (offset <= k < offset + limit ==> c in r)
  {
    var s := Newest(rows, userId);
    var r := AllByUser(rows, userId, limit, offset);
    var k :| 0 <= k < |s| && s[k] == c;
    if offset <= k < offset + limit {
      assert r[k - offset] == c;
    }
  }

  /** The link rows are exactly the pairs `(cid, id)` for the given ids. */
  lemma LinksForSpec(cid: int, ids: seq<int>)
    ensures forall l :: l in LinksFor(cid, ids) ==> l.conversationId == cid && l.targetId in ids
    ensures forall m :: m in ids ==> Link(cid, m) in LinksFor(cid, ids)
  {
    var r := LinksFor(cid, ids);
    forall m | m in ids
      ensures Link(cid, m) in r
    {
      var k :| 0 <= k < |ids| && ids[k] == m;
      assert r[k] == Link(cid, m);
    }
  }

  lemma LinksForSnoc(cid: int, ids: seq<int>, k: nat)
    requires k < |ids|
    ensures LinksFor(cid, ids[..k + 1]) == LinksFor(cid, ids[..k]) + [Link(cid, ids[k])]
  {
  }

  /** Appending a row under a fresh id, for a voice session without a conversation, keeps both keys unique. */
  lemma InsertKeepsUnique(rows: seq<Conversation>, x: Conversation, nextId: int)
    requires UniqueBy(rows, ConversationId) && UniqueBy(rows, VoiceKey)
    requires forall i :: 0 <= i < |rows| ==> 1 <= rows[i].id < nextId
    requires FindByVoiceSession(rows, x.voiceSessionId).None? && x.id == nextId && nextId >= 1
    ensures UniqueBy(rows + [x], ConversationId) && UniqueBy(rows + [x], VoiceKey)
    ensures forall i :: 0 <= i < |rows + [x]| ==> 1 <= (rows + [x])[i].id < nextId + 1
    ensures FindConversation(rows + [x], x.id, None) == Some(x)
    ensures FindByVoiceSession(rows + [x], x.voiceSessionId) == Some(x)
  {
    UniqueSnoc(rows, x, ConversationId);
    UniqueSnoc(rows, x, VoiceKey);
    FindConversationOwnership(rows + [x], |rows|, 0);
    FindByVoiceSessionUnique(rows + [x], |rows|);
  }

  /** The loop of `create` over one id list: one link row added per id, in order. */
  method AppendLinks(links: seq<Link>, cid: int, ids: seq<int>) returns (r: seq<Link>)
    ensures r == links + LinksFor(cid, ids)
  {
    r := links;
    var i := 0;
    while i < |ids|
      invariant 0 <= i <= |ids|
      invariant r == links + LinksFor(cid, ids[..i])
    {
      LinksForSnoc(cid, ids, i);
      r := r + [Link(cid, ids[i])];
      i := i + 1;
    }
    assert ids[..|ids|] == ids;
  }

  // ---------------------------------------------------------------------------
  // The table

  class ConversationRepository {
    var rows: seq<Conversation>
    var memoryLinks: seq<Link>
    var reminderLinks: seq<Link>
    var nextId: int

    ghost predicate Valid()
      reads this
    {
      UniqueBy(rows, ConversationId) && UniqueBy(rows, VoiceKey)
      && (forall i :: 0 <= i < |rows| ==> 1 <= rows[i].id < nextId) && nextId >= 1
    }

    constructor ()
      ensures Valid() && rows == [] && memoryLinks == [] && reminderLinks == [] && nextId == 1
    {
      rows := [];
      memoryLinks := [];
      reminderLinks := [];
      nextId := 1;
    }

    function GetById(id: int, userId: Option<int>): (r: Option<Conversation>)
      reads this
      ensures r == FindConversation(rows, id, userId)
    {
      FindConversation(rows, id, userId)
    }

    function GetByVoiceSessionId(voiceSessionId: int): (r: Option<Conversation>)
      reads this
      ensures r == FindByVoiceSession(rows, voiceSessionId)
    {
      FindByVoiceSession(rows, voiceSessionId)
    }

    function GetAllByUser(userId: int, limit: nat, offset: nat): (r: seq<Conversation>)
      reads this
      ensures r == AllByUser(rows, userId, limit, offset)
    {
      AllByUser(rows, userId, limit, offset)
    }

    /** The link rows of `create`: one per memory id, then one per reminder id. */
    method AddLinks(cid: int, memoryIds: seq<int>, reminderIds: seq<int>)
      modifies this
      ensures rows == old(rows) && nextId == old(nextId)
      ensures memoryLinks == old(memoryLinks) + LinksFor(cid, memoryIds)
      ensures reminderLinks == old(reminderLinks) + LinksFor(cid, reminderIds)
    {
      var m := AppendLinks(memoryLinks, cid, memoryIds);
      var r := AppendLinks(reminderLinks, cid, reminderIds);
      memoryLinks, reminderLinks := m, r;
    }

    /**
     * `create`: insert the conversation under the next id, then one link row
     * per memory id and one per reminder id; nothing else is written. A
     * voice session that already has a conversation fails and writes nothing.
     */
    method Create(c: Conversation, memoryIds: Option<seq<int>>, reminderIds: Option<seq<int>>)
      returns (r: Result<Conversation, StoreError>)
      requires Valid()
      modifies this
      ensures Valid()
      ensures old(FindByVoiceSession(rows, c.voiceSessionId)).Some? ==>
        r == Failure(DuplicateVoiceSession) && rows == old(rows) && nextId == old(nextId)
        && memoryLinks == old(memoryLinks) && reminderLinks == old(reminderLinks)
      ensures old(FindByVoiceSession(rows, c.voiceSessionId)).None? ==>
        r == Success(c.(id := old(nextId))) && rows == old(rows) + [r.value] && nextId == old(nextId) + 1
        && memoryLinks == old(memoryLinks) + LinksFor(r.value.id, IdsOf(memoryIds))
        && reminderLinks == old(reminderLinks) + LinksFor(r.value.id, IdsOf(reminderIds))
      ensures r.Success? ==> GetById(r.value.id, None) == Some(r.value)
                             && GetByVoiceSessionId(c.voiceSessionId) == Some(r.value)
    {
      if FindByVoiceSession(rows, c.voiceSessionId).Some? {
        return Failure(DuplicateVoiceSession);
      }
      var saved := c.(id := nextId);
      InsertKeepsUnique(rows, saved, nextId);
      rows, nextId := rows + [saved], nextId + 1;
      AddLinks(saved.id, IdsOf(memoryIds), IdsOf(reminderIds));
      r := Success(saved);
    }
  }
}
