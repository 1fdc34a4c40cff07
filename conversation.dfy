/**
 * `ConversationService.process_voice`: take a finished voice session, settle
 * the text the user stands by, run the assistant on it and record the
 * outcome as a conversation linked to the memories it created, all in one
 * transaction.
 *
 * The transaction is modelled explicitly: the tables are noted on entry and
 * put back when any later step fails. Row-id counters are database
 * sequences and are not put back.
 */
module ConversationFlow {
  import opened Wrappers
  import opened Sequences
  import opened Exceptions
  import opened VoiceSessions
  import opened MemoryStore
  import opened Assistant
  import opened Conversations

  const VoiceSessionNotFound: string := "VoiceSession not found"
  const NotUnderstood: string := "요청을 이해하지 못했습니다."

  datatype ProcessVoiceRequest = ProcessVoiceRequest(sessionId: Uuid, text: Option<string>)

  /** `ExtractedConversationData`. */
  datatype Extracted = Extracted(
    intent: IntentType, assistantText: string, parsedData: ParsedData,
    memoryIds: seq<int>, reminderIds: seq<int>)

  datatype ConversationResponse = ConversationResponse(
    conversationId: int, intent: IntentType, assistantResponse: string,
    createdMemoryIds: seq<int>, createdReminderIds: seq<int>)

  /**
   * Why `process_voice` raised: a rejected request, an exception from the
   * model calls, the attribute error of reading an id off a parsed reminder,
   * or the conversation insert failing.
   */
  datatype ProcessError =
    | Rejected(error: AppException)
    | AssistantFailed(message: string)
    | ReminderWithoutId
    | StoreFailed(store: Conversations.StoreError)

  /** `_get_voice_session`: the session must exist and belong to the caller. */
  function CheckVoiceSession(found: Option<VoiceSession>, userId: int): Result<VoiceSession, AppException> {
    if found.None? || found.value.userId != userId then Failure(NotFoundError(Some(VoiceSessionNotFound)))
    else Success(found.value)
  }

  /** `_determine_final_text`: the user's text when they sent a non-empty one, else the recognised text. */
  function FinalText(userText: Option<string>, v: VoiceSession): string {
    if userText.Some? && userText.value != "" then userText.value else v.sttText
  }

  function RelatedIds(related: seq<SearchResult>): (r: seq<int>)
    ensures |r| == |related|
  {
    seq(|related|, i requires 0 <= i < |related| => related[i].memory.id)
  }

  /**
   * `_extract_result_data`. A parsed reminder has no id to read, so a save
   * that carries one fails here.
   */
  function ExtractResultData(resp: AssistantResponse): Result<Extracted, ProcessError> {
    if resp.intent == Save then
      if resp.saveResult.Some? then
        var saved := resp.saveResult.value;
        if saved.reminder.Some? then Failure(ReminderWithoutId)
        else
          var m := saved.memory;
          Success(Extracted(Save, saved.message, SavedData(m.memoryType, m.keywords, m.content, m.metadata), [m.id], []))
      else Success(Extracted(Save, "", NoData, [], []))
    else if resp.intent == Query then
      if resp.queryResult.Some? then
        var q := resp.queryResult.value;
        Success(Extracted(Query, q.answer, QueryData(RelatedIds(q.relatedMemories)), [], []))
      else Success(Extracted(Query, "", NoData, [], []))
    else
      var text := if resp.errorMessage.Some? && resp.errorMessage.value != "" then resp.errorMessage.value else NotUnderstood;
      Success(Extracted(resp.intent, text, NoData, [], []))
  }

  /** The conversation row `_create_conversation_record` builds. */
  function RecordFor(voiceSessionId: int, userId: int, e: Extracted, now: int): Conversation {
    Conversation(0, voiceSessionId, userId, e.intent, e.parsedData, e.assistantText, now)
  }

  // ---------------------------------------------------------------------------
  // Properties of the pure steps

  /**
   * A missing session and someone else's session are refused alike, with
   * the same 404: the caller cannot tell whether the session exists.
   */
  lemma VoiceSessionAccess(found: Option<VoiceSession>, userId: int)
    ensures CheckVoiceSession(found, userId).Success? <==> found.Some? && found.value.userId == userId
    ensures CheckVoiceSession(found, userId).Success? ==> CheckVoiceSession(found, userId).value == found.value
    ensures CheckVoiceSession(found, userId).Failure? ==>
      CheckVoiceSession(found, userId).error == AppException(VoiceSessionNotFound, HttpNotFound)
  {
  }

  /** An empty edit counts as no edit: the recognised text is kept unless the user typed something. */
  lemma FinalTextChoice(userText: Option<string>, v: VoiceSession)
    ensures FinalText(userText, v) == v.sttText || userText == Some(FinalText(userText, v))
    ensures FinalText(userText, v) != v.sttText ==> FinalText(userText, v) != ""
    ensures userText.None? || userText == Some("") ==> FinalText(userText, v) == v.sttText
  {
  }

  /**
   * What a save turns into: the saved memory's id and fields and the save
   * message, or (with a parsed reminder) the failure; never a reminder id.
   */
  lemma ExtractSave(resp: AssistantResponse)
    requires resp.intent == Save && resp.saveResult.Some?
    ensures var saved := resp.saveResult.value; var r := ExtractResultData(resp);
      (r.Failure? <==> saved.reminder.Some?)
      && (r.Success? ==>
            r.value.memoryIds == [saved.memory.id] && r.value.reminderIds == []
            && r.value.assistantText == saved.message
            && r.value.parsedData == SavedData(saved.memory.memoryType, saved.memory.keywords,
                                               saved.memory.content, saved.memory.metadata))
  {
  }

  /** What a query turns into: no ids, the answer, and the related memories' ids in search order. */
  lemma ExtractQuery(resp: AssistantResponse)
    requires resp.intent == Query && resp.queryResult.Some?
    ensures var q := resp.queryResult.value; var r := ExtractResultData(resp);
      r.Success? && r.value.memoryIds == [] && r.value.reminderIds == [] && r.value.assistantText == q.answer
      && r.value.parsedData.QueryData?
      && |r.value.parsedData.relatedMemoryIds| == |q.relatedMemories|
      && forall i :: 0 <= i < |q.relatedMemories| ==>
           r.value.parsedData.relatedMemoryIds[i] == q.relatedMemories[i].memory.id
  {
  }

  /** Anything else records the assistant's error message, or the default when it is missing or empty. */
  lemma ExtractOther(resp: AssistantResponse)
    requires resp.intent == Unknown
    ensures var r := ExtractResultData(resp);
      r.Success? && r.value.memoryIds == [] && r.value.reminderIds == [] && r.value.parsedData == NoData
      && (resp.errorMessage.Some? && resp.errorMessage.value != "" ==> r.value.assistantText == resp.errorMessage.value)
      && (resp.errorMessage.None? || resp.errorMessage.value == "" ==> r.value.assistantText == NotUnderstood)
  {
  }

  /** The extracted intent is the assistant's, ids come only from a save, and reminder ids never appear. */
  lemma ExtractKeepsIntent(resp: AssistantResponse)
    ensures var r := ExtractResultData(resp);
      r.Success? ==> r.value.intent == resp.intent && r.value.reminderIds == []
                     && (resp.intent != Save ==> r.value.memoryIds == [])
                     && |r.value.memoryIds| <= 1
  {
  }

  /** In a table with unique ids, a stored row is the only row with its id. */
  lemma OnlyRowWithId(rows: seq<VoiceSession>, v: VoiceSession)
    requires UniqueBy(rows, VoiceId) && v in rows
    ensures forall i :: 0 <= i < |rows| && rows[i].id == v.id ==> rows[i] == v
  {
    var k :| 0 <= k < |rows| && rows[k] == v;
    forall i | 0 <= i < |rows| && rows[i].id == v.id
      ensures rows[i] == v
    {
      assert VoiceId(rows[i]) == VoiceId(rows[k]);
    }
  }

  /** Tables noted at the start of a transaction, each valid under its id counter. */
  ghost predicate Snapshot(vRows: seq<VoiceSession>, vNext: int, mRows: seq<Memory>, mNext: int,
                           cRows: seq<Conversation>, cNext: int)
  {
    && UniqueBy(vRows, VoiceId) && UniqueBy(vRows, VoiceSessions.SessionKey)
    && (forall i :: 0 <= i < |vRows| ==> 1 <= vRows[i].id < vNext) && vNext >= 1
    && UniqueIds(mRows) && (forall i :: 0 <= i < |mRows| ==> 1 <= mRows[i].id < mNext) && mNext >= 1
    && UniqueBy(cRows, ConversationId) && UniqueBy(cRows, VoiceKey)
    && (forall i :: 0 <= i < |cRows| ==> 1 <= cRows[i].id < cNext) && cNext >= 1
  }

  // ---------------------------------------------------------------------------
  // The service

  class ConversationService {
    const voiceSessions: VoiceSessionService
    const conversations: ConversationRepository
    const assistant: AssistantService

    ghost predicate Valid()
      reads this, voiceSessions, conversations, assistant, assistant.memories
    {
      voiceSessions.Valid() && conversations.Valid() && assistant.Valid()
    }

    constructor (voiceSessions: VoiceSessionService, conversations: ConversationRepository, assistant: AssistantService)
      requires voiceSessions.Valid() && conversations.Valid() && assistant.Valid()
      ensures Valid()
      ensures this.voiceSessions == voiceSessions && this.conversations == conversations && this.assistant == assistant
    {
      this.voiceSessions := voiceSessions;
      this.conversations := conversations;
      this.assistant := assistant;
    }

    /** The tables as a transaction sees them. */
    ghost predicate Tables(vRows: seq<VoiceSession>, mRows: seq<Memory>, cRows: seq<Conversation>,
                           mLinks: seq<Link>, rLinks: seq<Link>)
      reads this, voiceSessions, conversations, assistant, assistant.memories
    {
      voiceSessions.rows == vRows && assistant.memories.rows == mRows && conversations.rows == cRows
      && conversations.memoryLinks == mLinks && conversations.reminderLinks == rLinks
    }

    /**
     * The transaction's rollback: the noted tables come back. They were valid
     * under counters `vNext`, `mNext`, `cNext`, and counters only grow, so
     * they are valid again.
     */
    method Rollback(vRows: seq<VoiceSession>, vNext: int, mRows: seq<Memory>, mNext: int,
                    cRows: seq<Conversation>, cNext: int, mLinks: seq<Link>, rLinks: seq<Link>)
      requires Valid()
      requires Snapshot(vRows, vNext, mRows, mNext, cRows, cNext)
      requires vNext <= voiceSessions.nextId && mNext <= assistant.memories.nextId && cNext <= conversations.nextId
      modifies voiceSessions, conversations, assistant.memories
      ensures Valid() && Tables(vRows, mRows, cRows, mLinks, rLinks)
      ensures voiceSessions.nextId == old(voiceSessions.nextId) && assistant.memories.nextId == old(assistant.memories.nextId)
      ensures conversations.nextId == old(conversations.nextId)
    {
      voiceSessions.rows := vRows;
      assistant.memories.rows := mRows;
      conversations.rows := cRows;
      conversations.memoryLinks := mLinks;
      conversations.reminderLinks := rLinks;
    }

    /**
     * What a successful run leaves behind, against the tables `mRows`,
     * `cRows`, `mLinks`, `rLinks` it started from: one new conversation for
     * voice session `vid` carrying the response's id, intent and text, a
     * memory link per reported id, no reminder link, and, for a save, the
     * one new memory whose id is reported.
     */
    ghost predicate Recorded(resp: ConversationResponse, vid: int, userId: int, intent: IntentType, now: int,
                             mRows: seq<Memory>, cRows: seq<Conversation>, mLinks: seq<Link>, rLinks: seq<Link>)
      reads this, conversations, assistant, assistant.memories
    {
      |conversations.rows| == |cRows| + 1
      && var c := conversations.rows[|cRows|];
      && conversations.rows == cRows + [c]
      && c.id == resp.conversationId && c.voiceSessionId == vid && c.userId == userId
      && c.intent == resp.intent && c.assistantResponse == resp.assistantResponse && c.createdAt == now
      && resp.intent == intent
      && conversations.memoryLinks == mLinks + LinksFor(c.id, resp.createdMemoryIds)
      && conversations.reminderLinks == rLinks
      && resp.createdReminderIds == []
      && (intent == Save ==>
            |assistant.memories.rows| == |mRows| + 1 && assistant.memories.rows[..|mRows|] == mRows
            && resp.createdMemoryIds == [assistant.memories.rows[|mRows|].id])
      && (intent != Save ==> assistant.memories.rows == mRows && resp.createdMemoryIds == [])
    }

    /**
     * The body of `process_voice` after the session is settled: run the
     * assistant on the final text, extract the result and store the
     * conversation with its links.
     */
    method Respond(v: VoiceSession, text: string, userId: int,
                   classify: string -> Structured<IntentClassification>,
                   parse: string -> Structured<ParsedMemory>, embed: string -> Result<seq<real>, string>,
                   answer: AnswerPrompt -> Result<string, string>, dist: (seq<real>, seq<real>) -> real,
                   now: int)
      returns (r: Result<ConversationResponse, ProcessError>)
      requires Valid()
      modifies conversations, assistant, assistant.memories
      ensures Valid()
      ensures assistant.memories.nextId >= old(assistant.memories.nextId) && conversations.nextId >= old(conversations.nextId)
      ensures r.Success? ==>
        Recorded(r.value, v.id, userId, ClassifyIntent(classify(text)).intent, now, old(assistant.memories.rows),
                 old(conversations.rows), old(conversations.memoryLinks), old(conversations.reminderLinks))
    {
      var response := assistant.Process(text, Some(userId), classify, parse, embed, answer, dist, now);
      if response.Failure? {
        return Failure(AssistantFailed(response.error));
      }
      var extracted := ExtractResultData(response.value);
      ExtractKeepsIntent(response.value);
      if extracted.Failure? {
        return Failure(extracted.error);
      }
      var e := extracted.value;
      var created := conversations.Create(RecordFor(v.id, userId, e, now), Some(e.memoryIds), Some(e.reminderIds));
      if created.Failure? {
        return Failure(StoreFailed(created.error));
      }
      assert LinksFor(created.value.id, []) == [];
      r := Success(ConversationResponse(created.value.id, e.intent, e.assistantText, e.memoryIds, e.reminderIds));
    }

    /**
     * `process_voice`. An unknown or foreign session is refused before any
     * write. Otherwise the confirmed text is written, the assistant runs on
     * the final text and one conversation is stored, linked to the memory a
     * save created; if any step fails, every table is as it was.
     */
    method ProcessVoice(request: ProcessVoiceRequest, userId: int,
                        classify: string -> Structured<IntentClassification>,
                        parse: string -> Structured<ParsedMemory>, embed: string -> Result<seq<real>, string>,
                        answer: AnswerPrompt -> Result<string, string>, dist: (seq<real>, seq<real>) -> real,
                        now: int)
      returns (r: Result<ConversationResponse, ProcessError>)
      requires Valid()
      modifies voiceSessions, conversations, assistant, assistant.memories
      ensures Valid()
      ensures var checked := CheckVoiceSession(old(FindBySessionId(voiceSessions.rows, request.sessionId)), userId);
        checked.Failure? ==> r == Failure(Rejected(checked.error))
      ensures r.Failure? ==>
        Tables(old(voiceSessions.rows), old(assistant.memories.rows), old(conversations.rows),
               old(conversations.memoryLinks), old(conversations.reminderLinks))
      ensures r.Success? ==>
        var found := old(FindBySessionId(voiceSessions.rows, request.sessionId));
        found.Some? && found.value.userId == userId
        && var text := FinalText(request.text, found.value);
        && voiceSessions.rows == ReplaceBy(old(voiceSessions.rows), found.value.(userConfirmedText := Some(text)), VoiceId)
        && Recorded(r.value, found.value.id, userId, ClassifyIntent(classify(text)).intent, now,
                    old(assistant.memories.rows), old(conversations.rows),
                    old(conversations.memoryLinks), old(conversations.reminderLinks))
    {
      var vSaved, mSaved, cSaved := voiceSessions.rows, assistant.memories.rows, conversations.rows;
      var mLinksSaved, rLinksSaved := conversations.memoryLinks, conversations.reminderLinks;
      var vNext, mNext, cNext := voiceSessions.nextId, assistant.memories.nextId, conversations.nextId;
      assert Snapshot(vSaved, vNext, mSaved, mNext, cSaved, cNext);

      var checked := CheckVoiceSession(voiceSessions.GetBySessionId(request.sessionId), userId);
      if checked.Failure? {
        return Failure(Rejected(checked.error));
      }
      var v := checked.value;
      var text := FinalText(request.text, v);
      OnlyRowWithId(voiceSessions.rows, v);
      var _ := voiceSessions.UpdateConfirmation(v, text);
      r := Respond(v, text, userId, classify, parse, embed, answer, dist, now);
      if r.Failure? {
        Rollback(vSaved, vNext, mSaved, mNext, cSaved, cNext, mLinksSaved, rLinksSaved);
      }
    }
  }

  /**
   * As written, a save whose parse produced a reminder never reaches the
   * conversation table: reading the reminder's id fails, and the
   * transaction takes the new memory back with it.
   */
  lemma SaveWithReminderUnrecorded(resp: AssistantResponse)
    requires resp.intent == Save && resp.saveResult.Some? && resp.saveResult.value.reminder.Some?
    ensures ExtractResultData(resp) == Failure(ReminderWithoutId)
  {
  }
}
