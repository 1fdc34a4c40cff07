/**
 * `AssistantService`: classifies a user's text as something to remember, a
 * question about what was remembered, or neither; saves a parsed memory with
 * the text's embedding, or answers a question from a vector search over the
 * user's memories.
 *
 * The language model and the embedding model are parameters: structured
 * outputs (`classify`, `parse`) may come back as the requested model, as
 * some other object or as an exception; the embedding (`embed`) and the
 * free-text answer (`answer`) either succeed or raise. The answer prompt is a
 * value listing the question and the context lines; its rendering as text
 * (with similarities printed to two decimals) is not modelled.
 */
module Assistant {
  import opened Wrappers
  import opened Strings
  import opened Calendar
  import opened ReminderCalculator
  import opened MemoryStore

  datatype IntentType = Save | Query | Unknown

  datatype IntentClassification = IntentClassification(intent: IntentType, reason: string)

  datatype ReminderInfo = ReminderInfo(
    frequency: Frequency, weekday: Option<WeekdayName>, dayOfMonth: Option<int>,
    specificDate: Option<Date>, time: Option<TimeOfDay>)

  datatype ParsedMemory = ParsedMemory(
    memoryType: MemoryType, keywords: string, content: string,
    metadata: Option<Metadata>, reminder: Option<ReminderInfo>)

  /** A structured-output call: an instance of the requested model, some other object, or an exception. */
  datatype Structured<T> = Parsed(value: T) | OtherObject | Raised(error: string)

  datatype SaveResponse = SaveResponse(message: string, memory: Memory, reminder: Option<ReminderInfo>)

  datatype SearchResult = SearchResult(memory: Memory, similarity: real)

  datatype QueryResponse = QueryResponse(answer: string, relatedMemories: seq<SearchResult>)

  datatype AssistantResponse = AssistantResponse(
    intent: IntentType, saveResult: Option<SaveResponse>, queryResult: Option<QueryResponse>,
    errorMessage: Option<string>)

  datatype ContextLine = ContextLine(content: string, similarity: real)

  /** The answer prompt: the question with one context line per hit, or with the note that nothing was found. */
  datatype AnswerPrompt = WithContext(question: string, lines: seq<ContextLine>) | NoContext(question: string)

  const UnknownMessage: string := "죄송합니다, 요청을 이해하지 못했습니다. 정보를 기억하거나 질문해주세요."
  const ClassifyFailedReason: string := "분류 실패"
  const SavedTail: string := " 정보를 저장했습니다."
  const ReminderNote: string := " 알림도 설정되었습니다."
  const QueryLimit: nat := 5
  const QueryThreshold: real := 0.3

  /** `_classify_intent`: the model's classification, or UNKNOWN when it raised or returned something else. */
  function ClassifyIntent(outcome: Structured<IntentClassification>): IntentClassification {
    if outcome.Parsed? then outcome.value else IntentClassification(Unknown, ClassifyFailedReason)
  }

  /** `_parse_text`: the model's parse, or a plain memo holding the text itself. */
  function ParseText(text: string, outcome: Structured<ParsedMemory>): ParsedMemory {
    if outcome.Parsed? then outcome.value else ParsedMemory(Memo, "", text, None, None)
  }

  /** The confirmation `'<type>' 정보를 저장했습니다.`, with the reminder note when a reminder was parsed. */
  function SaveMessage(t: MemoryType, hasReminder: bool): string {
    "'" + TypeName(t) + "'" + SaveTail(hasReminder)
  }

  function SaveTail(hasReminder: bool): string {
    SavedTail + (if hasReminder then ReminderNote else "")
  }

  /** The row `_handle_save` stores (its id is assigned by the table). */
  function NewMemory(parsed: ParsedMemory, text: string, embedding: seq<real>, userId: Option<int>, createdAt: int): Memory {
    Memory(0, userId, TypeName(parsed.memoryType), parsed.keywords, parsed.content, parsed.metadata,
           text, Some(embedding), createdAt)
  }

  /** `related_memories`: each hit with its similarity. */
  function Related(results: seq<(Memory, real)>): seq<SearchResult> {
    seq(|results|, i requires 0 <= i < |results| => SearchResult(results[i].0, results[i].1))
  }

  function PromptFor(text: string, results: seq<(Memory, real)>): AnswerPrompt {
    if results == [] then NoContext(text)
    else WithContext(text, seq(|results|, i requires 0 <= i < |results| => ContextLine(results[i].0.content, results[i].1)))
  }

  // ---------------------------------------------------------------------------
  // Properties of the pure parts

  /** A classification that raised or came back as another object degrades to UNKNOWN; it never raises. */
  lemma ClassifyFallback(outcome: Structured<IntentClassification>)
    ensures !outcome.Parsed? ==> ClassifyIntent(outcome).intent == Unknown
    ensures outcome.Parsed? ==> ClassifyIntent(outcome) == outcome.value
  {
  }

  /** A failed parse keeps the whole input as the content of a memo without keywords, metadata or reminder. */
  lemma ParseFallback(text: string, outcome: Structured<ParsedMemory>)
    ensures var p := ParseText(text, outcome);
      !outcome.Parsed? ==> p.memoryType == Memo && p.keywords == "" && p.content == text
                           && p.metadata.None? && p.reminder.None?
  {
  }

  /** The reminder note is appended exactly when a reminder was parsed. */
  lemma SaveMessageReminder(t: MemoryType)
    ensures SaveMessage(t, true) == SaveMessage(t, false) + ReminderNote
    ensures SaveMessage(t, false) != SaveMessage(t, true)
  {
    assert SaveMessage(t, false) + "" == SaveMessage(t, false);
  }

  /**
   * The query's related memories are the vector search with limit 5 and
   * threshold 0.3, in its order: at most five, each the user's own with an
   * embedding, similarity `1 - distance` of at least 0.3, best first.
   */
  lemma QueryRelatedSpec(rows: seq<Memory>, query: seq<real>, dist: (seq<real>, seq<real>) -> real, userId: Option<int>)
    ensures var related := Related(SearchByVector(rows, query, dist, userId, None, QueryLimit, QueryThreshold));
      |related| <= QueryLimit
      && (forall i :: 0 <= i < |related| ==>
            related[i].memory in rows && related[i].memory.embedding.Some? && OwnedBy(related[i].memory, userId)
            && related[i].similarity == 1.0 - dist(related[i].memory.embedding.value, query)
            && related[i].similarity >= QueryThreshold)
      && (forall i, j :: 0 <= i < j < |related| ==> related[i].similarity >= related[j].similarity)
  {
    SearchByVectorQualifies(rows, query, dist, userId, None, QueryLimit, QueryThreshold);
    SearchByVectorOrdered(rows, query, dist, userId, None, QueryLimit, QueryThreshold);
  }

  /**
   * The answer is grounded on exactly the memories returned to the caller:
   * one context line per related memory, in the same order with the same
   * similarity, and the no-information prompt exactly when there are none.
   */
  lemma PromptMatchesRelated(text: string, results: seq<(Memory, real)>)
    ensures var p := PromptFor(text, results);
      var related := Related(results);
      p.question == text
      && (p.NoContext? <==> related == [])
      && (p.WithContext? ==>
            |p.lines| == |related|
            && forall i :: 0 <= i < |related| ==>
                 p.lines[i] == ContextLine(related[i].memory.content, related[i].similarity))
  {
  }

  // ---------------------------------------------------------------------------
  // The service

  class AssistantService {
    const memories: MemoryRepository
    /** The prompts sent to the answer model, in order. */
    ghost var answerPrompts: seq<AnswerPrompt>

    ghost predicate Valid()
      reads this, memories
    {
      memories.Valid()
    }

    constructor (memories: MemoryRepository)
      requires memories.Valid()
      ensures Valid() && this.memories == memories && answerPrompts == []
    {
      this.memories := memories;
      answerPrompts := [];
    }

    /**
     * `_handle_save`: parse (never raises), embed the original text (may
     * raise, before any write), store one memory, and report it.
     */
    method HandleSave(text: string, userId: Option<int>, parse: string -> Structured<ParsedMemory>,
                      embed: string -> Result<seq<real>, string>, createdAt: int)
      returns (r: Result<SaveResponse, string>)
      requires Valid()
      modifies memories
      ensures Valid()
      ensures memories.nextId >= old(memories.nextId)
      ensures embed(text).Failure? ==>
        r == Failure(embed(text).error) && memories.rows == old(memories.rows) && memories.nextId == old(memories.nextId)
      ensures embed(text).Success? ==>
        var parsed := ParseText(text, parse(text));
        var saved := NewMemory(parsed, text, embed(text).value, userId, createdAt).(id := old(memories.nextId));
        memories.rows == old(memories.rows) + [saved]
        && r == Success(SaveResponse(SaveMessage(parsed.memoryType, parsed.reminder.Some?), saved, parsed.reminder))
    {
      var parsed := ParseText(text, parse(text));
      var embedding := embed(text);
      if embedding.Failure? {
        return Failure(embedding.error);
      }
      var saved := memories.Create(NewMemory(parsed, text, embedding.value, userId, createdAt));
      var message := SaveMessage(parsed.memoryType, parsed.reminder.Some?);
      r := Success(SaveResponse(message, saved, parsed.reminder));
    }

    /**
     * `_handle_query`: embed the question (may raise), search the user's
     * memories, then ask the answer model exactly once, with or without hits.
     */
    method HandleQuery(text: string, userId: Option<int>, embed: string -> Result<seq<real>, string>,
                       answer: AnswerPrompt -> Result<string, string>, dist: (seq<real>, seq<real>) -> real)
      returns (r: Result<QueryResponse, string>)
      requires Valid()
      modifies this
      ensures Valid()
      ensures embed(text).Failure? ==> r == Failure(embed(text).error) && answerPrompts == old(answerPrompts)
      ensures embed(text).Success? ==>
        var results := SearchByVector(memories.rows, embed(text).value, dist, userId, None, QueryLimit, QueryThreshold);
        var prompt := PromptFor(text, results);
        answerPrompts == old(answerPrompts) + [prompt]
        && (answer(prompt).Failure? ==> r == Failure(answer(prompt).error))
        && (answer(prompt).Success? ==> r == Success(QueryResponse(answer(prompt).value, Related(results))))
    {
      var embedding := embed(text);
      if embedding.Failure? {
        return Failure(embedding.error);
      }
      var results := SearchByVector(memories.rows, embedding.value, dist, userId, None, QueryLimit, QueryThreshold);
      var related := Related(results);
      var prompt := PromptFor(text, results);
      answerPrompts := answerPrompts + [prompt];
      var reply := answer(prompt);
      if reply.Failure? {
        return Failure(reply.error);
      }
      r := Success(QueryResponse(reply.value, related));
    }

    /**
     * `process`: dispatch on the classified intent. Only SAVE writes a
     * memory, only QUERY consults the answer model, and anything else is
     * UNKNOWN with the fixed message.
     */
    method Process(text: string, userId: Option<int>, classify: string -> Structured<IntentClassification>,
                   parse: string -> Structured<ParsedMemory>, embed: string -> Result<seq<real>, string>,
                   answer: AnswerPrompt -> Result<string, string>, dist: (seq<real>, seq<real>) -> real,
                   createdAt: int)
      returns (r: Result<AssistantResponse, string>)
      requires Valid()
      modifies this, memories
      ensures Valid() && memories.nextId >= old(memories.nextId)
      ensures var intent := ClassifyIntent(classify(text)).intent;
        && (r.Success? ==> r.value.intent == intent)
        && (intent != Save ==> memories.rows == old(memories.rows) && memories.nextId == old(memories.nextId))
        && (intent != Query ==> answerPrompts == old(answerPrompts))
        && (intent == Unknown ==> r == Success(AssistantResponse(Unknown, None, None, Some(UnknownMessage))))
        && (intent == Save ==> (r.Failure? <==> embed(text).Failure?))
        && (intent == Save && r.Success? ==>
              r.value.saveResult.Some? && r.value.queryResult.None? && r.value.errorMessage.None?
              && r.value.saveResult.value.reminder == ParseText(text, parse(text)).reminder
              && memories.rows == old(memories.rows) + [r.value.saveResult.value.memory])
        && (intent == Query && embed(text).Failure? ==> r.Failure?)
        && (intent == Query && r.Success? ==>
              r.value.queryResult.Some? && r.value.saveResult.None? && r.value.errorMessage.None?
              && embed(text).Success?
              && r.value.queryResult.value.relatedMemories
                   == Related(SearchByVector(old(memories.rows), embed(text).value, dist, userId, None,
                                             QueryLimit, QueryThreshold)))
    {
      var classification := ClassifyIntent(classify(text));
      if classification.intent == Save {
        var saved := HandleSave(text, userId, parse, embed, createdAt);
        if saved.Failure? {
          return Failure(saved.error);
        }
        return Success(AssistantResponse(Save, Some(saved.value), None, None));
      } else if classification.intent == Query {
        var answered := HandleQuery(text, userId, embed, answer, dist);
        if answered.Failure? {
          return Failure(answered.error);
        }
        return Success(AssistantResponse(Query, None, Some(answered.value), None));
      }
      r := Success(AssistantResponse(Unknown, None, None, Some(UnknownMessage)));
    }
  }
}
