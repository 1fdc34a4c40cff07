# A verified model of a personal memory assistant

The system is a personal memory assistant. A user speaks or types a
sentence, an LLM decides whether it is something to remember ("save") or a
question ("query"), and the backend stores memories with embeddings, answers
questions from the closest memories, keeps reminders on a schedule, and
records every exchange as a conversation. Audio reaches the backend over a
WebSocket and is transcribed by a streaming speech provider. Users sign in
with a social account; sessions and one-shot sign-up codes live in Redis,
and a React Native client tracks the login state with a reducer.

This project models that core in Dafny and proves what each part promises.

- **Reminder scheduling** (`reminder_calculator.dfy`, `calendar.dfy`,
  `reminder_schema.dfy`, `reminder_repository.dfy`, `reminder_service.dfy`).
  - The next-run calculator works for one-off, daily, weekly and monthly
    rules, on a proleptic Gregorian calendar with ordinals and weekdays.
  - The request schemas give the companion field each frequency needs.
  - The reminder table is a class over a sequence of rows.
  - The service's create, partial update, pause and resume recompute
    `next_run_at` from the calculator.
- **Memory store** (`memory_repository.dfy`, `sequences.dfy`).
  - Each SQL query becomes a specification over the table: owner and type
    filters, newest first with offset and limit, the vector search,
    per-day lookups and calendar marks, and keyword search.
  - The vector search works with an abstract distance function. It keeps
    memories within `1 - threshold`, sorts them by ascending distance with
    a stable insertion sort, and keeps at most `limit` of them.
- **Voice** (`streaming_voice.dfy`, `stream_session.dfy`,
  `voice_stream_consumer.dfy`, `legacy_voice_stream_consumer.dfy`,
  `voice.dfy`, `voice_types.dfy`, `voice_session.dfy`).
  - The silence test decodes little-endian int16 samples.
  - The streaming transcriber maps the request and response streams.
  - Each of the two versions of the per-connection WebSocket consumer is a
    class. It holds:
    - the audio accumulator;
    - the FIFO with its end sentinel;
    - the streaming and closed flags;
    - the last final transcript;
    - a log of every send and close.
  - Its ingest, drain and relay loops are methods with loop invariants.
    Cleanup and `handle` are methods whose contracts compose those of
    their parts.
  - The file-upload service covers file validation and response building.
  - The voice-session table is a class.
- **Assistant and conversations** (`assistant.dfy`, `conversation.dfy`,
  `conversation_repository.dfy`).
  - Intent dispatch has its fixed fallbacks.
  - A save writes one memory. A query asks the answer model once.
  - The conversation service takes a voice session through to a stored
    conversation with link rows. The whole call is one transaction that
    is rolled back on any failure.
- **Small parsers and stores** (`i18n.dfy`, `session.dfy`, `auth.dfy`,
  `strings.dfy`).
  - Accept-Language negotiation and the locale context variable.
  - The session and auth-code store, as a map.
  - The login and sign-up rules.
- **Errors and client state** (`exceptions.dfy`, `auth_reducer.dfy`).
  - The exception hierarchy, with its HTTP codes and response envelopes.
  - The frontend `authReducer`, with its invariant
    `isAuthenticated <==> user != null`.

External effects become parameters, so every contract holds for all of
their behaviours:
- the LLM's classify, parse and answer calls, as functions that may fail;
- the embedding call;
- the vector distance;
- the clock (`now`);
- random tokens and UUIDs, as fresh values drawn by the caller;
- the local-date conversion;
- each transport send, as an oracle indexed by attempt;
- the speech provider's results, as a given sequence;
- the JSON reading of a WebSocket text frame: the stop signal, any other
  message, or valid JSON that is not an object (on which the backend
  consumer's `data.get` raises);
- the parsing of `q=` weights, as a given function to reals.

The model follows the code, including a few places where the code does
not do what the surrounding design suggests.
- `process_voice` reads `.id` from a parsed reminder, and the reminder
  type `ReminderInfo` has no id field. A save that parsed a reminder
  therefore always fails, and the transaction takes its memory back
  (`ConversationFlow.SaveWithReminderUnrecorded`). The assistant never
  writes a Reminder row, so it is not clear what was meant, and that
  reading of the id is modelled as written.
- The newer consumer also passes `session_id` to `create_session`. The
  voice-session service it imports from its own tree is not part of this
  model, and the `apps` version of that service takes no such argument.
  The model records the call as written, session id included
  (`VoiceStreamConsumer.Consumer.CreateVoiceSession`), and leaves its
  outcome free, as a given flag.
- In the newer consumer a text frame that is valid JSON but not an object
  (`"stop"`, `[1]`, `5`, `null`) makes `data.get` raise. Only the decode
  error is caught, so ingest ends there, the exception leaves `gather` and
  no results are relayed; the cleanup still saves the recording
  (`VoiceStreamConsumer.Consumer.Gather`).
- The older consumer announces its own UUID to the client, but stores the
  session under a freshly generated one (see Findings).

## Model

| member | source | states |
|---|---|---|
| Assistant.ClassifyFallback | apps/services/assistant.py:151-167 | a classification that raises or returns another object becomes UNKNOWN ("분류 실패") and never raises; a parsed one is returned as is |
| Assistant.ParseFallback | apps/services/assistant.py:211-226 | a failed parse keeps the whole input as a memo's content, without keywords, metadata or reminder |
| Assistant.SaveMessageReminder | apps/services/assistant.py:193-194 | the reminder note is appended exactly when a reminder was parsed |
| Assistant.QueryRelatedSpec | apps/services/assistant.py:236-250 | at most five related memories, each the user's own with an embedding and similarity 1 - distance of at least 0.3, best first |
| Assistant.PromptMatchesRelated | apps/services/assistant.py:252-269 | the answer prompt asks the question with one context line per related memory, in order with its similarity, and is the no-information prompt iff there are none |
| Assistant.AssistantService.HandleSave | apps/services/assistant.py:169-200 | an embedding failure stores nothing; otherwise exactly one memory built from the parse and the input is appended under the next id, with the save message and the parsed reminder |
| Assistant.AssistantService.HandleQuery | apps/services/assistant.py:228-285 | an embedding failure asks nothing; otherwise the answer model is asked exactly one prompt, the one for the search results, and the related memories are those results |
| Assistant.AssistantService.Process | apps/services/assistant.py:123-149 | the classified intent decides the branch; only a save touches memories, only a query asks for an answer; UNKNOWN gives the fixed apology; a save fails iff its embedding fails and then appends the memory it reports |
| Auth.SignupAccepted | backend/apps/services/auth.py:56-75 | signup goes ahead iff the code was valid and neither the nickname nor the stored email is taken, and then uses the stored profile |
| Auth.SignupErrors | backend/apps/services/auth.py:56-66 | an invalid code is a 401 authentication error; a taken nickname is a 409 conflict whatever the email; a taken email with a free nickname is the email conflict |
| Auth.KnownUserIdSpec | backend/apps/services/auth.py:28-30 | a login goes to a stored user with that social identity and a non-zero id; an unknown identity has none |
| Auth.UserRepository.Create | backend/apps/repositories/user.py:41-47 | the row is stored under the next id, which the returned user carries; an email or nickname already stored breaks a unique column and nothing is stored; ids, emails and nicknames stay unique |
| Auth.ContactLookupsUnambiguous | backend/apps/repositories/user.py:17-39 | with unique emails and nicknames, the lookup by either finds the one user that has it |
| Auth.AuthService.LoginOrPrepareSignup | backend/apps/services/auth.py:19-42 | a known user gets not-new and a session token for their id; anyone else gets new and an auth code holding the provider, social id, email and nickname |
| Auth.AuthService.Signup | backend/apps/services/auth.py:44-80 | the code is redeemed whatever follows; an error changes no user; success creates exactly one user from the stored profile and nickname and returns a session for its id |
| Auth.AuthService.Logout | backend/apps/services/auth.py:82-84 | true iff there was a session, which is gone afterwards |
| Auth.AuthService.GetCurrentUser | backend/apps/services/auth.py:86-96 | success iff the session resolves to a stored user, which is returned; any failure is a 401, an unknown session the invalid-session one |
| Auth.AuthCodeRoundTripAfterSession | backend/apps/services/auth.py:56-79 | a redeemed code stays unusable after the new session is stored |
| AuthReducer.ReduceEffects | frontend/contexts/auth-context.tsx:32-54 | what each action sets and what it keeps; an unknown action changes nothing |
| AuthReducer.ReducePreserves | frontend/contexts/auth-context.tsx:32-54 | every action keeps "authenticated" in step with holding a user |
| AuthReducer.InitialConsistent | frontend/contexts/auth-context.tsx:57-61 | the provider starts with no user, loading and not authenticated, which is consistent |
| AuthReducer.ReduceAllPreserves | frontend/contexts/auth-context.tsx:32-61 | any sequence of dispatches from a consistent state keeps the invariant |
| AuthReducer.LogoutResets | frontend/contexts/auth-context.tsx:43-44 | after a logout, whatever came before, nobody is signed in and nothing is loading |
| AuthReducer.ReduceAllSnoc | frontend/contexts/auth-context.tsx:32-54 | dispatching one more action reduces the state reached so far |
| Exceptions.NewAppException | apps/exceptions.py:10-16 | the message is kept and the code defaults to 400 |
| Exceptions.MessageOr | apps/exceptions.py:24 | a missing or empty message falls back to the default |
| Exceptions.AuthenticationError | apps/exceptions.py:19-26 | code 401, with the given message or the default |
| Exceptions.NotFoundError | apps/exceptions.py:29-36 | code 404, with the given message or the default |
| Exceptions.ConflictError | apps/exceptions.py:39-46 | code 409, with the given message or the default |
| Exceptions.SubclassMessages | apps/exceptions.py:19-46 | a subclass never carries an empty message and keeps a given one verbatim |
| Exceptions.SubclassCodesDistinct | apps/exceptions.py:13-46 | the three subclasses and the plain exception are told apart by their codes |
| Exceptions.AppExceptionResponse | apps/exceptions.py:68-81 | the status and the body code are the exception's code, with its message and no result |
| Exceptions.NatToString | apps/exceptions.py:90 | `str` of an index is a non-empty run of digits without a leading zero |
| Exceptions.NatToStringRoundTrip | apps/exceptions.py:90 | reading the digits back gives the index |
| Exceptions.Details | apps/exceptions.py:88-94 | one detail per error, in order, with the joined location and the message |
| Exceptions.ValidationErrorResponse | apps/exceptions.py:83-104 | status and code 422, message VALIDATION_ERROR, one detail per error in order |
| Exceptions.FieldOfTwoParts | apps/exceptions.py:90 | a two-part location reads `a -> b` |
| ReminderCalculator.OnceIsExactOrNothing | apps/utils/reminder_calculator.py:43-53 | without a date there is no run; with one, there is a run exactly when that date at the reminder time is later than now, and it is that date at that time |
| ReminderCalculator.DailyIsNextOccurrence | apps/utils/reminder_calculator.py:55-61 | the run is at the reminder time, strictly after now and at most one day ahead; it is today exactly when today's time is still ahead, otherwise tomorrow |
| ReminderCalculator.WeeklyCandidate | apps/utils/reminder_calculator.py:82-84 | the first candidate lies `(target - weekday) mod 7` days ahead on the requested weekday, and is today exactly when today is that weekday |
| ReminderCalculator.WeeklyOnRequestedDay | apps/utils/reminder_calculator.py:63-89 | with a weekday there is always a run: on that weekday, at the reminder time, after now and at most seven days ahead |
| ReminderCalculator.WeeklySameDayPassed | apps/utils/reminder_calculator.py:84-88 | on the requested weekday once the time has passed, the run is the same weekday one week later |
| ReminderCalculator.WeeklyIsEarliest | apps/utils/reminder_calculator.py:82-89 | no moment on the requested weekday at the reminder time that is after now comes before the run |
| ReminderCalculator.MonthlyThisMonth | apps/utils/reminder_calculator.py:101-106 | a day that exists in the current month and is still ahead is taken this month |
| ReminderCalculator.MonthlyNextMonth | apps/utils/reminder_calculator.py:110-120 | otherwise the run is that day of the next month (January after December), and there is none when the next month lacks the day |
| ReminderCalculator.MonthlyNeverClamps | apps/utils/reminder_calculator.py:98-120 | a monthly run always falls on the requested day of the month, at the reminder time, after now; short months are skipped, never clamped |
| ReminderCalculator.MonthlyThirtyFirstFromFebruary | apps/utils/reminder_calculator.py:102-118 | from February, day 31 falls on March 31 |
| ReminderCalculator.MonthlyMissingNextMonthDay | apps/utils/reminder_calculator.py:116-120 | on January 31 after the reminder time, day 31 has no run, since February has no 31st |
| ReminderCalculator.MissingCompanionGivesNone | apps/utils/reminder_calculator.py:33-40 | once without a date, weekly without a weekday and monthly without a day (or with day 0) have no next run |
| ReminderCalculator.NextRunIsFutureAtRequestedTime | apps/utils/reminder_calculator.py:11-41 | whatever the frequency, a next run exists only strictly after now and at the reminder time |
| Conversations.FindConversation | apps/repositories/conversation.py:15-22 | a found conversation is stored with that id and visible to the user; none means no such row |
| Conversations.FindByVoiceSession | apps/repositories/conversation.py:24-29 | a found conversation is stored and belongs to that voice session; none means no row does |
| Conversations.FindConversationOwnership | apps/repositories/conversation.py:15-22 | with a user, another owner's conversation is invisible and the user's own is found; without a user any row is found |
| Conversations.FindByVoiceSessionUnique | apps/repositories/conversation.py:24-29 | with one conversation per voice session, the lookup finds exactly that row |
| Conversations.AllByUserSpec | apps/repositories/conversation.py:31-42 | at most `limit` rows, each a stored conversation of the user, newest first |
| Conversations.AllByUserSize | apps/repositories/conversation.py:31-42 | the page length: as many of the user's conversations as remain after the offset, up to the limit; none past the end |
| Conversations.Newest | apps/repositories/conversation.py:31-42 | the list the page is cut from holds exactly the user's stored conversations, each as often as stored, newest first |
| Conversations.AllByUserComplete | apps/repositories/conversation.py:31-42 | each of the user's conversations has a place in that list and is on the page whenever the place falls in the offset-and-limit window |
| Conversations.LinksForSpec | apps/repositories/conversation.py:60-75 | the links are exactly the pairs of the conversation with each given id, in order |
| Conversations.InsertKeepsUnique | apps/repositories/conversation.py:44-79 | appending a row with a fresh id and an unused voice session keeps both keys unique, and both lookups find it |
| Conversations.AppendLinks | apps/repositories/conversation.py:60-75 | the loop appends the links for the ids, in order |
| Conversations.ConversationRepository.AddLinks | apps/repositories/conversation.py:60-75 | memory and reminder links for the new id are appended; rows and counter stay |
| Conversations.ConversationRepository.Create | apps/repositories/conversation.py:44-79 | a voice session that already has a conversation is refused with nothing changed; otherwise the row gets the next id, is appended with its links, and both lookups find it |
| ConversationFlow.VoiceSessionAccess | apps/services/conversation.py:69-76 | success iff the session exists and is the caller's; a missing and a foreign session get the same 404 |
| ConversationFlow.FinalTextChoice | apps/services/conversation.py:78-80 | the user's text when non-empty, otherwise the recognised text |
| ConversationFlow.ExtractSave | apps/services/conversation.py:94-105 | a save yields the memory's id, fields and the save message, or fails iff a reminder was parsed; never a reminder id |
| ConversationFlow.ExtractQuery | apps/services/conversation.py:106-113 | a query yields no ids, the answer, and the related memories' ids in search order |
| ConversationFlow.ExtractOther | apps/services/conversation.py:114-115 | anything else records the assistant's error message, or the default when that message is missing or empty |
| ConversationFlow.ExtractKeepsIntent | apps/services/conversation.py:86-123 | the intent is kept, ids come only from a save, at most one, and reminder ids never appear |
| ConversationFlow.SaveWithReminderUnrecorded | apps/services/conversation.py:97-98 | a save that parsed a reminder always fails at the reminder's missing id |
| ConversationFlow.OnlyRowWithId | apps/services/conversation.py:82-84 | a stored session is the only row carrying its id, so writing it back changes only that row |
| ConversationFlow.ConversationService.Rollback | apps/services/conversation.py:33 | the voice session, memory and conversation tables are put back as noted at the start |
| ConversationFlow.ConversationService.Respond | apps/services/conversation.py:40-67 | on success one conversation with the response's id, intent and text is recorded with its memory links, and a save's memory is the one reported |
| ConversationFlow.ConversationService.ProcessVoice | apps/services/conversation.py:33-67 | a missing or foreign session is a 404; every failure leaves all tables as they were; success confirms the final text on the session and records the conversation |
| I18n.Negotiate | apps/i18n/__init__.py:59-68 | the chosen locale is always a supported one |
| I18n.ParseAcceptLanguage | apps/i18n/__init__.py:44-68 | the parse loop, the sort and the search give the locale or the error the header determines |
| I18n.ParseLanguages | apps/i18n/__init__.py:50-57 | the loop yields the entries of the pieces in order, or the first piece's error |
| I18n.PickLocale | apps/i18n/__init__.py:59-68 | the sort by weight then the search give the negotiated locale |
| I18n.NoHeaderDefault | apps/i18n/__init__.py:46-47 | an absent or empty header gives the default locale |
| I18n.AlwaysSupported | apps/i18n/__init__.py:44-68 | whatever the header, a returned locale is supported |
| I18n.ParsePartsSpec | apps/i18n/__init__.py:51-57 | parsing succeeds iff every piece parses, one entry per piece in order; otherwise the first bad piece's error |
| I18n.UnweightedPart | apps/i18n/__init__.py:56-57 | a piece without `;q=` gets weight 1.0 under its stripped text |
| I18n.WeightedPart | apps/i18n/__init__.py:53-55 | `lang;q=w` gets the stripped language and the parsed weight; a weight `float` rejects raises |
| I18n.TwoWeightsRejected | apps/i18n/__init__.py:54 | a piece with two weight marks cannot be unpacked and raises |
| I18n.PrimarySubtag | apps/i18n/__init__.py:64 | only the primary subtag counts, lower-cased |
| I18n.BareSubtag | apps/i18n/__init__.py:64 | a tag without a dash is its own primary subtag, lower-cased |
| I18n.RegionIgnored | apps/i18n/__init__.py:64 | `ko-KR` is read as `ko` |
| I18n.CaseIgnored | apps/i18n/__init__.py:64 | `EN` is read as `en` |
| I18n.NegotiatePicksBest | apps/i18n/__init__.py:59-66 | the winner is the supported entry of greatest weight, the first listed among equals |
| I18n.NothingSupportedDefault | apps/i18n/__init__.py:68 | with no supported entry the default locale is chosen |
| I18n.LocaleContext.SetLocale | apps/i18n/__init__.py:17-22 | a supported locale is stored, anything else is replaced by the default |
| I18n.LocaleContext.GetLocale | apps/i18n/__init__.py:12-14 | the stored locale, which is always supported |
| LegacyVoiceStreamConsumer.IngestLength | apps/consumers/voice_stream_consumer.py:102-117 | ingest reads no more messages than are sent |
| LegacyVoiceStreamConsumer.IngestLengthSpec | apps/consumers/voice_stream_consumer.py:102-117 | ingest reads every binary frame before the first other event, and that event when there is one |
| LegacyVoiceStreamConsumer.ChunksKeepEveryFrame | apps/consumers/voice_stream_consumer.py:108-109 | every frame read is kept for the recording, empty and silent ones included |
| LegacyVoiceStreamConsumer.IngestLengthAt | apps/consumers/voice_stream_consumer.py:93-120 | where the receive loop stops is where ingest ends, and nothing is read once streaming is off |
| LegacyVoiceStreamConsumer.RelayLogSpec | apps/consumers/voice_stream_consumer.py:136-153 | results go out in order up to the first failed send; after it only the error report is attempted; without a failure every result goes out, then the provider error |
| LegacyVoiceStreamConsumer.RelayLogAllDelivered | apps/consumers/voice_stream_consumer.py:136-153 | a socket that accepts everything gets every result, then the provider error if any |
| LegacyVoiceStreamConsumer.AnnouncedIdMissesSession | apps/consumers/voice_stream_consumer.py:254-259 | as written, for any table and any drawn UUID other than the consumer's, the UUID announced to the client does not find the session just stored |
| LegacyVoiceStreamConsumer.AnnouncedIdFindsSession | backend/apps/consumers/voice_stream_consumer.py:304-310 | passing the consumer's UUID makes the announced identifier find exactly the stored session |
| LegacyVoiceStreamConsumer.Consumer.TrySend | apps/consumers/voice_stream_consumer.py:142 | an unguarded send is always attempted and goes as the socket decides |
| LegacyVoiceStreamConsumer.Consumer.CloseWebsocket | apps/consumers/voice_stream_consumer.py:292-297 | the close call is always made, once per call |
| LegacyVoiceStreamConsumer.Consumer.ReceiveFrame | apps/consumers/voice_stream_consumer.py:108-114 | every frame is kept; only a frame with signal is queued |
| LegacyVoiceStreamConsumer.Consumer.PutSentinel | apps/consumers/voice_stream_consumer.py:120 | the sentinel goes behind all queued audio |
| LegacyVoiceStreamConsumer.Consumer.ReceiveOne | apps/consumers/voice_stream_consumer.py:105-117 | a frame is kept and queued if loud; a disconnect ends the loop and a text frame raises |
| LegacyVoiceStreamConsumer.Consumer.ReceiveAudio | apps/consumers/voice_stream_consumer.py:93-120 | reads up to the ingest length, keeps every frame, queues the loud ones, then the sentinel, with streaming off; it raised iff the last event read was a text frame |
| LegacyVoiceStreamConsumer.Consumer.AudioGenerator | apps/consumers/voice_stream_consumer.py:157-182 | the first chunk, then the queue's chunks in FIFO order up to the sentinel, the end or the timeout |
| LegacyVoiceStreamConsumer.Consumer.SendResult | apps/consumers/voice_stream_consumer.py:141-147 | one attempt; a final result becomes the transcript only once it went out |
| LegacyVoiceStreamConsumer.Consumer.RelayTranscripts | apps/consumers/voice_stream_consumer.py:136-147 | results are sent until the first failure, and the transcript is the last final result delivered |
| LegacyVoiceStreamConsumer.Consumer.RelayResults | apps/consumers/voice_stream_consumer.py:136-153 | the relay log above, with the transcript kept only from delivered results |
| LegacyVoiceStreamConsumer.Consumer.SendResults | apps/consumers/voice_stream_consumer.py:122-155 | a sentinel first means nothing is sent; otherwise the fed chunks are transcribed and relayed, and the transcript is the last final result among those delivered before the first failed send; streaming is off afterwards |
| LegacyVoiceStreamConsumer.Consumer.SaveAudio | apps/consumers/voice_stream_consumer.py:211-244 | no chunks or a failed write give no file; otherwise a mono 16-bit WAV of the joined chunks at the recording path |
| LegacyVoiceStreamConsumer.Consumer.CreateVoiceSession | apps/consumers/voice_stream_consumer.py:246-264 | the session is requested without a UUID; a failing call gives none |
| LegacyVoiceStreamConsumer.Consumer.Cleanup | apps/consumers/voice_stream_consumer.py:184-198 | recording saved; a session only for a saved recording with a transcript; one announcement attempt iff it was created; exactly one close call |
| LegacyVoiceStreamConsumer.Consumer.Gather | apps/consumers/voice_stream_consumer.py:80-88 | the recording holds every frame ingest read; unless a text frame raised, the transcript is the last final result delivered before the first failed send; after a raise nothing was sent and the transcript is unchanged |
| LegacyVoiceStreamConsumer.Consumer.Handle | apps/consumers/voice_stream_consumer.py:74-91 | the recording is every frame ingest read; the transcript is as `Gather` gives it (`GatherResults`); the WAV file at the recording path and the session request are as the cleanup makes them; after a raise the only attempt is the announcement of a created session; the socket is closed exactly once, streaming ends off and every earlier attempt is kept |
| MemoryStore.TypeNameInjective | apps/types/assistant.py:22-29 | the five memory types have five distinct stored values |
| MemoryStore.FindMemory | backend/apps/repositories/memory.py:18-25 | a found memory is a stored row with that id visible to the user; none means no such visible row |
| MemoryStore.FindMemoryOwnership | backend/apps/repositories/memory.py:18-25 | with a user, another owner's memory is invisible and the user's own is found; without a user any owner's row is found |
| MemoryStore.AllMemoriesSpec | backend/apps/repositories/memory.py:27-43 | at most `limit` rows, each stored, owned by the user when one is given and of the filtered type, newest first |
| MemoryStore.Listed | backend/apps/repositories/memory.py:27-43 | the list the page is cut from holds exactly the stored rows owned by the user and of the filtered type, each as often as stored, newest first |
| MemoryStore.AllMemoriesComplete | backend/apps/repositories/memory.py:27-43 | every matching row has a place in that list and is on the page whenever the place falls in the offset-and-limit window |
| MemoryStore.WithSimilarity | backend/apps/repositories/memory.py:81-100 | each hit is paired with similarity one minus its cosine distance |
| MemoryStore.SearchByVectorQualifies | backend/apps/repositories/memory.py:66-100 | at most `limit` hits, each with an embedding, passing the user and type filters, within distance 1 - threshold, reported with similarity 1 - distance |
| MemoryStore.SearchByVectorOrdered | backend/apps/repositories/memory.py:94 | hits come in descending similarity |
| MemoryStore.SearchByVectorSkipsNothingBetter | backend/apps/repositories/memory.py:93-95 | a qualifying memory is left out only when the result is full of hits at least as similar |
| MemoryStore.ByDateSpec | backend/apps/repositories/memory.py:102-117 | at most `limit` rows, each stored, owned and created on the target local date, newest first |
| MemoryStore.OnDate | backend/apps/repositories/memory.py:102-117 | the list holds exactly the user's stored rows created on the target local date, each as often as stored, newest first |
| MemoryStore.ByDateComplete | backend/apps/repositories/memory.py:102-117 | every memory of that day has a place in that list and is returned whenever it is among the first `limit` |
| MemoryStore.CountByDateSpec | backend/apps/repositories/memory.py:126-133 | grouping by local date counts exactly the multiset of the rows' local dates |
| MemoryStore.CalendarMarksSpec | backend/apps/repositories/memory.py:119-133 | a date is marked iff one of the user's memories falls on it, with that many; the counts add up to the user's memory count |
| MemoryStore.CountByDateMarksEveryDay | backend/apps/repositories/memory.py:126-133 | every row's local date is marked with a count of at least one |
| MemoryStore.LikeAnything | backend/apps/repositories/memory.py:144 | the pattern `%` matches every string |
| MemoryStore.LikeLiteralPrefix | backend/apps/repositories/memory.py:144 | a wildcard-free `k%` matches exactly the strings starting with `k` |
| MemoryStore.LikeLeadingPercent | backend/apps/repositories/memory.py:144 | a leading `%` matches iff the rest matches some suffix |
| MemoryStore.LikeContains | backend/apps/repositories/memory.py:144 | for a wildcard-free query, `%kw%` matches exactly the strings containing `kw` |
| MemoryStore.UnderscoreMatchesAnyone | backend/apps/repositories/memory.py:144 | an `_` typed as a keyword is a wildcard: it matches every non-empty keyword string |
| MemoryStore.KeywordHitContains | backend/apps/repositories/memory.py:144 | for a wildcard-free query, ILIKE `%kw%` is a case-insensitive substring test |
| MemoryStore.SearchByKeywordsSpec | backend/apps/repositories/memory.py:135-151 | at most `limit` hits, each stored, owned, of the filtered type and containing the keywords ignoring case, newest first |
| MemoryStore.KeywordMatches | backend/apps/repositories/memory.py:135-151 | the list holds exactly the stored rows whose keywords match the pattern, owned and of the filtered type, each as often as stored, newest first |
| MemoryStore.SearchByKeywordsComplete | backend/apps/repositories/memory.py:135-151 | every owned memory of the filtered type whose keywords contain the query ignoring case is listed, and is returned whenever it is among the first `limit` |
| MemoryStore.SearchByKeywordsHit | backend/apps/repositories/memory.py:144-148 | every hit is a stored row meeting the ILIKE, user and type conditions |
| MemoryStore.SearchByKeywordsOrder | backend/apps/repositories/memory.py:149 | hits come newest first |
| MemoryStore.MemoryRepository.Create | backend/apps/repositories/memory.py:45-51 | the row gets the next id, is appended, and is then found by its id |
| MemoryStore.MemoryRepository.Update | backend/apps/repositories/memory.py:53-59 | exactly the row with that id is overwritten; the table size and ids stay |
| MemoryStore.MemoryRepository.Delete | backend/apps/repositories/memory.py:61-64 | the row with that id goes, every other row stays in order, and it is no longer found |
| ReminderStore.FindReminder | backend/apps/repositories/reminder.py:17-24 | a found reminder is a stored row with that id visible to the user; none means no such visible row |
| ReminderStore.FindReminderOwnership | backend/apps/repositories/reminder.py:19-24 | with a user, another owner's reminder is invisible and the user's own is found; without a user the row is found whoever owns it |
| ReminderStore.AllRemindersSpec | backend/apps/repositories/reminder.py:26-45 | at most `limit` rows, each a stored reminder meeting every supplied filter (user, status, memory), newest first |
| ReminderStore.Matching | backend/apps/repositories/reminder.py:26-45 | the list the page is cut from holds exactly the stored reminders meeting every supplied filter, each as often as stored, newest first |
| ReminderStore.AllRemindersComplete | backend/apps/repositories/reminder.py:26-45 | every matching reminder has a place in that list and is on the page whenever the place falls in the offset-and-limit window |
| ReminderStore.DueRemindersSpec | backend/apps/repositories/reminder.py:47-62 | at most `limit` rows, each active with a non-null run time not after now; a due row is left out only when the limit is reached |
| ReminderStore.NeverDue | backend/apps/repositories/reminder.py:53-57 | paused or completed reminders, and reminders without a next run, are never selected |
| ReminderStore.ReminderRepository.Create | backend/apps/repositories/reminder.py:64-70 | the row gets the next id, is appended, and is then found by its id |
| ReminderStore.ReminderRepository.Update | backend/apps/repositories/reminder.py:72-78 | the stored row with that id is overwritten; ids stay unique |
| ReminderStore.ReminderRepository.Delete | backend/apps/repositories/reminder.py:80-83 | the row with that id goes, every other row stays in order, and it is no longer found |
| ReminderService.Reschedule | apps/services/reminder.py:84-90 | only `next_run_at` changes, and it becomes the calculator's answer for the reminder's own schedule |
| ReminderService.NewReminder | apps/services/reminder.py:52-67 | the new row is active, owned by the caller, copies the request's schedule and carries the calculator's next run |
| ReminderService.ApplyUpdateFields | apps/services/reminder.py:79-81 | with no null frequency, time or status: an unset field keeps the stored value, a set field replaces it (a null weekday, day or date included); id, owner, memory and creation time are untouched |
| ReminderService.EmptyUpdateIsIdentity | apps/services/reminder.py:79-81 | an update that sets nothing leaves the reminder as it was |
| ReminderService.AcceptedRecurringIsScheduled | apps/services/reminder.py:61-67 | an accepted daily or weekly reminder always gets a next run; a monthly one whenever its day exists next month |
| ReminderService.ReminderService.GetReminder | apps/services/reminder.py:22-27 | the caller's visible reminder, or NotFound with the "Reminder not found." message |
| ReminderService.ReminderService.GetReminders | apps/services/reminder.py:29-43 | the repository listing for that user and status, with no memory filter |
| ReminderService.ReminderService.CreateReminder | apps/services/reminder.py:45-69 | NotFound and no new row when the memory is missing or foreign; otherwise exactly one row appended whose next run is the calculator's answer |
| ReminderService.ReminderService.UpdateReminder | apps/services/reminder.py:71-92 | NotFound with the table unchanged; an explicit null frequency, time or status fails with the table unchanged; otherwise the stored row is replaced by the merged row with its next run recomputed |
| ReminderService.ReminderService.DeleteReminder | apps/services/reminder.py:94-99 | NotFound with the table unchanged, or exactly that row removed and no longer found |
| ReminderService.ReminderService.PauseReminder | apps/services/reminder.py:101-109 | NotFound, or only the status changes, to paused, with the next run kept |
| ReminderService.ReminderService.ResumeReminder | apps/services/reminder.py:111-126 | NotFound, or the status becomes active and the next run is recomputed |
| ReminderSchema.CompanionError | apps/schemas/reminder.py:23-30 | no error exactly when the frequency's companion field (weekday, day of month, date) is present; daily needs none |
| ReminderSchema.ValidateCreate | apps/schemas/reminder.py:10-32 | an accepted request keeps every field it was given, fills an omitted time with the default, and is well formed |
| ReminderSchema.ValidateUpdate | apps/schemas/reminder.py:35-60 | an accepted update is returned unchanged; with a non-null frequency, that frequency's companion is present among the given values |
| ReminderSchema.CreateAcceptedIff | apps/schemas/reminder.py:13-32 | a create request is accepted exactly when its field constraints hold and its frequency's companion is present |
| ReminderSchema.CreateMissingCompanion | apps/schemas/reminder.py:23-30 | weekly without a weekday, monthly without a day and once without a date fail with their own error; daily always passes |
| ReminderSchema.DayOfMonthBounds | apps/schemas/reminder.py:16 | a day of month outside 1..31 is refused by creation and by update |
| ReminderSchema.CreateDefaultTime | apps/schemas/reminder.py:18 | an omitted time becomes 09:00 |
| ReminderSchema.UpdateWithoutFrequencyPasses | apps/schemas/reminder.py:48-49 | an update whose frequency is left out or null passes whatever companions it lacks |
| ReminderSchema.UpdateChecksPayloadCompanion | apps/schemas/reminder.py:51-58 | an update with a non-null frequency passes exactly when the companion is in the payload with a non-null value; the stored reminder is not consulted |
| ReminderSchema.ExtraCompanionsAccepted | apps/schemas/reminder.py:20-32 | a companion that the frequency does not need never causes a refusal |
| Sessions.KeysDisjoint | apps/services/session.py:10-11 | no session key is an auth-code key, so the two namespaces never meet |
| Sessions.SessionKeyInjective | apps/services/session.py:35 | different tokens have different session keys |
| Sessions.AuthCodeKeyInjective | apps/services/session.py:62 | different codes have different auth-code keys |
| Sessions.SessionRoundTrip | apps/services/session.py:32-45 | after a session is stored, its token resolves to that user; other tokens and all auth codes resolve as before |
| Sessions.AuthCodeRoundTrip | apps/services/session.py:59-73 | after an auth code is stored it yields exactly that data; sessions and other codes are untouched |
| Sessions.AuthCodeOneShot | apps/services/session.py:66-73 | once read, the same auth code yields nothing; sessions are untouched |
| Sessions.DeleteSessionForgets | apps/services/session.py:47-51 | after deletion the token no longer resolves; auth codes are untouched |
| Sessions.SessionService.CreateSession | apps/services/session.py:32-37 | the drawn token is returned and resolves to the user |
| Sessions.SessionService.GetUserId | apps/services/session.py:39-45 | none iff no session is stored for the token, otherwise its stored user id |
| Sessions.SessionService.DeleteSession | apps/services/session.py:47-51 | true iff a session was there; afterwards the token does not resolve |
| Sessions.SessionService.RefreshSession | apps/services/session.py:53-57 | true iff the session exists |
| Sessions.SessionService.CreateAuthCode | apps/services/session.py:59-64 | the drawn code is returned and yields the stored data |
| Sessions.SessionService.GetAuthCodeData | apps/services/session.py:66-73 | the stored data, or none for an unknown code; the code is gone afterwards |
| StreamSession.TranscriptMessages | backend/apps/consumers/voice_stream_consumer.py:179-192 | one transcript message per streamed result, in order |
| StreamSession.TranscriptMessagesAppend | backend/apps/consumers/voice_stream_consumer.py:179-192 | the messages for two runs of results are the messages of each, concatenated |
| StreamSession.Deliver | backend/apps/consumers/voice_stream_consumer.py:189-194 | a guarded sender makes at most one attempt per message |
| StreamSession.DeliverSpec | backend/apps/consumers/voice_stream_consumer.py:189-194 | attempts are the messages in order as the socket decides; none on a closed socket; only the last can fail and the sender stops only after it; the socket is closed afterwards iff it was before or an attempt failed |
| StreamSession.DeliverAppend | backend/apps/consumers/voice_stream_consumer.py:189-194 | sending `a` then `b` is sending `a + b`, the second run starting where the first stopped |
| StreamSession.DeliverMore | backend/apps/consumers/voice_stream_consumer.py:189-194 | a log holding the attempts for `a` grows into the log for `a + b` when `b` is sent next |
| StreamSession.RelayStep | backend/apps/consumers/voice_stream_consumer.py:179-194 | relaying one more result extends the log as sending all results so far would |
| StreamSession.DeliverAll | backend/apps/consumers/voice_stream_consumer.py:189-194 | over a socket that accepts everything, every message is delivered and the socket stays open |
| StreamSession.FedChunksSpec | backend/apps/consumers/voice_stream_consumer.py:204-229 | the generator feeds the leading queued chunks in FIFO order, stops before the budget and the queue's end only at the sentinel, and removes what it fed plus that sentinel |
| StreamSession.GeneratorStop | backend/apps/consumers/voice_stream_consumer.py:218-229 | with no budget left or an empty queue, nothing more is fed or removed |
| StreamSession.GeneratorSentinel | backend/apps/consumers/voice_stream_consumer.py:224-225 | a sentinel at the head ends the feed and is removed |
| StreamSession.GeneratorTake | backend/apps/consumers/voice_stream_consumer.py:220-226 | a chunk at the head is fed and removed; the rest of the budget goes to the rest of the queue |
| StreamSession.DrainSentinel | backend/apps/consumers/voice_stream_consumer.py:224-225 | reaching the sentinel means everything owed has been fed and the sentinel removed |
| StreamSession.DrainStop | backend/apps/consumers/voice_stream_consumer.py:218-229 | a spent budget or an empty queue ends the run with everything owed fed |
| StreamSession.SignalOnlyAt | backend/apps/consumers/voice_stream_consumer.py:142-147 | a queue filled only through the signal test holds only chunks with signal |
| StreamSession.FedUpToSentinel | backend/apps/consumers/voice_stream_consumer.py:204-229 | with budget to spare, the generator feeds exactly the audio queued before the sentinel |
| StreamSession.LastFinalIndex | backend/apps/consumers/voice_stream_consumer.py:185-187 | the position of the last final result, none iff no result is final |
| StreamSession.LastFinalStep | backend/apps/consumers/voice_stream_consumer.py:185-187 | a final result replaces the transcript and confidence (a missing one read as 0.0); an interim one never does |
| StreamSession.ConcatAppend | backend/apps/consumers/voice_stream_consumer.py:286 | joining two runs of chunks is joining each, concatenated |
| StreamSession.ConcatContains | backend/apps/consumers/voice_stream_consumer.py:286 | every received chunk lies in the recording at the offset of the chunks before it |
| StreamSession.RecordingPath | backend/apps/consumers/voice_stream_consumer.py:276-279 | the recording is `{dir}/{timestamp}_{session id}_{language}.wav`, with `ko-KR` when no language is given |
| StreamingVoice.Int16 | backend/apps/services/streaming_voice.py:59 | every sample read is a signed 16-bit value |
| StreamingVoice.Int16Word | backend/apps/services/streaming_voice.py:59 | the sample is the two's-complement reading of the little-endian word |
| StreamingVoice.Int16RoundTrip | backend/apps/services/streaming_voice.py:59 | encoding a sample to two bytes and reading it back are inverse to each other |
| StreamingVoice.Samples | backend/apps/services/streaming_voice.py:58-59 | one sample per two bytes; a trailing odd byte is not read |
| StreamingVoice.SamplesAt | backend/apps/services/streaming_voice.py:58-59 | sample `i` is read from bytes `2i` and `2i + 1`, low byte first |
| StreamingVoice.HasAudioSignalIff | backend/apps/services/streaming_voice.py:38-64 | signal iff there are at least two bytes and the mean absolute sample is strictly above the threshold, stated without division |
| StreamingVoice.ShortInputIsSilent | backend/apps/services/streaming_voice.py:54-55 | empty input and a single byte are silence whatever the threshold |
| StreamingVoice.OddByteIgnored | backend/apps/services/streaming_voice.py:58-59 | appending one byte to an even-length chunk reads the same samples |
| StreamingVoice.OddByteIgnoredBySignal | backend/apps/services/streaming_voice.py:58-64 | appending one byte to an even-length chunk does not change the verdict |
| StreamingVoice.QuietChunkIsSilent | backend/apps/services/streaming_voice.py:62-64 | a chunk with no sample louder than the threshold is silence |
| StreamingVoice.LoudChunkIsSignal | backend/apps/services/streaming_voice.py:62-64 | a chunk whose every sample is louder than the threshold is signal |
| StreamingVoice.RequestsFor | backend/apps/services/streaming_voice.py:100-116 | the configuration request first, then one audio request per chunk in order |
| StreamingVoice.RequestsCarryChunks | backend/apps/services/streaming_voice.py:114-116 | the provider receives every chunk, in order, and no other audio |
| StreamingVoice.CreateRequestGenerator | backend/apps/services/streaming_voice.py:100-116 | the generated requests are the request stream for the chunks |
| StreamingVoice.ToResponse | backend/apps/services/streaming_voice.py:92-98 | the first transcript and finality of the result, with a zero confidence read as none |
| StreamingVoice.YieldedSnoc | backend/apps/services/streaming_voice.py:88-98 | a result without hypotheses yields nothing; any other yields exactly its response, appended |
| StreamingVoice.StreamTranscribe | backend/apps/services/streaming_voice.py:66-98 | the provider gets the requests for the used language; every result with a hypothesis is yielded in stream order; the provider's error ends the stream |
| VoiceTypes.LanguageValue | apps/types/voice.py:6-10 | each language value is a five-character `xx-YY` code |
| VoiceTypes.LanguageValueInjective | apps/types/voice.py:6-10 | the two languages have different values |
| VoiceTypes.UsedLanguage | apps/services/voice.py:71 | the requested language when there is one, otherwise the configured default |
| VoiceTypes.ConfidenceOrNone | apps/services/voice.py:145 | a zero confidence is reported as none, any other as itself |
| VoiceService.BaseName | apps/services/voice.py:39 | the base name is a slash-free suffix of the path |
| VoiceService.Suffix | apps/services/voice.py:39 | a suffix is empty or a dot followed by at least one character |
| VoiceService.BaseNameInDir | apps/services/voice.py:39 | whatever the directory, the base name of `dir/name` is `name` |
| VoiceService.SuffixOfName | apps/services/voice.py:39 | the suffix of `stem.ext` is `.ext` |
| VoiceService.StripLoweredDot | apps/services/voice.py:39 | lower-casing then stripping dots removes exactly the leading dot |
| VoiceService.ExtensionOfName | apps/services/voice.py:39 | a file named `stem.ext` anywhere has extension `ext` lower-cased |
| VoiceService.NoExtension | apps/services/voice.py:39 | a name with no dot after its first character has no extension |
| VoiceService.ValidateFileAccepts | apps/services/voice.py:37-50 | a file is accepted iff its extension names a configured format and its size is at most the limit in binary megabytes |
| VoiceService.FormatCheckedFirst | apps/services/voice.py:39-44 | an unsupported extension is the error reported, however large the file |
| VoiceService.SizeLimitInclusive | apps/services/voice.py:46-50 | a supported file of exactly the limit passes; one byte more is too large |
| VoiceService.FirstAlternativesSpec | apps/services/voice.py:136-138 | exactly the first hypothesis of each result that has one, in order |
| VoiceService.NonZeroConfidencesSpec | apps/services/voice.py:140-141 | every kept confidence is non-zero and comes from a hypothesis; none is kept iff all are zero |
| VoiceService.MeanUnit | apps/services/voice.py:112 | the mean of unit-interval confidences is in the unit interval |
| VoiceService.MeanOfEqual | apps/services/voice.py:112 | the mean of equal confidences is that confidence |
| VoiceService.ResponseShape | apps/services/voice.py:100-126 | no results give the plain empty response; otherwise details come iff asked for and the text is the first transcripts joined by spaces; the language is the one used |
| VoiceService.ResponseConfidence | apps/services/voice.py:110-112 | the confidence is absent iff every first confidence is zero, and otherwise is the mean of the non-zero ones |
| VoiceService.ResponseSegments | apps/services/voice.py:114-120 | a detailed response has one segment per result with hypotheses, carrying its first transcript, and a confidence iff that one is non-zero |
| VoiceService.SingleResultText | apps/services/voice.py:110-111 | a single result's response text is its first transcript |
| VoiceService.ResponseConfidenceUnit | apps/services/voice.py:110-112 | provider confidences in the unit interval give a response confidence in the unit interval |
| VoiceService.ExtractResults | apps/services/voice.py:128-149 | the one pass yields the first transcripts, the non-zero confidences and one segment per hypothesis kept |
| VoiceService.BuildResponse | apps/services/voice.py:100-126 | the response the specification function above describes |
| VoiceService.Transcribe | apps/services/voice.py:52-98 | the provider is asked once in the used language; its failure becomes a recognition failure with its message, its answer the built response |
| VoiceStreamConsumer.IngestLength | backend/apps/consumers/voice_stream_consumer.py:104-116 | ingest reads no more messages than are sent |
| VoiceStreamConsumer.IngestLengthSpec | backend/apps/consumers/voice_stream_consumer.py:104-116 | ingest reads exactly up to the first disconnect, stop signal or text that raises, or everything when there is none |
| VoiceStreamConsumer.QueuedSpec | backend/apps/consumers/voice_stream_consumer.py:142-147 | every queued entry is a received chunk with signal; silent chunks are kept but never queued |
| VoiceStreamConsumer.IngestLengthAt | backend/apps/consumers/voice_stream_consumer.py:96-122 | where the receive loop stops is where ingest ends, and nothing is read once streaming is off |
| VoiceStreamConsumer.Relayed | backend/apps/consumers/voice_stream_consumer.py:179-200 | one transcript message per result, then the provider error as an error message |
| VoiceStreamConsumer.NotificationSpec | backend/apps/consumers/voice_stream_consumer.py:240-246 | at most one notification: session-created iff the recording was saved, the transcript is non-empty and the session was created; no-speech iff no recording or no transcript |
| VoiceStreamConsumer.Consumer.Send | backend/apps/consumers/voice_stream_consumer.py:189-194 | nothing is sent on a closed socket, and a failed attempt marks the socket closed |
| VoiceStreamConsumer.Consumer.SendSessionCreatedNotification | backend/apps/consumers/voice_stream_consumer.py:317-333 | the session-created message with the UUID, transcript and confidence goes through the guard |
| VoiceStreamConsumer.Consumer.SendNoSpeechNotification | backend/apps/consumers/voice_stream_consumer.py:335-349 | the no-speech message goes through the guard |
| VoiceStreamConsumer.Consumer.SendError | backend/apps/consumers/voice_stream_consumer.py:351-365 | the error message goes through the guard |
| VoiceStreamConsumer.Consumer.CloseWebsocket | backend/apps/consumers/voice_stream_consumer.py:367-376 | only an open socket is closed, it ends marked closed, and at most one close call is added |
| VoiceStreamConsumer.Consumer.HandleAudioData | backend/apps/consumers/voice_stream_consumer.py:142-147 | every chunk is kept for the recording; only a chunk with signal is queued |
| VoiceStreamConsumer.Consumer.ProcessWebsocketMessage | backend/apps/consumers/voice_stream_consumer.py:124-163 | non-empty bytes are audio; otherwise non-empty text is the stop signal, ignored (invalid JSON or another type), or raises (valid JSON that is not an object); ingest ends on a stop or a raise, and the result says which |
| VoiceStreamConsumer.Consumer.ReceiveOne | backend/apps/consumers/voice_stream_consumer.py:105-116 | one message read: a disconnect marks the socket closed and ends ingest; a text message may stop it or raise |
| VoiceStreamConsumer.Consumer.ReceiveAudio | backend/apps/consumers/voice_stream_consumer.py:96-122 | reads up to the ingest length, keeps every chunk, queues the signal chunks, then the sentinel, with streaming off; the socket is marked closed iff a disconnect was read last; it raised iff the last message read was a text that raises |
| VoiceStreamConsumer.Consumer.PutSentinel | backend/apps/consumers/voice_stream_consumer.py:122 | the sentinel goes behind all queued audio |
| VoiceStreamConsumer.Consumer.AudioGenerator | backend/apps/consumers/voice_stream_consumer.py:204-229 | the first chunk, then the queue's chunks in FIFO order up to the sentinel, the end or the timeout; exactly what was taken leaves the queue |
| VoiceStreamConsumer.Consumer.RelayOne | backend/apps/consumers/voice_stream_consumer.py:184-194 | a final result becomes the transcript; the result is sent through the guard |
| VoiceStreamConsumer.Consumer.RelayTranscripts | backend/apps/consumers/voice_stream_consumer.py:179-194 | the transcript is the last final result and every result is sent through the guard, in order |
| VoiceStreamConsumer.Consumer.RelayResults | backend/apps/consumers/voice_stream_consumer.py:179-200 | as above, with a provider error sent last as an error message |
| VoiceStreamConsumer.Consumer.Transcribe | backend/apps/consumers/voice_stream_consumer.py:178-200 | the provider gets the requests for the fed chunks in the used language and its results are relayed |
| VoiceStreamConsumer.Consumer.SendResults | backend/apps/consumers/voice_stream_consumer.py:165-202 | a sentinel first means nothing is sent; otherwise the fed chunks are transcribed and relayed, and the transcript is the last final result the provider yielded for them; streaming is off afterwards |
| VoiceStreamConsumer.Consumer.SaveAudio | backend/apps/consumers/voice_stream_consumer.py:261-294 | no chunks or a failed write give no file; otherwise a mono 16-bit WAV of the joined chunks at the recording path |
| VoiceStreamConsumer.Consumer.CreateVoiceSession | backend/apps/consumers/voice_stream_consumer.py:296-315 | the session is requested with the user, path, transcript, confidence and this connection's UUID; a failing call gives none |
| VoiceStreamConsumer.Consumer.CreateAndNotify | backend/apps/consumers/voice_stream_consumer.py:240-246 | a session only for a saved recording with a transcript, then the notification that fits, through the guard |
| VoiceStreamConsumer.Consumer.Cleanup | backend/apps/consumers/voice_stream_consumer.py:231-248 | recording saved, session and notification as above, then the socket ends closed with at most one more close call |
| VoiceStreamConsumer.Consumer.Gather | backend/apps/consumers/voice_stream_consumer.py:84-92 | the recording holds every chunk ingest read; unless ingest raised, the transcript is the last final result of the provider over the queued audio; after a raise the transcript, the log and the closed flag are unchanged |
| VoiceStreamConsumer.Consumer.Handle | backend/apps/consumers/voice_stream_consumer.py:78-94 | the recording is every chunk ingest read; the transcript is as `Gather` gives it (`GatherResults`); the WAV file at the recording path and the session request are as the cleanup makes them; after a raise the only message is the cleanup's notification; the socket ends closed, at most one close call was made, no attempt followed the closing, and the log only grows |
| VoiceSessions.FindBySessionId | apps/services/voice_session.py:39-41 | a found session carries that UUID and is stored; none means no stored session has it |
| VoiceSessions.FindBySessionIdUnique | apps/models/voice.py:18-24 | with unique UUIDs the lookup finds exactly the session carrying the UUID |
| VoiceSessions.VoiceSessionService.CreateSession | apps/services/voice_session.py:16-37 | a new session with the caller's user, path and recognition result, no confirmed text, the next id and the drawn UUID; a UUID already taken is refused and nothing changes |
| VoiceSessions.VoiceSessionService.UpdateConfirmation | apps/services/voice_session.py:43-46 | only the confirmed text changes, and the stored row with that id is overwritten |
| VoiceSessions.ReplaceKeepsSessionKeys | apps/models/voice.py:18-24 | rewriting a row with its own id and UUID keeps the UUIDs unique |

## Left out

- Concurrency: asyncio tasks, their interleaving, cancellation timing and the 30-second `wait_for` are not modelled. Ingest, the send stage and cleanup run as sequential methods, and a timeout is a stop chosen by the caller. An ingest that raises skips the send stage entirely, so results the provider would have relayed before the cancellation are not modelled.
- The generator's `while self.is_streaming` test (backend/apps/consumers/voice_stream_consumer.py:218, apps/consumers/voice_stream_consumer.py:171) is not modelled, because in the sequential model streaming is already off when the send stage starts. `AudioGenerator` drains the queue up to the sentinel, the end or the budget. In the source, chunks still queued once streaming goes off are dropped after the next one the generator takes.
- The WebSocket, the gRPC speech client, the WAV writer and the filesystem are I/O. Saving audio returns a path and the concatenated bytes, or fails.
- Dates start at year 1 and are not bounded above, so Python's `OverflowError` past year 9999 is not modelled.
- `Strings.Lower` and `Strings.IsSpace` cover ASCII only. Unicode case folding and Unicode whitespace are not modelled.
- `float(q)` in Accept-Language parsing is a given function to reals. The average confidence and the similarities are reals, not IEEE doubles.
- Path handling (`pathlib` suffix and name) covers names split at `/` and `.` only.
- `VoiceProcessingError` is imported by the voice service but is not defined in apps/exceptions.py. Its three causes are a failure datatype of their own, with no HTTP code.
- Exception and response messages are the fixed source texts. gettext translation is not modelled.
- The lazy construction of the LLM and speech clients is not modelled.
- `VoiceService.Transcribe`: like the source, it does not call `validate_file`. The model covers the request it builds and the response mapping.
- Redis TTLs and `expire` are not modelled, so `refresh_session` only reports whether the key exists. Stored values are records, not JSON text.
- SQL, sessions, flush and commit are not modelled. A table is a sequence with an id counter. `scalar_one_or_none` raising on several rows cannot happen for lookups by id, UUID, voice-session key, email or nickname, because each of those is unique in the model's tables (`Auth.ContactLookupsUnambiguous` for email and nickname).
- Auth.FindBySocial: the pair (provider, social id) is not a unique column, and nothing stops two users from sharing it (two signup codes for one identity, redeemed with different emails and nicknames). There `get_by_social` raises `MultipleResultsFound`; the model returns the first such row instead.
- ReminderService.ReminderService.UpdateReminder: the ways an explicit null frequency, time or status fails (a `TypeError` in `datetime.combine`, or a NOT NULL violation at flush) are one failure, `NullColumn`, with the table unchanged.
- The `transactional` decorator is modelled from its name: a failing `process_voice` puts every table back, but the id counters keep advancing, like a database sequence.
- The `MemoryResponse` projection is not modelled. The `profile_image` column is stored as the sign-up passes it (`Auth.User.profileImage`) and is read by no modelled operation.
- Memory metadata (`MemoryStore.Metadata`) is a `map<string, string>`, standing for the `dict[str, Any]` of apps/types/assistant.py:95. Non-string values are not modelled. The modelled operations only copy the metadata and never inspect it.
- The answer prompt is a structured value: the question plus context lines. The prompt text and the `.2f` formatting of similarities are not modelled.
- Link rows for duplicate ids are written once per occurrence, as in the source. Link uniqueness in the database is not modelled.
- `ReminderRepository.get_by_memory_id` (backend/apps/repositories/reminder.py:85-92) is used by no core operation and is not part of this model.
- The in-place `list.sort` calls are modelled on values, as a stable insertion sort of the sequence.
- Several errors cannot be reached from the modelled callers, so no model member raises them:
  - the `ValueError`s in apps/services/conversation.py for a missing voice session or user id;
  - the `ValueError` in apps/repositories/conversation.py for a missing id after flush;
  - the `RuntimeError` in backend/apps/services/auth.py for a user created without an id.
- `print` and logging calls, and the `ai_log` decorator, are not modelled.
- In the older consumer a text frame makes `receive_bytes` raise. The model ends ingest there and records that it raised, and then, as `gather` lets the exception out and the cleanup cancels the send task, skips the send stage (`LegacyVoiceStreamConsumer.Consumer.Gather`). Only how far the send task would have got before the cancellation is not modelled (see Concurrency above).
- The OAuth flows, controllers, dependency containers, settings, Celery, the React Native UI and the client-side audio processing are framework glue and I/O, and are not part of this model.

## Findings

| source | as written | input that shows it | evidently intended | confidence | as-written member | corrected member |
|---|---|---|---|---|---|---|
| apps/consumers/voice_stream_consumer.py:254-275 | the session is created without `session_id`, so it is stored under the fresh default UUID of apps/models/voice.py:18-24, while the notification announces `self.session_id` | consumer UUID 7 and drawn UUID 8: looking up 7 finds no session | pass the consumer's UUID, as backend/apps/consumers/voice_stream_consumer.py:304-310 does, so the announced identifier finds the stored session | not executed | LegacyVoiceStreamConsumer.AnnouncedIdMissesSession | LegacyVoiceStreamConsumer.AnnouncedIdFindsSession |
