/**
 * The earlier `VoiceStreamConsumer` of the first application: the same
 * pipeline as the backend's consumer, but without the closed-socket guard.
 *
 * Ingest reads binary frames only: every frame is kept for the recording
 * (an empty one too), a frame with signal is queued, a disconnect ends
 * ingest, and any other frame makes `receive_bytes` raise, which ends
 * ingest with an error and cancels the send task. A failed result send
 * aborts the relay loop and is reported as an error message, so the
 * transcript keeps only what was delivered. The session is created without
 * a UUID, a created session is always announced, there is no no-speech
 * message, and the socket is closed once whatever happened.
 */
module LegacyVoiceStreamConsumer {
  import opened Wrappers
  import opened Sequences
  import opened VoiceTypes
  import opened StreamingVoice
  import opened VoiceSessions
  import opened StreamSession

  /** One result of `websocket.receive_bytes()`. */
  datatype Inbound =
    | Frame(bytes: Bytes)   // a binary frame, possibly empty
    | Disconnect            // WebSocketDisconnect
    | TextFrame             // a frame without bytes: `receive_bytes` raises

  /** How many messages ingest reads: up to and including the first that is not a binary frame. */
  function IngestLength(ms: seq<Inbound>): (n: nat)
    ensures n <= |ms|
  {
    match FirstIndex(ms, (m: Inbound) => !m.Frame?)
    case None => |ms|
    case Some(k) => k + 1
  }

  /** The frames' bytes, in arrival order. */
  function Chunks(ms: seq<Inbound>): seq<Bytes> {
    if ms == [] then []
    else Chunks(ms[..|ms| - 1]) + (if ms[|ms| - 1].Frame? then [ms[|ms| - 1].bytes] else [])
  }

  /** The queue entries the frames produce: those that carry signal. */
  function Queued(ms: seq<Inbound>): seq<Option<Bytes>> {
    if ms == [] then []
    else
      var m := ms[|ms| - 1];
      Queued(ms[..|ms| - 1]) + (if m.Frame? && HasAudioSignal(m.bytes, AudioSilenceThreshold) then [Some(m.bytes)] else [])
  }

  lemma ChunksSnoc(ms: seq<Inbound>, m: Inbound)
    ensures Chunks(ms + [m]) == Chunks(ms) + Chunks([m])
    ensures Queued(ms + [m]) == Queued(ms) + Queued([m])
  {
    assert (ms + [m])[..|ms|] == ms;
    var one: seq<Inbound> := [m];
    assert one[..0] == [];
  }

  /** One more message read extends the ingest by its own chunks and queue entries. */
  lemma IngestStep(ms: seq<Inbound>, k: nat, chunks0: seq<Bytes>, queue0: seq<Option<Bytes>>)
    requires k < |ms|
    ensures chunks0 + Chunks(ms[..k + 1]) == (chunks0 + Chunks(ms[..k])) + Chunks([ms[k]])
    ensures queue0 + Queued(ms[..k + 1]) == (queue0 + Queued(ms[..k])) + Queued([ms[k]])
  {
    PrefixSnoc(ms, k);
    ChunksSnoc(ms[..k], ms[k]);
    AppendAssoc(chunks0, Chunks(ms[..k]), Chunks([ms[k]]));
    AppendAssoc(queue0, Queued(ms[..k]), Queued([ms[k]]));
  }

  /**
   * The state after ingest has read `n` of the frames, starting from chunks
   * `chunks0` and queue `queue0`: both extended in order, the stop and
   * raised flags from the last frame read, and only binary frames before it.
   */
  ghost predicate Ingested(ms: seq<Inbound>, n: nat, stop: bool, raised: bool,
                           chunks0: seq<Bytes>, queue0: seq<Option<Bytes>>,
                           chunks: seq<Bytes>, queue: seq<Option<Bytes>>)
  {
    && n <= |ms|
    && chunks == chunks0 + Chunks(ms[..n])
    && queue == queue0 + Queued(ms[..n])
    && (n == 0 ==> !stop && !raised)
    && (n > 0 ==> stop == !ms[n - 1].Frame? && raised == ms[n - 1].TextFrame?)
    && (forall i :: 0 <= i < n - 1 ==> ms[i].Frame?)
  }

  /** Reading one more frame keeps `Ingested`. */
  lemma IngestAdvance(ms: seq<Inbound>, n: nat, stop: bool, raised: bool,
                      chunks0: seq<Bytes>, queue0: seq<Option<Bytes>>,
                      chunks: seq<Bytes>, queue: seq<Option<Bytes>>,
                      stop': bool, raised': bool, chunks': seq<Bytes>, queue': seq<Option<Bytes>>)
    requires Ingested(ms, n, stop, raised, chunks0, queue0, chunks, queue)
    requires !stop && n < |ms|
    requires stop' == !ms[n].Frame? && raised' == ms[n].TextFrame?
    requires chunks' == chunks + Chunks([ms[n]]) && queue' == queue + Queued([ms[n]])
    ensures Ingested(ms, n + 1, stop', raised', chunks0, queue0, chunks', queue')
  {
    IngestStep(ms, n, chunks0, queue0);
  }

  /** Ingest reads every frame before the first non-frame, and that one when there is one. */
  lemma IngestLengthSpec(ms: seq<Inbound>)
    ensures var n := IngestLength(ms);
      (forall i :: 0 <= i < n - 1 ==> ms[i].Frame?)
      && (n < |ms| ==> n > 0 && !ms[n - 1].Frame?)
      && ((forall i :: 0 <= i < |ms| ==> ms[i].Frame?) ==> n == |ms|)
  {
  }

  /** Every frame is kept, empty or silent ones included: one chunk per frame read. */
  lemma {:induction false} ChunksKeepEveryFrame(ms: seq<Inbound>)
    requires forall i :: 0 <= i < |ms| ==> ms[i].Frame?
    ensures |Chunks(ms)| == |ms|
    ensures forall i :: 0 <= i < |ms| ==> Chunks(ms)[i] == ms[i].bytes
    decreases |ms|
  {
    if ms != [] {
      ChunksKeepEveryFrame(ms[..|ms| - 1]);
    }
  }

  /** How many messages `handle` ingests: none when streaming was already off. */
  function IngestCount(ms: seq<Inbound>, streaming: bool): nat
  {
    if streaming then IngestLength(ms) else 0
  }

  /** Whether ingest ended on a text frame, where `receive_bytes` raises. */
  predicate RaisedAt(ms: seq<Inbound>, streaming: bool)
  {
    var n := IngestCount(ms, streaming);
    n > 0 && ms[n - 1].TextFrame?
  }

  lemma IngestLengthAt(ms: seq<Inbound>, n: nat, streaming: bool, stop: bool)
    requires n <= |ms|
    requires stop <==> n > 0 && !ms[n - 1].Frame?
    requires forall i :: 0 <= i < n - 1 ==> ms[i].Frame?
    requires !streaming || stop || n == |ms|
    requires !streaming ==> n == 0
    ensures n == if streaming then IngestLength(ms) else 0
  {
    if streaming {
      var ok := (m: Inbound) => !m.Frame?;
      if stop {
        assert ok(ms[n - 1]);
        assert forall i :: 0 <= i < n - 1 ==> !ok(ms[i]);
      } else {
        assert forall i :: 0 <= i < |ms| ==> !ok(ms[i]);
      }
    }
  }

  // ---------------------------------------------------------------------------
  // Relaying without a guard.

  /**
   * The attempts of the relay loop and its error handler: the results are
   * sent until one send fails; that failure is then reported with
   * `failureText`, or, when every result went out, a provider error with its
   * own text.
   */
  function RelayLog(rs: seq<StreamingTranscribeResponse>, error: Option<string>, start: nat,
                    transport: nat -> bool, failureText: string): seq<Attempt>
  {
    var d := Deliver(TranscriptMessages(rs), start, false, transport);
    var failed := ClosedAfter(TranscriptMessages(rs), start, false, transport);
    d + (if failed then [Attempt(ErrorMessage(failureText), transport(start + |d|))]
         else if error.Some? then [Attempt(ErrorMessage(error.value), transport(start + |d|))]
         else [])
  }

  /** How many results were delivered: those before the failed send, or all of them. */
  function RelayedCount(rs: seq<StreamingTranscribeResponse>, start: nat, transport: nat -> bool): nat {
    var d := Deliver(TranscriptMessages(rs), start, false, transport);
    if ClosedAfter(TranscriptMessages(rs), start, false, transport) && |d| > 0 then |d| - 1 else |d|
  }

  /**
   * The results are delivered in order up to the first failed send; after it
   * only the error report is attempted; and without any failure every result
   * goes out, followed by the provider error if there was one.
   */
  lemma RelayLogSpec(rs: seq<StreamingTranscribeResponse>, error: Option<string>, start: nat,
                     transport: nat -> bool, failureText: string)
    ensures var log := RelayLog(rs, error, start, transport, failureText);
      var n := RelayedCount(rs, start, transport);
      n <= |rs|
      && (forall i :: 0 <= i < n ==> log[i] == Attempt(TranscriptMessage(rs[i]), true))
      && (n < |rs| ==>
            |log| == n + 2 && log[n] == Attempt(TranscriptMessage(rs[n]), false)
            && log[n + 1].message == ErrorMessage(failureText))
      && (n == |rs| ==>
            |log| == n + (if error.Some? then 1 else 0)
            && (error.Some? ==> log[n].message == ErrorMessage(error.value)))
  {
    DeliverSpec(TranscriptMessages(rs), start, false, transport);
  }

  /** A socket that accepts everything gets every result, then the provider error, if any. */
  lemma RelayLogAllDelivered(rs: seq<StreamingTranscribeResponse>, error: Option<string>, start: nat,
                             transport: nat -> bool, failureText: string)
    requires forall k :: start <= k < start + |rs| ==> transport(k)
    ensures RelayedCount(rs, start, transport) == |rs|
    ensures |RelayLog(rs, error, start, transport, failureText)| == |rs| + (if error.Some? then 1 else 0)
  {
    DeliverAll(TranscriptMessages(rs), start, transport);
  }

  /**
   * The identifier the client is told is the consumer's own UUID, but the
   * stored session carries the one drawn for the record: unless an older
   * session already had the consumer's UUID, the lookup by the announced
   * identifier misses the session just created. The row is the one
   * `VoiceSessionService.CreateSession` appends for a request without a
   * session id.
   */
  lemma AnnouncedIdMissesSession(rows: seq<VoiceSession>, request: SessionRequest, consumerId: Uuid, drawn: Uuid, id: int)
    requires request.sessionId.None? && drawn != consumerId
    requires FindBySessionId(rows, consumerId).None?
    ensures var stored := VoiceSession(id, request.sessionId.GetOr(drawn), request.userId, request.audioPath,
                                       request.sttText, request.sttConfidence, None);
      FindBySessionId(rows + [stored], consumerId).None?
  {
    var stored := VoiceSession(id, drawn, request.userId, request.audioPath,
                               request.sttText, request.sttConfidence, None);
    var all := rows + [stored];
    assert all[|rows|] == stored;
    assert forall i :: 0 <= i < |rows| ==> all[i] == rows[i];
  }

  /** Passing the consumer's UUID, as the backend consumer does, makes the announced identifier find the session. */
  lemma AnnouncedIdFindsSession(rows: seq<VoiceSession>, request: SessionRequest, consumerId: Uuid, drawn: Uuid, id: int)
    requires request.sessionId == Some(consumerId)
    requires FindBySessionId(rows, consumerId).None?
    ensures var stored := VoiceSession(id, request.sessionId.GetOr(drawn), request.userId, request.audioPath,
                                       request.sttText, request.sttConfidence, None);
      FindBySessionId(rows + [stored], consumerId) == Some(stored)
  {
    var stored := VoiceSession(id, consumerId, request.userId, request.audioPath,
                               request.sttText, request.sttConfidence, None);
    var all := rows + [stored];
    assert all[|rows|] == stored;
    assert forall i :: 0 <= i < |rows| ==> all[i] == rows[i];
  }

  // ---------------------------------------------------------------------------
  // The consumer.

  class Consumer {
    const userId: int
    const language: Option<LanguageCode>
    const sampleRate: int
    const sessionId: Uuid
    const sessionIdText: string
    const timestamp: string
    const recordingsDir: string
    const transport: nat -> bool
    /** `str(e)` of the exception a failed send raises. */
    const failureText: string

    var audioQueue: seq<Option<Bytes>>
    var audioChunks: seq<Bytes>
    var isStreaming: bool
    var finalTranscript: string
    var finalConfidence: real

    var outbox: seq<Attempt>
    var closeCalls: nat
    var savedFile: Option<WavFile>
    var sessionRequest: Option<SessionRequest>

    ghost predicate Valid()
      reads this
    {
      AttemptsAsDecided(outbox, transport) && SignalOnly(audioQueue)
    }

    constructor (userId: int, language: Option<LanguageCode>, sampleRate: int, sessionId: Uuid,
                 sessionIdText: string, timestamp: string, recordingsDir: string, transport: nat -> bool,
                 failureText: string)
      ensures Valid()
      ensures this.userId == userId && this.language == language && this.sampleRate == sampleRate
      ensures this.sessionId == sessionId && this.sessionIdText == sessionIdText
      ensures this.timestamp == timestamp && this.recordingsDir == recordingsDir
      ensures this.transport == transport && this.failureText == failureText
      ensures audioQueue == [] && audioChunks == [] && isStreaming
      ensures finalTranscript == "" && finalConfidence == 0.0
      ensures outbox == [] && closeCalls == 0 && savedFile.None? && sessionRequest.None?
    {
      this.userId := userId;
      this.language := language;
      this.sampleRate := sampleRate;
      this.sessionId := sessionId;
      this.sessionIdText := sessionIdText;
      this.timestamp := timestamp;
      this.recordingsDir := recordingsDir;
      this.transport := transport;
      this.failureText := failureText;
      audioQueue := [];
      audioChunks := [];
      isStreaming := true;
      finalTranscript := "";
      finalConfidence := 0.0;
      outbox := [];
      closeCalls := 0;
      savedFile := None;
      sessionRequest := None;
    }

    /** One unguarded `send_json`: always attempted; `ok` says whether it went out. */
    method TrySend(m: Outbound) returns (ok: bool)
      requires AttemptsAsDecided(outbox, transport)
      modifies this`outbox
      ensures AttemptsAsDecided(outbox, transport)
      ensures ok == transport(|old(outbox)|)
      ensures outbox == old(outbox) + [Attempt(m, ok)]
    {
      ok := transport(|outbox|);
      outbox := outbox + [Attempt(m, ok)];
    }

    /** `_close_websocket`: always called, its failure only logged. */
    method CloseWebsocket()
      modifies this`closeCalls
      ensures closeCalls == old(closeCalls) + 1
    {
      closeCalls := closeCalls + 1;
    }

    // -------------------------------------------------------------------------
    // Ingest.

    /** One frame: kept for the recording, and queued if it carries signal. */
    method ReceiveFrame(audio: Bytes)
      requires SignalOnly(audioQueue)
      modifies this`audioChunks, this`audioQueue
      ensures SignalOnly(audioQueue)
      ensures audioChunks == old(audioChunks) + [audio]
      ensures audioQueue == old(audioQueue)
        + (if HasAudioSignal(audio, AudioSilenceThreshold) then [Some(audio)] else [])
    {
      audioChunks := audioChunks + [audio];
      if HasAudioSignal(audio, AudioSilenceThreshold) {
        var entry: seq<Option<Bytes>> := [Some(audio)];
        assert entry[1..] == [];
        SignalOnlyAppend(audioQueue, entry);
        audioQueue := audioQueue + entry;
      }
    }

    method PutSentinel()
      requires SignalOnly(audioQueue)
      modifies this`audioQueue
      ensures SignalOnly(audioQueue)
      ensures audioQueue == old(audioQueue) + [None]
    {
      var sentinel: seq<Option<Bytes>> := [None];
      assert sentinel[1..] == [];
      SignalOnlyAppend(audioQueue, sentinel);
      audioQueue := audioQueue + sentinel;
    }

    /** One `receive_bytes`: a frame is kept; a disconnect ends the loop, and a text frame raises. */
    method ReceiveOne(m: Inbound) returns (stop: bool, raised: bool)
      requires SignalOnly(audioQueue)
      modifies this`audioChunks, this`audioQueue
      ensures SignalOnly(audioQueue)
      ensures stop == !m.Frame? && raised == m.TextFrame?
      ensures audioChunks == old(audioChunks) + Chunks([m])
      ensures audioQueue == old(audioQueue) + Queued([m])
    {
      var one: seq<Inbound> := [m];
      assert one[..0] == [];
      stop, raised := false, false;
      match m
      case Frame(bytes) =>
        ReceiveFrame(bytes);
      case Disconnect =>
        stop := true;
      case TextFrame =>
        stop, raised := true, true;
    }

    /**
     * `_receive_audio`: reads frames while streaming until a disconnect, a
     * frame without bytes (`raised`) or the end of the messages; then
     * streaming is off and the sentinel follows all queued audio.
     */
    method ReceiveAudio(messages: seq<Inbound>) returns (consumed: nat, raised: bool)
      requires SignalOnly(audioQueue)
      modifies this`audioChunks, this`audioQueue, this`isStreaming
      ensures SignalOnly(audioQueue) && !isStreaming
      ensures consumed == if old(isStreaming) then IngestLength(messages) else 0
      ensures audioChunks == old(audioChunks) + Chunks(messages[..consumed])
      ensures audioQueue == old(audioQueue) + Queued(messages[..consumed]) + [None]
      ensures raised <==> consumed > 0 && messages[consumed - 1].TextFrame?
    {
      consumed := 0;
      var stop := false;
      raised := false;
      var streaming := isStreaming;
      ghost var chunks0, queue0 := audioChunks, audioQueue;
      while streaming && !stop && consumed < |messages|
        invariant !streaming ==> consumed == 0
        invariant SignalOnly(audioQueue)
        invariant Ingested(messages, consumed, stop, raised, chunks0, queue0, audioChunks, audioQueue)
      {
        ghost var chunks, queue := audioChunks, audioQueue;
        var stop', raised' := ReceiveOne(messages[consumed]);
        IngestAdvance(messages, consumed, stop, raised, chunks0, queue0, chunks, queue,
                      stop', raised', audioChunks, audioQueue);
        stop, raised := stop', raised';
        consumed := consumed + 1;
      }
      IngestLengthAt(messages, consumed, streaming, stop);
      isStreaming := false;
      PutSentinel();
    }

    // -------------------------------------------------------------------------
    // Transcription.

    /** `_audio_generator`, as in the backend consumer. */
    method AudioGenerator(first: Bytes, budget: nat) returns (fed: seq<Bytes>)
      requires SignalOnly(audioQueue)
      modifies this`audioQueue
      ensures SignalOnly(audioQueue)
      ensures fed == [first] + FedChunks(old(audioQueue), budget)
      ensures audioQueue == old(audioQueue)[DrainCount(old(audioQueue), budget)..]
    {
      fed := [first];
      var taken := 0;
      ghost var q0 := audioQueue;
      ghost var left: nat := budget;
      while taken < budget && audioQueue != []
        invariant SignalOnly(audioQueue)
        invariant Draining(q0, budget, first, taken, left, audioQueue, fed)
      {
        var chunk := audioQueue[0];
        ghost var q, f, t, l := audioQueue, fed, taken, left;
        audioQueue := audioQueue[1..];
        if chunk.None? {
          DrainSentinel(q0, budget, first, taken, left, q, fed);
          return;
        }
        fed := fed + [chunk.value];
        taken := taken + 1;
        left := left - 1;
        DrainAdvance(q0, budget, first, t, l, q, f, taken, left, audioQueue, fed);
      }
      DrainStop(q0, budget, first, taken, left, audioQueue, fed);
    }

    /**
     * The relay of the provider's results: the loop, then the error handler,
     * which reports the failed send or, when every result went out, the
     * provider error.
     */
    method RelayResults(out: seq<StreamingTranscribeResponse>, error: Option<string>)
      requires AttemptsAsDecided(outbox, transport)
      modifies this`finalTranscript, this`finalConfidence, this`outbox
      ensures AttemptsAsDecided(outbox, transport)
      ensures outbox == old(outbox) + RelayLog(out, error, |old(outbox)|, transport, failureText)
      ensures var n := RelayedCount(out, |old(outbox)|, transport);
        n <= |out|
        && finalTranscript == TranscriptAfter(out[..n], old(finalTranscript))
        && finalConfidence == ConfidenceAfter(out[..n], old(finalConfidence))
    {
      ghost var o0 := outbox;
      var failed := RelayTranscripts(out);
      if failed {
        var _ := TrySend(ErrorMessage(failureText));
      } else if error.Some? {
        var _ := TrySend(ErrorMessage(error.value));
      }
    }

    /**
     * The relay loop: each result is sent first and becomes the transcript
     * (if final) only once the send went out; the first failed send ends it.
     */
    method RelayTranscripts(out: seq<StreamingTranscribeResponse>) returns (failed: bool)
      requires AttemptsAsDecided(outbox, transport)
      modifies this`finalTranscript, this`finalConfidence, this`outbox
      ensures AttemptsAsDecided(outbox, transport)
      ensures outbox == old(outbox) + Deliver(TranscriptMessages(out), |old(outbox)|, false, transport)
      ensures failed == ClosedAfter(TranscriptMessages(out), |old(outbox)|, false, transport)
      ensures var n := RelayedCount(out, |old(outbox)|, transport);
        n <= |out|
        && finalTranscript == TranscriptAfter(out[..n], old(finalTranscript))
        && finalConfidence == ConfidenceAfter(out[..n], old(finalConfidence))
    {
      ghost var o0, t0, c0 := outbox, finalTranscript, finalConfidence;
      var k := 0;
      failed := false;
      ghost var n := 0;
      while k < |out| && !failed
        invariant AttemptsAsDecided(outbox, transport)
        invariant Relaying(out, o0, t0, c0, transport, k, n, failed, outbox, finalTranscript, finalConfidence)
      {
        ghost var log, ft, fc, k0, n0 := outbox, finalTranscript, finalConfidence, k, n;
        var ok := SendResult(out[k]);
        failed := !ok;
        k := k + 1;
        if ok {
          n := k;
        }
        RelayAdvance(out, o0, t0, c0, transport, k0, n0, log, ft, fc, ok, outbox, finalTranscript, finalConfidence,
                     k, n, failed);
      }
      RelayFinish(out, o0, t0, c0, transport, k, n, failed, outbox, finalTranscript, finalConfidence);
    }

    /** One result: sent, and then, if it went out and is final, kept as the transcript. */
    method SendResult(r: StreamingTranscribeResponse) returns (ok: bool)
      requires AttemptsAsDecided(outbox, transport)
      modifies this`finalTranscript, this`finalConfidence, this`outbox
      ensures AttemptsAsDecided(outbox, transport)
      ensures ok == transport(|old(outbox)|)
      ensures outbox == old(outbox) + [Attempt(TranscriptMessage(r), ok)]
      ensures finalTranscript == if ok && r.isFinal then r.text else old(finalTranscript)
      ensures finalConfidence == if ok && r.isFinal then r.confidence.GetOr(0.0) else old(finalConfidence)
    {
      ok := TrySend(TranscriptMessage(r));
      if ok && r.isFinal {
        finalTranscript := r.text;
        finalConfidence := r.confidence.GetOr(0.0);
      }
    }

    /**
     * The results the send stage delivers for the queue `q`, with the log
     * at `start` attempts: none when it starts with the sentinel, otherwise
     * the provider's results for the requests of the first chunk and of those
     * the generator feeds after it, up to the first failed send.
     */
    function DeliveredResults(q: seq<Option<Bytes>>, start: nat, config: VoiceConfig, budget: nat,
                              provider: seq<Request> -> ProviderOutcome): seq<StreamingTranscribeResponse>
    {
      if q == [] || q[0].None? then []
      else
        var outcome := provider(RequestsFor(config.projectId, UsedLanguage(language, config), sampleRate,
                                            [q[0].value] + FedChunks(q[1..], budget)));
        var rs := Yielded(Flatten(outcome.responses));
        rs[..RelayedCount(rs, start, transport)]
    }

    /**
     * The results relayed while the two tasks run from the queue `q0`: those
     * delivered for the queue ingest leaves, or none when ingest raised.
     */
    function GatherResults(q0: seq<Option<Bytes>>, messages: seq<Inbound>, streaming: bool, start: nat,
                           config: VoiceConfig, budget: nat,
                           provider: seq<Request> -> ProviderOutcome): seq<StreamingTranscribeResponse>
    {
      if RaisedAt(messages, streaming) then []
      else DeliveredResults(q0 + Queued(messages[..IngestCount(messages, streaming)]) + [None], start, config, budget, provider)
    }

    /**
     * `_send_results`: the first queue entry, then (unless it is the sentinel)
     * the provider over the generated requests and the relay of its results.
     */
    method SendResults(config: VoiceConfig, budget: nat, provider: seq<Request> -> ProviderOutcome)
      requires Valid()
      modifies this`audioQueue, this`finalTranscript, this`finalConfidence, this`outbox, this`isStreaming
      ensures finalTranscript
        == TranscriptAfter(DeliveredResults(old(audioQueue), |old(outbox)|, config, budget, provider), old(finalTranscript))
      ensures finalConfidence
        == ConfidenceAfter(DeliveredResults(old(audioQueue), |old(outbox)|, config, budget, provider), old(finalConfidence))
      ensures old(outbox) <= outbox
      ensures Valid() && !isStreaming
      ensures old(audioQueue) == [] || old(audioQueue)[0].None? ==>
        audioQueue == (if old(audioQueue) == [] then [] else old(audioQueue)[1..])
        && finalTranscript == old(finalTranscript) && finalConfidence == old(finalConfidence)
        && outbox == old(outbox)
      ensures old(audioQueue) != [] && old(audioQueue)[0].Some? ==>
        var q := old(audioQueue)[1..];
        var outcome := provider(RequestsFor(config.projectId, UsedLanguage(language, config), sampleRate,
                                            [old(audioQueue)[0].value] + FedChunks(q, budget)));
        var rs := Yielded(Flatten(outcome.responses));
        var n := RelayedCount(rs, |old(outbox)|, transport);
        audioQueue == q[DrainCount(q, budget)..]
        && n <= |rs|
        && finalTranscript == TranscriptAfter(rs[..n], old(finalTranscript))
        && finalConfidence == ConfidenceAfter(rs[..n], old(finalConfidence))
        && outbox == old(outbox) + RelayLog(rs, outcome.error, |old(outbox)|, transport, failureText)
    {
      if audioQueue == [] {
        isStreaming := false;
        return;
      }
      var chunk := audioQueue[0];
      SignalOnlyTail(audioQueue);
      audioQueue := audioQueue[1..];
      if chunk.None? {
        isStreaming := false;
        return;
      }
      var fed := AudioGenerator(chunk.value, budget);
      var requests, out, error := StreamTranscribe(config, language, sampleRate, fed, provider);
      RelayResults(out, error);
      isStreaming := false;
    }

    // -------------------------------------------------------------------------
    // Cleanup.

    method SaveAudio(saveOk: bool) returns (audioPath: Option<string>)
      modifies this`savedFile
      ensures audioPath.Some? <==> audioChunks != [] && saveOk
      ensures audioPath.Some? ==>
        audioPath.value == RecordingPath(recordingsDir, timestamp, sessionIdText, language)
        && savedFile == Some(WavFile(audioPath.value, WavChannels, WavSampleWidth, sampleRate, Concat(audioChunks)))
      ensures audioPath.None? ==> savedFile == old(savedFile)
    {
      if audioChunks == [] {
        return None;
      }
      if !saveOk {
        return None;
      }
      var path := RecordingPath(recordingsDir, timestamp, sessionIdText, language);
      savedFile := Some(WavFile(path, WavChannels, WavSampleWidth, sampleRate, Concat(audioChunks)));
      audioPath := Some(path);
    }

    /** `_create_voice_session`: the call carries no UUID; the stored record draws its own. */
    method CreateVoiceSession(audioPath: string, createOk: bool) returns (created: bool)
      modifies this`sessionRequest
      ensures sessionRequest == Some(SessionRequest(userId, audioPath, finalTranscript, finalConfidence, None))
      ensures created == createOk
    {
      sessionRequest := Some(SessionRequest(userId, audioPath, finalTranscript, finalConfidence, None));
      created := createOk;
    }

    /**
     * `_cleanup`: streaming off, the recording saved, a session created for a
     * saved recording with a transcript and then announced under the
     * consumer's UUID, and the close call, which always happens.
     */
    method Cleanup(saveOk: bool, createOk: bool) returns (audioPath: Option<string>, created: bool)
      requires AttemptsAsDecided(outbox, transport)
      modifies this`isStreaming, this`savedFile, this`sessionRequest, this`outbox, this`closeCalls
      ensures old(outbox) <= outbox
      ensures AttemptsAsDecided(outbox, transport) && !isStreaming
      ensures audioPath.Some? <==> audioChunks != [] && saveOk
      ensures audioPath.Some? ==> audioPath.value == RecordingPath(recordingsDir, timestamp, sessionIdText, language)
      ensures savedFile == (if audioChunks != [] && saveOk
                            then Some(WavFile(RecordingPath(recordingsDir, timestamp, sessionIdText, language),
                                              WavChannels, WavSampleWidth, sampleRate, Concat(audioChunks)))
                            else old(savedFile))
      ensures sessionRequest == (if audioChunks != [] && saveOk && finalTranscript != ""
                                 then Some(SessionRequest(userId, RecordingPath(recordingsDir, timestamp, sessionIdText, language),
                                                          finalTranscript, finalConfidence, None))
                                 else old(sessionRequest))
      ensures created <==> audioChunks != [] && saveOk && finalTranscript != "" && createOk
      ensures outbox == old(outbox)
        + (if created then [Attempt(SessionCreated(sessionId, finalTranscript, finalConfidence), transport(|old(outbox)|))]
           else [])
      ensures closeCalls == old(closeCalls) + 1
    {
      isStreaming := false;
      audioPath := SaveAudio(saveOk);
      created := false;
      if audioPath.Some? && finalTranscript != "" {
        created := CreateVoiceSession(audioPath.value, createOk);
        if created {
          var _ := TrySend(SessionCreated(sessionId, finalTranscript, finalConfidence));
        }
      }
      CloseWebsocket();
    }

    /**
     * `asyncio.gather(receive_task, send_task)`: ingest, then the send stage
     * unless ingest raised (the exception leaves `gather`, and the cleanup
     * cancels the send task). The transcript is the last final result among
     * those relayed before the first failed send, and after a raise nothing
     * was sent.
     */
    method Gather(messages: seq<Inbound>, config: VoiceConfig, budget: nat,
                  provider: seq<Request> -> ProviderOutcome) returns (raised: bool)
      requires Valid()
      modifies this`audioChunks, this`audioQueue, this`isStreaming, this`finalTranscript, this`finalConfidence,
               this`outbox
      ensures Valid() && !isStreaming
      ensures old(outbox) <= outbox
      ensures audioChunks == old(audioChunks) + Chunks(messages[..IngestCount(messages, old(isStreaming))])
      ensures raised == RaisedAt(messages, old(isStreaming))
      ensures finalTranscript
        == TranscriptAfter(GatherResults(old(audioQueue), messages, old(isStreaming), |old(outbox)|, config, budget,
                                         provider), old(finalTranscript))
      ensures finalConfidence
        == ConfidenceAfter(GatherResults(old(audioQueue), messages, old(isStreaming), |old(outbox)|, config, budget,
                                         provider), old(finalConfidence))
      ensures raised ==> outbox == old(outbox)
    {
      ghost var n := IngestCount(messages, isStreaming);
      ghost var q := audioQueue + Queued(messages[..n]) + [None];
      var consumed;
      consumed, raised := ReceiveAudio(messages);
      assert consumed == n && audioQueue == q;
      if !raised {
        SendResults(config, budget, provider);
      }
    }

    /**
     * `handle`: the two tasks, then cleanup. The recording is every frame
     * ingest read, and the file and the session request are those the
     * cleanup makes of it and of the transcript. The socket is closed
     * exactly once and every earlier attempt is kept; after a raise, the
     * only attempt is the announcement of a created session.
     */
    method Handle(messages: seq<Inbound>, config: VoiceConfig, budget: nat,
                  provider: seq<Request> -> ProviderOutcome, saveOk: bool, createOk: bool)
      requires Valid()
      modifies this
      ensures Valid() && !isStreaming
      ensures closeCalls == old(closeCalls) + 1
      ensures old(outbox) <= outbox
      ensures audioChunks == old(audioChunks) + Chunks(messages[..IngestCount(messages, old(isStreaming))])
      ensures finalTranscript
        == TranscriptAfter(GatherResults(old(audioQueue), messages, old(isStreaming), |old(outbox)|, config, budget,
                                         provider), old(finalTranscript))
      ensures finalConfidence
        == ConfidenceAfter(GatherResults(old(audioQueue), messages, old(isStreaming), |old(outbox)|, config, budget,
                                         provider), old(finalConfidence))
      ensures savedFile == (if audioChunks != [] && saveOk
                            then Some(WavFile(RecordingPath(recordingsDir, timestamp, sessionIdText, language),
                                              WavChannels, WavSampleWidth, sampleRate, Concat(audioChunks)))
                            else old(savedFile))
      ensures sessionRequest == (if audioChunks != [] && saveOk && finalTranscript != ""
                                 then Some(SessionRequest(userId, RecordingPath(recordingsDir, timestamp, sessionIdText, language),
                                                          finalTranscript, finalConfidence, None))
                                 else old(sessionRequest))
      ensures RaisedAt(messages, old(isStreaming)) ==>
        outbox == old(outbox)
          + (if audioChunks != [] && saveOk && finalTranscript != "" && createOk
             then [Attempt(SessionCreated(sessionId, finalTranscript, finalConfidence), transport(|old(outbox)|))]
             else [])
    {
      ghost var o0 := outbox;
      var raised := Gather(messages, config, budget, provider);
      ghost var o1 := outbox;
      var _, _ := Cleanup(saveOk, createOk);
      PrefixTrans(o0, o1, outbox);
    }
  }

  /** One more result sent while the socket is still open is one more attempt, at the next index. */
  lemma RelayOpenStep(log: seq<Attempt>, done: seq<StreamingTranscribeResponse>, r: StreamingTranscribeResponse,
                      transport: nat -> bool)
    requires !ClosedAfter(TranscriptMessages(done), |log|, false, transport)
    requires |Deliver(TranscriptMessages(done), |log|, false, transport)| == |done|
    ensures var d := Deliver(TranscriptMessages(done), |log|, false, transport);
      var d1 := Deliver(TranscriptMessages(done + [r]), |log|, false, transport);
      log + d + [Attempt(TranscriptMessage(r), transport(|log| + |done|))] == log + d1
      && |d1| == |done| + 1
      && ClosedAfter(TranscriptMessages(done + [r]), |log|, false, transport) == !transport(|log| + |done|)
  {
    RelayStep(log, done, r, false, transport);
  }

  /**
   * The state of the relay loop after `k` results: the first `n` of them went
   * out (all `k` of them unless the last one failed), each was one attempt,
   * and the transcript is the one of the delivered results.
   */
  ghost predicate Relaying(out: seq<StreamingTranscribeResponse>, o0: seq<Attempt>, t0: string, c0: real,
                           transport: nat -> bool, k: nat, n: nat, failed: bool,
                           outbox: seq<Attempt>, ft: string, fc: real)
  {
    n <= k <= |out| && n == (if failed then k - 1 else k)
    && outbox == o0 + Deliver(TranscriptMessages(out[..k]), |o0|, false, transport)
    && failed == ClosedAfter(TranscriptMessages(out[..k]), |o0|, false, transport)
    && |Deliver(TranscriptMessages(out[..k]), |o0|, false, transport)| == k
    && ft == TranscriptAfter(out[..n], t0) && fc == ConfidenceAfter(out[..n], c0)
  }

  /** One more send on the open socket advances the relay loop by one result. */
  lemma RelayAdvance(out: seq<StreamingTranscribeResponse>, o0: seq<Attempt>, t0: string, c0: real,
                     transport: nat -> bool, k: nat, n: nat, outbox: seq<Attempt>, ft: string, fc: real,
                     ok: bool, outbox': seq<Attempt>, ft': string, fc': real, k': nat, n': nat, failed': bool)
    requires Relaying(out, o0, t0, c0, transport, k, n, false, outbox, ft, fc) && k < |out|
    requires ok == transport(|outbox|) && outbox' == outbox + [Attempt(TranscriptMessage(out[k]), ok)]
    requires ft' == (if ok && out[k].isFinal then out[k].text else ft)
    requires fc' == (if ok && out[k].isFinal then out[k].confidence.GetOr(0.0) else fc)
    requires k' == k + 1 && n' == (if ok then k + 1 else n) && failed' == !ok
    ensures Relaying(out, o0, t0, c0, transport, k', n', failed', outbox', ft', fc')
  {
    LastFinalStep(out[..k], out[k], t0, c0);
    PrefixSnoc(out, k);
    RelayOpenStep(o0, out[..k], out[k], transport);
  }

  /** When the relay loop ends, it has done what the whole relay does. */
  lemma RelayFinish(out: seq<StreamingTranscribeResponse>, o0: seq<Attempt>, t0: string, c0: real,
                    transport: nat -> bool, k: nat, n: nat, failed: bool,
                    outbox: seq<Attempt>, ft: string, fc: real)
    requires Relaying(out, o0, t0, c0, transport, k, n, failed, outbox, ft, fc) && (k == |out| || failed)
    ensures outbox == o0 + Deliver(TranscriptMessages(out), |o0|, false, transport)
    ensures failed == ClosedAfter(TranscriptMessages(out), |o0|, false, transport)
    ensures n == RelayedCount(out, |o0|, transport) && n <= |out|
    ensures ft == TranscriptAfter(out[..n], t0) && fc == ConfidenceAfter(out[..n], c0)
  {
    RelayEnd(out, k, |o0|, transport);
  }

  /** After the relay loop: a failure leaves the rest of the results unsent. */
  lemma RelayEnd(out: seq<StreamingTranscribeResponse>, k: nat, start: nat, transport: nat -> bool)
    requires k <= |out|
    requires k < |out| ==> ClosedAfter(TranscriptMessages(out[..k]), start, false, transport)
    ensures Deliver(TranscriptMessages(out), start, false, transport)
      == Deliver(TranscriptMessages(out[..k]), start, false, transport)
    ensures ClosedAfter(TranscriptMessages(out), start, false, transport)
      == ClosedAfter(TranscriptMessages(out[..k]), start, false, transport)
  {
    if k < |out| {
      assert out == out[..k] + out[k..];
      TranscriptMessagesAppend(out[..k], out[k..]);
      DeliverAppend(TranscriptMessages(out[..k]), TranscriptMessages(out[k..]), start, false, transport);
      DeliverSpec(TranscriptMessages(out[k..]), start + |Deliver(TranscriptMessages(out[..k]), start, false, transport)|,
                  true, transport);
    } else {
      assert out[..k] == out;
    }
  }
}
