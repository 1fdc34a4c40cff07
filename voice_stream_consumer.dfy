/**
 * `VoiceStreamConsumer`, the per-connection state machine behind the
 * streaming speech WebSocket: it collects the client's audio, feeds the
 * chunks that carry signal to the speech provider, relays the results,
 * and at the end saves the recording, records a voice session and tells
 * the client how it went.
 *
 * The receive and send tasks, which the source runs concurrently, run here
 * one after the other: `ReceiveAudio` over the messages the client sends,
 * then, unless a text message made it raise, `SendResults` over what the
 * provider returns, then `Cleanup`. Every
 * send goes through the `_websocket_closed` guard and every failed send
 * sets it; `Valid` states that no attempt follows the closing, that only the
 * last attempt can have failed, and that the socket is closed at most once.
 */
module VoiceStreamConsumer {
  import opened Wrappers
  import opened Sequences
  import opened VoiceTypes
  import opened StreamingVoice
  import opened VoiceSessions
  import opened StreamSession

  /** One event from `websocket.receive()`. */
  datatype Inbound =
    | Disconnect                                              // "websocket.disconnect", or WebSocketDisconnect raised
    | Receive(bytes: Option<Bytes>, text: Option<string>)     // "websocket.receive"
    | OtherEvent                                              // any other event type

  /** The audio a message carries: a receive event with non-empty bytes. */
  function AudioOf(m: Inbound): Option<Bytes> {
    if m.Receive? && m.bytes.Some? && m.bytes.value != [] then Some(m.bytes.value) else None
  }

  /** What `_handle_text_message` makes of a non-empty text frame. */
  datatype TextVerdict =
    | StopSignal    // a JSON object whose "type" is "stop"
    | NotStop       // invalid JSON (the decode error is caught), or an object of another type
    | NotAnObject   // valid JSON that is not an object: `data.get` raises AttributeError

  /** The text a message is judged by: a receive event without audio whose text is non-empty. */
  predicate IsTextMessage(m: Inbound) {
    m.Receive? && AudioOf(m).None? && m.text.Some? && m.text.value != ""
  }

  /**
   * Whether the message raises out of the receive loop: a text message that
   * is valid JSON but not an object. Only `WebSocketDisconnect` is caught
   * there, so ingest ends, and the exception leaves `gather`.
   */
  predicate Raises(m: Inbound, parse: string -> TextVerdict) {
    IsTextMessage(m) && parse(m.text.value) == NotAnObject
  }

  /**
   * Whether a message ends ingest: a disconnect, or a text message that is
   * the stop signal or raises. `parse` is the JSON parse of the text.
   */
  predicate EndsIngest(m: Inbound, parse: string -> TextVerdict) {
    m.Disconnect? || (IsTextMessage(m) && parse(m.text.value) != NotStop)
  }

  /** How many messages ingest reads: up to and including the first that ends it, or all of them. */
  function IngestLength(ms: seq<Inbound>, parse: string -> TextVerdict): (n: nat)
    ensures n <= |ms|
  {
    match FirstIndex(ms, (m: Inbound) => EndsIngest(m, parse))
    case None => |ms|
    case Some(k) => k + 1
  }

  /** The audio of the messages, in arrival order, silent chunks included. */
  function Chunks(ms: seq<Inbound>): seq<Bytes> {
    if ms == [] then []
    else Chunks(ms[..|ms| - 1]) + (if AudioOf(ms[|ms| - 1]).Some? then [AudioOf(ms[|ms| - 1]).value] else [])
  }

  /** The queue entries the messages produce: the audio chunks that carry signal, in order. */
  function Queued(ms: seq<Inbound>): seq<Option<Bytes>> {
    if ms == [] then []
    else
      var a := AudioOf(ms[|ms| - 1]);
      Queued(ms[..|ms| - 1]) + (if a.Some? && HasAudioSignal(a.value, AudioSilenceThreshold) then [a] else [])
  }

  /**
   * The state after ingest has read `n` of the messages, starting from
   * chunks `chunks0`, queue `queue0` and closed flag `closed0`: the two
   * collections extended in order, the stop and raised flags from the last
   * message read, no earlier message ending ingest, and the socket closed
   * by a disconnect read last.
   */
  ghost predicate Ingested(ms: seq<Inbound>, parse: string -> TextVerdict, n: nat, stop: bool, raised: bool,
                           chunks0: seq<Bytes>, queue0: seq<Option<Bytes>>, closed0: bool,
                           chunks: seq<Bytes>, queue: seq<Option<Bytes>>, closed: bool)
  {
    && n <= |ms|
    && chunks == chunks0 + Chunks(ms[..n])
    && queue == queue0 + Queued(ms[..n])
    && (n == 0 ==> !stop && !raised)
    && (n > 0 ==> stop == EndsIngest(ms[n - 1], parse) && raised == Raises(ms[n - 1], parse))
    && (forall i :: 0 <= i < n - 1 ==> !EndsIngest(ms[i], parse))
    && closed == (closed0 || (n > 0 && ms[n - 1].Disconnect?))
  }

  /** Reading one more message keeps `Ingested`. */
  lemma IngestAdvance(ms: seq<Inbound>, parse: string -> TextVerdict, n: nat, stop: bool, raised: bool,
                      chunks0: seq<Bytes>, queue0: seq<Option<Bytes>>, closed0: bool,
                      chunks: seq<Bytes>, queue: seq<Option<Bytes>>, closed: bool,
                      stop': bool, raised': bool, chunks': seq<Bytes>, queue': seq<Option<Bytes>>, closed': bool)
    requires Ingested(ms, parse, n, stop, raised, chunks0, queue0, closed0, chunks, queue, closed)
    requires !stop && n < |ms|
    requires stop' == EndsIngest(ms[n], parse) && raised' == Raises(ms[n], parse)
    requires chunks' == chunks + Chunks([ms[n]]) && queue' == queue + Queued([ms[n]])
    requires closed' == (closed || ms[n].Disconnect?)
    ensures Ingested(ms, parse, n + 1, stop', raised', chunks0, queue0, closed0, chunks', queue', closed')
  {
    IngestStep(ms, n, chunks0, queue0);
  }

  /**
   * The state of the relay loop after the first `k` results: the transcript
   * is the last final one among them, and the log and flag are those of
   * sending their messages through the guard.
   */
  ghost predicate Relaying(out: seq<StreamingTranscribeResponse>, o0: seq<Attempt>, w0: bool, t0: string, c0: real,
                           transport: nat -> bool, k: nat, outbox: seq<Attempt>, closed: bool, ft: string, fc: real)
  {
    k <= |out|
    && ft == TranscriptAfter(out[..k], t0) && fc == ConfidenceAfter(out[..k], c0)
    && outbox == o0 + Deliver(TranscriptMessages(out[..k]), |o0|, w0, transport)
    && closed == ClosedAfter(TranscriptMessages(out[..k]), |o0|, w0, transport)
  }

  /** Relaying one more result advances the loop by one. */
  lemma RelayAdvance(out: seq<StreamingTranscribeResponse>, o0: seq<Attempt>, w0: bool, t0: string, c0: real,
                     transport: nat -> bool, k: nat, outbox: seq<Attempt>, closed: bool, ft: string, fc: real,
                     k': nat, outbox': seq<Attempt>, closed': bool, ft': string, fc': real)
    requires Relaying(out, o0, w0, t0, c0, transport, k, outbox, closed, ft, fc) && k < |out| && k' == k + 1
    requires ft' == (if out[k].isFinal then out[k].text else ft)
    requires fc' == (if out[k].isFinal then out[k].confidence.GetOr(0.0) else fc)
    requires outbox' == outbox + Deliver([TranscriptMessage(out[k])], |outbox|, closed, transport)
    requires closed' == ClosedAfter([TranscriptMessage(out[k])], |outbox|, closed, transport)
    ensures Relaying(out, o0, w0, t0, c0, transport, k', outbox', closed', ft', fc')
  {
    LastFinalStep(out[..k], out[k], t0, c0);
    PrefixSnoc(out, k);
    RelayStep(o0, out[..k], out[k], w0, transport);
  }

  /** The message that ends `Cleanup`: created, nothing (creation failed), or no speech. */
  function Notification(saved: bool, transcript: string, created: bool, sessionId: Uuid, confidence: real)
    : seq<Outbound>
  {
    if saved && transcript != "" then (if created then [SessionCreated(sessionId, transcript, confidence)] else [])
    else [NoSpeech(NoSpeechText)]
  }

  // ---------------------------------------------------------------------------
  // Properties of the specification functions.

  /** Ingest reads exactly up to the first message that ends it; none before it does. */
  lemma IngestLengthSpec(ms: seq<Inbound>, parse: string -> TextVerdict)
    ensures var n := IngestLength(ms, parse);
      (forall i :: 0 <= i < n - 1 ==> !EndsIngest(ms[i], parse))
      && (n < |ms| ==> n > 0 && EndsIngest(ms[n - 1], parse))
      && ((forall i :: 0 <= i < |ms| ==> !EndsIngest(ms[i], parse)) ==> n == |ms|)
  {
  }

  /** Every queued entry is a received chunk that carries signal; silent chunks are kept but never queued. */
  lemma {:induction false} QueuedSpec(ms: seq<Inbound>)
    ensures |Queued(ms)| <= |Chunks(ms)|
    ensures forall i :: 0 <= i < |Queued(ms)| ==>
      Queued(ms)[i].Some? && Queued(ms)[i].value in Chunks(ms)
      && HasAudioSignal(Queued(ms)[i].value, AudioSilenceThreshold)
    decreases |ms|
  {
    if ms != [] {
      QueuedSpec(ms[..|ms| - 1]);
    }
  }

  lemma ChunksSnoc(ms: seq<Inbound>, m: Inbound)
    ensures Chunks(ms + [m]) == Chunks(ms) + Chunks([m])
    ensures Queued(ms + [m]) == Queued(ms) + Queued([m])
  {
    assert (ms + [m])[..|ms|] == ms;
    var one: seq<Inbound> := [m];
    assert one[..0] == [];
  }

  /** One more message read extends the ingest by its own chunks and queue entries. */
  lemma IngestStep(ms: seq<Inbound>, k: nat, chunks0: seq<Bytes>, queue0: seq<Option<Bytes>>)
    requires k < |ms|
    ensures chunks0 + Chunks(ms[..k + 1]) == (chunks0 + Chunks(ms[..k])) + Chunks([ms[k]])
    ensures queue0 + Queued(ms[..k + 1]) == (queue0 + Queued(ms[..k])) + Queued([ms[k]])
  {
    PrefixSnoc(ms, k);
    ChunksSnoc(ms[..k], ms[k]);
    AppendAssoc(chunks0, Chunks(ms[..k]), Chunks([ms[k]]));
    AppendAssoc(queue0, Queued(ms[..k]), Queued([ms[k]]));
  }

  /** How many messages `handle` ingests: none when streaming was already off. */
  function IngestCount(ms: seq<Inbound>, parse: string -> TextVerdict, streaming: bool): nat
  {
    if streaming then IngestLength(ms, parse) else 0
  }

  /** Whether ingest ended on a text message that raises. */
  predicate RaisedAt(ms: seq<Inbound>, parse: string -> TextVerdict, streaming: bool)
  {
    var n := IngestCount(ms, parse, streaming);
    n > 0 && Raises(ms[n - 1], parse)
  }

  /** Where the receive loop stops is where ingest ends. */
  lemma IngestLengthAt(ms: seq<Inbound>, parse: string -> TextVerdict, n: nat, streaming: bool, stop: bool)
    requires n <= |ms|
    requires stop <==> n > 0 && EndsIngest(ms[n - 1], parse)
    requires forall i :: 0 <= i < n - 1 ==> !EndsIngest(ms[i], parse)
    requires !streaming || stop || n == |ms|
    requires !streaming ==> n == 0
    ensures n == if streaming then IngestLength(ms, parse) else 0
  {
    if streaming {
      var ok := (m: Inbound) => EndsIngest(m, parse);
      if stop {
        assert ok(ms[n - 1]);
        assert forall i :: 0 <= i < n - 1 ==> !ok(ms[i]);
      } else {
        assert forall i :: 0 <= i < |ms| ==> !ok(ms[i]);
      }
    }
  }

  /** The messages relayed for the provider's results: one per result, then the error, if any. */
  function Relayed(rs: seq<StreamingTranscribeResponse>, error: Option<string>): (ms: seq<Outbound>)
    ensures |ms| == |rs| + (if error.Some? then 1 else 0)
    ensures forall i :: 0 <= i < |rs| ==> ms[i] == TranscriptMessage(rs[i])
    ensures error.Some? ==> ms[|rs|] == ErrorMessage(error.value)
  {
    TranscriptMessages(rs) + (if error.Some? then [ErrorMessage(error.value)] else [])
  }

  /** The created notification follows only a creation, no-speech only a missing file or transcript. */
  lemma NotificationSpec(saved: bool, transcript: string, created: bool, sessionId: Uuid, confidence: real)
    ensures var ms := Notification(saved, transcript, created, sessionId, confidence);
      |ms| <= 1
      && (ms != [] && ms[0].SessionCreated? <==> saved && transcript != "" && created)
      && (ms != [] && ms[0].NoSpeech? <==> !saved || transcript == "")
  {
  }

  // ---------------------------------------------------------------------------
  // The consumer.

  class Consumer {
    const userId: int
    const language: Option<LanguageCode>
    const sampleRate: int
    const sessionId: Uuid
    /** `str(session_id)`, as written into the recording's name. */
    const sessionIdText: string
    /** `datetime.now()` at construction, formatted `%Y%m%d_%H%M%S`. */
    const timestamp: string
    const recordingsDir: string
    /** Whether the k-th send attempt on the socket succeeds. */
    const transport: nat -> bool

    var audioQueue: seq<Option<Bytes>>
    var audioChunks: seq<Bytes>
    var isStreaming: bool
    var finalTranscript: string
    var finalConfidence: real
    var websocketClosed: bool

    /** What the socket saw: every send attempt, and the number of close calls. */
    var outbox: seq<Attempt>
    var closeCalls: nat
    /** The recording written, and the `create_session` call made, if any. */
    var savedFile: Option<WavFile>
    var sessionRequest: Option<SessionRequest>

    /** The number of attempts at the moment the socket was marked closed. */
    ghost var closedAt: Option<nat>

    ghost predicate Valid()
      reads this
    {
      GuardedLog(outbox, websocketClosed, closedAt, closeCalls, transport) && SignalOnly(audioQueue)
    }

    constructor (userId: int, language: Option<LanguageCode>, sampleRate: int, sessionId: Uuid,
                 sessionIdText: string, timestamp: string, recordingsDir: string, transport: nat -> bool)
      ensures Valid()
      ensures this.userId == userId && this.language == language && this.sampleRate == sampleRate
      ensures this.sessionId == sessionId && this.sessionIdText == sessionIdText
      ensures this.timestamp == timestamp && this.recordingsDir == recordingsDir && this.transport == transport
      ensures audioQueue == [] && audioChunks == [] && isStreaming
      ensures finalTranscript == "" && finalConfidence == 0.0 && !websocketClosed
      ensures outbox == [] && closeCalls == 0 && savedFile.None? && sessionRequest.None?
    {
      this.userId := userId;
      this.language := language;
      this.sampleRate := sampleRate;
      this.sessionId := sessionId;
      this.sessionIdText := sessionIdText;
      this.timestamp := timestamp;
      this.recordingsDir := recordingsDir;
      this.transport := transport;
      audioQueue := [];
      audioChunks := [];
      isStreaming := true;
      finalTranscript := "";
      finalConfidence := 0.0;
      websocketClosed := false;
      outbox := [];
      closeCalls := 0;
      savedFile := None;
      sessionRequest := None;
      closedAt := None;
    }

    /** One guarded `send_json`: nothing on a closed socket, and a failed attempt marks it closed. */
    method Send(m: Outbound)
      requires GuardedLog(outbox, websocketClosed, closedAt, closeCalls, transport)
      modifies this`outbox, this`websocketClosed, this`closedAt
      ensures GuardedLog(outbox, websocketClosed, closedAt, closeCalls, transport)
      ensures outbox == old(outbox) + Deliver([m], |old(outbox)|, old(websocketClosed), transport)
      ensures websocketClosed == ClosedAfter([m], |old(outbox)|, old(websocketClosed), transport)
    {
      if websocketClosed {
        return;
      }
      var ok := transport(|outbox|);
      outbox := outbox + [Attempt(m, ok)];
      if !ok {
        websocketClosed := true;
        closedAt := Some(|outbox|);
      }
    }

    method SendSessionCreatedNotification()
      requires GuardedLog(outbox, websocketClosed, closedAt, closeCalls, transport)
      modifies this`outbox, this`websocketClosed, this`closedAt
      ensures GuardedLog(outbox, websocketClosed, closedAt, closeCalls, transport)
      ensures var m := SessionCreated(sessionId, finalTranscript, finalConfidence);
        outbox == old(outbox) + Deliver([m], |old(outbox)|, old(websocketClosed), transport)
        && websocketClosed == ClosedAfter([m], |old(outbox)|, old(websocketClosed), transport)
    {
      Send(SessionCreated(sessionId, finalTranscript, finalConfidence));
    }

    method SendNoSpeechNotification()
      requires GuardedLog(outbox, websocketClosed, closedAt, closeCalls, transport)
      modifies this`outbox, this`websocketClosed, this`closedAt
      ensures GuardedLog(outbox, websocketClosed, closedAt, closeCalls, transport)
      ensures outbox == old(outbox) + Deliver([NoSpeech(NoSpeechText)], |old(outbox)|, old(websocketClosed), transport)
      ensures websocketClosed == ClosedAfter([NoSpeech(NoSpeechText)], |old(outbox)|, old(websocketClosed), transport)
    {
      Send(NoSpeech(NoSpeechText));
    }

    method SendError(error: string)
      requires GuardedLog(outbox, websocketClosed, closedAt, closeCalls, transport)
      modifies this`outbox, this`websocketClosed, this`closedAt
      ensures GuardedLog(outbox, websocketClosed, closedAt, closeCalls, transport)
      ensures outbox == old(outbox) + Deliver([ErrorMessage(error)], |old(outbox)|, old(websocketClosed), transport)
      ensures websocketClosed == ClosedAfter([ErrorMessage(error)], |old(outbox)|, old(websocketClosed), transport)
    {
      Send(ErrorMessage(error));
    }

    /** `_close_websocket`: only an open socket is closed, and it is marked closed before the call. */
    method CloseWebsocket()
      requires GuardedLog(outbox, websocketClosed, closedAt, closeCalls, transport)
      modifies this`websocketClosed, this`closeCalls, this`closedAt
      ensures GuardedLog(outbox, websocketClosed, closedAt, closeCalls, transport) && websocketClosed
      ensures closeCalls == old(closeCalls) + (if old(websocketClosed) then 0 else 1)
    {
      if websocketClosed {
        return;
      }
      websocketClosed := true;
      closedAt := Some(|outbox|);
      closeCalls := closeCalls + 1;
    }

    // -------------------------------------------------------------------------
    // Ingest.

    /** `_handle_audio_data`: every chunk is kept; only a chunk with signal is queued. */
    method HandleAudioData(audio: Bytes)
      requires SignalOnly(audioQueue)
      modifies this`audioChunks, this`audioQueue
      ensures SignalOnly(audioQueue)
      ensures audioChunks == old(audioChunks) + [audio]
      ensures audioQueue == old(audioQueue)
        + (if HasAudioSignal(audio, AudioSilenceThreshold) then [Some(audio)] else [])
    {
      audioChunks := audioChunks + [audio];
      if HasAudioSignal(audio, AudioSilenceThreshold) {
        var entry: seq<Option<Bytes>> := [Some(audio)];
        assert entry[1..] == [];
        SignalOnlyAppend(audioQueue, entry);
        audioQueue := audioQueue + entry;
      }
    }

    /**
     * `_process_websocket_message`: non-empty bytes are audio; otherwise
     * non-empty text may be the stop signal, or may raise (`raised`), which
     * ends the receive loop too.
     */
    method ProcessWebsocketMessage(bytes: Option<Bytes>, text: Option<string>, parse: string -> TextVerdict)
      returns (stop: bool, raised: bool)
      requires SignalOnly(audioQueue)
      modifies this`audioChunks, this`audioQueue
      ensures SignalOnly(audioQueue)
      ensures stop == EndsIngest(Receive(bytes, text), parse)
      ensures raised == Raises(Receive(bytes, text), parse)
      ensures audioChunks == old(audioChunks) + Chunks([Receive(bytes, text)])
      ensures audioQueue == old(audioQueue) + Queued([Receive(bytes, text)])
    {
      var m := Receive(bytes, text);
      assert [m][..0] == [];
      if bytes.Some? && bytes.value != [] {
        HandleAudioData(bytes.value);
        return false, false;
      }
      if text.Some? && text.value != "" {
        var verdict := parse(text.value);
        return verdict != NotStop, verdict == NotAnObject;
      }
      return false, false;
    }

    /** One iteration of the receive loop: a disconnect marks the socket closed and ends ingest. */
    method ReceiveOne(m: Inbound, parse: string -> TextVerdict) returns (stop: bool, raised: bool)
      requires Valid()
      modifies this`audioChunks, this`audioQueue, this`websocketClosed, this`closedAt
      ensures Valid()
      ensures stop == EndsIngest(m, parse) && raised == Raises(m, parse)
      ensures audioChunks == old(audioChunks) + Chunks([m])
      ensures audioQueue == old(audioQueue) + Queued([m])
      ensures websocketClosed == (old(websocketClosed) || m.Disconnect?)
    {
      var one: seq<Inbound> := [m];
      assert one[..0] == [];
      match m
      case Disconnect =>
        if !websocketClosed {
          closedAt := Some(|outbox|);
        }
        websocketClosed := true;
        stop, raised := true, false;
      case OtherEvent =>
        stop, raised := false, false;
      case Receive(bytes, text) =>
        stop, raised := ProcessWebsocketMessage(bytes, text, parse);
    }

    /**
     * `_receive_audio` over the messages the client sends: reads while
     * streaming until a stop signal, a disconnect (which marks the socket
     * closed), a text message that raises (`raised`) or the end of the
     * messages, then switches streaming off and puts the sentinel behind all
     * queued audio.
     */
    method ReceiveAudio(messages: seq<Inbound>, parse: string -> TextVerdict) returns (consumed: nat, raised: bool)
      requires Valid()
      modifies this`audioChunks, this`audioQueue, this`isStreaming, this`websocketClosed, this`closedAt
      ensures Valid() && !isStreaming
      ensures consumed == if old(isStreaming) then IngestLength(messages, parse) else 0
      ensures audioChunks == old(audioChunks) + Chunks(messages[..consumed])
      ensures audioQueue == old(audioQueue) + Queued(messages[..consumed]) + [None]
      ensures websocketClosed == (old(websocketClosed) || (consumed > 0 && messages[consumed - 1].Disconnect?))
      ensures raised <==> consumed > 0 && Raises(messages[consumed - 1], parse)
    {
      consumed := 0;
      var stop := false;
      raised := false;
      var streaming := isStreaming;
      ghost var chunks0, queue0, closed0 := audioChunks, audioQueue, websocketClosed;
      while streaming && !stop && consumed < |messages|
        invariant !streaming ==> consumed == 0
        invariant Valid()
        invariant Ingested(messages, parse, consumed, stop, raised, chunks0, queue0, closed0,
                           audioChunks, audioQueue, websocketClosed)
      {
        ghost var chunks, queue, closed := audioChunks, audioQueue, websocketClosed;
        var stop', raised' := ReceiveOne(messages[consumed], parse);
        IngestAdvance(messages, parse, consumed, stop, raised, chunks0, queue0, closed0, chunks, queue, closed,
                      stop', raised', audioChunks, audioQueue, websocketClosed);
        stop, raised := stop', raised';
        consumed := consumed + 1;
      }
      IngestLengthAt(messages, parse, consumed, streaming, stop);
      isStreaming := false;
      PutSentinel();
    }

    /** Puts the end-of-audio sentinel on the queue. */
    method PutSentinel()
      requires SignalOnly(audioQueue)
      modifies this`audioQueue
      ensures SignalOnly(audioQueue)
      ensures audioQueue == old(audioQueue) + [None]
    {
      var sentinel: seq<Option<Bytes>> := [None];
      assert sentinel[1..] == [];
      SignalOnlyAppend(audioQueue, sentinel);
      audioQueue := audioQueue + sentinel;
    }

    // -------------------------------------------------------------------------
    // Transcription.

    /**
     * `_audio_generator`: the first chunk, then queue entries in FIFO order
     * until the sentinel, an empty queue, or `budget` entries (the timeout).
     */
    method AudioGenerator(first: Bytes, budget: nat) returns (fed: seq<Bytes>)
      requires SignalOnly(audioQueue)
      modifies this`audioQueue
      ensures SignalOnly(audioQueue)
      ensures fed == [first] + FedChunks(old(audioQueue), budget)
      ensures audioQueue == old(audioQueue)[DrainCount(old(audioQueue), budget)..]
    {
      fed := [first];
      var taken := 0;
      ghost var q0 := audioQueue;
      ghost var left: nat := budget;
      while taken < budget && audioQueue != []
        invariant SignalOnly(audioQueue)
        invariant Draining(q0, budget, first, taken, left, audioQueue, fed)
      {
        var chunk := audioQueue[0];
        ghost var q, f, t, l := audioQueue, fed, taken, left;
        audioQueue := audioQueue[1..];
        if chunk.None? {
          DrainSentinel(q0, budget, first, taken, left, q, fed);
          return;
        }
        fed := fed + [chunk.value];
        taken := taken + 1;
        left := left - 1;
        DrainAdvance(q0, budget, first, t, l, q, f, taken, left, audioQueue, fed);
      }
      DrainStop(q0, budget, first, taken, left, audioQueue, fed);
    }

    /**
     * The body of `_send_results` once the provider has answered: every
     * yielded result updates the transcript if it is final and is then sent
     * through the guard; a provider error is sent last, as an error message.
     */
    method RelayResults(out: seq<StreamingTranscribeResponse>, error: Option<string>)
      requires GuardedLog(outbox, websocketClosed, closedAt, closeCalls, transport)
      modifies this`finalTranscript, this`finalConfidence, this`outbox, this`websocketClosed, this`closedAt
      ensures GuardedLog(outbox, websocketClosed, closedAt, closeCalls, transport)
      ensures finalTranscript == TranscriptAfter(out, old(finalTranscript))
      ensures finalConfidence == ConfidenceAfter(out, old(finalConfidence))
      ensures outbox == old(outbox) + Deliver(Relayed(out, error), |old(outbox)|, old(websocketClosed), transport)
      ensures websocketClosed == ClosedAfter(Relayed(out, error), |old(outbox)|, old(websocketClosed), transport)
    {
      ghost var o0, w0 := outbox, websocketClosed;
      ghost var tm := TranscriptMessages(out);
      RelayTranscripts(out);
      if error.Some? {
        ghost var e: seq<Outbound> := [ErrorMessage(error.value)];
        assert Relayed(out, error) == tm + e;
        DeliverMore(o0, tm, e, w0, transport);
        SendError(error.value);
      } else {
        assert Relayed(out, error) == tm;
      }
    }

    /** One result: a final one becomes the transcript, and the result is sent through the guard. */
    method RelayOne(r: StreamingTranscribeResponse)
      requires GuardedLog(outbox, websocketClosed, closedAt, closeCalls, transport)
      modifies this`finalTranscript, this`finalConfidence, this`outbox, this`websocketClosed, this`closedAt
      ensures GuardedLog(outbox, websocketClosed, closedAt, closeCalls, transport)
      ensures finalTranscript == if r.isFinal then r.text else old(finalTranscript)
      ensures finalConfidence == if r.isFinal then r.confidence.GetOr(0.0) else old(finalConfidence)
      ensures outbox == old(outbox) + Deliver([TranscriptMessage(r)], |old(outbox)|, old(websocketClosed), transport)
      ensures websocketClosed == ClosedAfter([TranscriptMessage(r)], |old(outbox)|, old(websocketClosed), transport)
    {
      if r.isFinal {
        finalTranscript := r.text;
        finalConfidence := r.confidence.GetOr(0.0);
      }
      Send(TranscriptMessage(r));
    }

    /** The loop of `_send_results`: each result updates the transcript if final and is sent. */
    method RelayTranscripts(out: seq<StreamingTranscribeResponse>)
      requires GuardedLog(outbox, websocketClosed, closedAt, closeCalls, transport)
      modifies this`finalTranscript, this`finalConfidence, this`outbox, this`websocketClosed, this`closedAt
      ensures GuardedLog(outbox, websocketClosed, closedAt, closeCalls, transport)
      ensures finalTranscript == TranscriptAfter(out, old(finalTranscript))
      ensures finalConfidence == ConfidenceAfter(out, old(finalConfidence))
      ensures outbox == old(outbox) + Deliver(TranscriptMessages(out), |old(outbox)|, old(websocketClosed), transport)
      ensures websocketClosed == ClosedAfter(TranscriptMessages(out), |old(outbox)|, old(websocketClosed), transport)
    {
      ghost var o0, w0, t0, c0 := outbox, websocketClosed, finalTranscript, finalConfidence;
      var k := 0;
      while k < |out|
        invariant GuardedLog(outbox, websocketClosed, closedAt, closeCalls, transport)
        invariant Relaying(out, o0, w0, t0, c0, transport, k, outbox, websocketClosed, finalTranscript, finalConfidence)
      {
        ghost var log, closed, ft, fc, k0 := outbox, websocketClosed, finalTranscript, finalConfidence, k;
        RelayOne(out[k]);
        k := k + 1;
        RelayAdvance(out, o0, w0, t0, c0, transport, k0, log, closed, ft, fc,
                     k, outbox, websocketClosed, finalTranscript, finalConfidence);
      }
      assert out[..k] == out;
    }

    /**
     * `_send_results`: waits for the first queue entry; the sentinel (or an
     * empty queue) means nothing to transcribe. Otherwise the provider gets
     * the requests for the fed chunks and its results are relayed. Streaming
     * is off afterwards in every case.
     */
    method SendResults(config: VoiceConfig, budget: nat, provider: seq<Request> -> ProviderOutcome)
      requires Valid()
      modifies this`audioQueue, this`finalTranscript, this`finalConfidence, this`outbox,
               this`websocketClosed, this`closedAt, this`isStreaming
      ensures old(outbox) <= outbox
      ensures Valid() && !isStreaming
      ensures finalTranscript == TranscriptAfter(SentResults(old(audioQueue), config, budget, provider), old(finalTranscript))
      ensures finalConfidence == ConfidenceAfter(SentResults(old(audioQueue), config, budget, provider), old(finalConfidence))
      ensures old(audioQueue) == [] || old(audioQueue)[0].None? ==>
        audioQueue == (if old(audioQueue) == [] then [] else old(audioQueue)[1..])
        && outbox == old(outbox) && websocketClosed == old(websocketClosed)
      ensures old(audioQueue) != [] && old(audioQueue)[0].Some? ==>
        var q := old(audioQueue)[1..];
        var outcome := provider(RequestsFor(config.projectId, UsedLanguage(language, config), sampleRate,
                                            [old(audioQueue)[0].value] + FedChunks(q, budget)));
        var rs := Yielded(Flatten(outcome.responses));
        audioQueue == q[DrainCount(q, budget)..]
        && outbox == old(outbox) + Deliver(Relayed(rs, outcome.error), |old(outbox)|, old(websocketClosed), transport)
        && websocketClosed == ClosedAfter(Relayed(rs, outcome.error), |old(outbox)|, old(websocketClosed), transport)
    {
      if audioQueue != [] {
        var chunk := audioQueue[0];
        SignalOnlyTail(audioQueue);
        audioQueue := audioQueue[1..];
        if chunk.Some? {
          Transcribe(chunk.value, config, budget, provider);
        }
      }
      isStreaming := false;
    }

    /**
     * The streaming part of `_send_results` after the first chunk: the
     * generator feeds the provider, and its results are relayed.
     */
    method Transcribe(first: Bytes, config: VoiceConfig, budget: nat, provider: seq<Request> -> ProviderOutcome)
      requires Valid()
      modifies this`audioQueue, this`finalTranscript, this`finalConfidence, this`outbox,
               this`websocketClosed, this`closedAt
      ensures Valid()
      ensures var outcome := provider(RequestsFor(config.projectId, UsedLanguage(language, config), sampleRate,
                                                  [first] + FedChunks(old(audioQueue), budget)));
        var rs := Yielded(Flatten(outcome.responses));
        audioQueue == old(audioQueue)[DrainCount(old(audioQueue), budget)..]
        && finalTranscript == TranscriptAfter(rs, old(finalTranscript))
        && finalConfidence == ConfidenceAfter(rs, old(finalConfidence))
        && outbox == old(outbox) + Deliver(Relayed(rs, outcome.error), |old(outbox)|, old(websocketClosed), transport)
        && websocketClosed == ClosedAfter(Relayed(rs, outcome.error), |old(outbox)|, old(websocketClosed), transport)
    {
      ghost var q0 := audioQueue;
      var fed := AudioGenerator(first, budget);
      var requests, out, error := StreamTranscribe(config, language, sampleRate, fed, provider);
      ghost var outcome := provider(RequestsFor(config.projectId, UsedLanguage(language, config), sampleRate,
                                                [first] + FedChunks(q0, budget)));
      assert out == Yielded(Flatten(outcome.responses)) && error == outcome.error;
      RelayResults(out, error);
    }

    // -------------------------------------------------------------------------
    // Cleanup.

    /** `_save_audio`: no chunks, no file; otherwise the concatenated chunks, unless writing fails. */
    method SaveAudio(saveOk: bool) returns (audioPath: Option<string>)
      modifies this`savedFile
      ensures audioPath.Some? <==> audioChunks != [] && saveOk
      ensures audioPath.Some? ==>
        audioPath.value == RecordingPath(recordingsDir, timestamp, sessionIdText, language)
        && savedFile == Some(WavFile(audioPath.value, WavChannels, WavSampleWidth, sampleRate, Concat(audioChunks)))
      ensures audioPath.None? ==> savedFile == old(savedFile)
    {
      if audioChunks == [] {
        return None;
      }
      if !saveOk {
        return None;
      }
      var path := RecordingPath(recordingsDir, timestamp, sessionIdText, language);
      savedFile := Some(WavFile(path, WavChannels, WavSampleWidth, sampleRate, Concat(audioChunks)));
      audioPath := Some(path);
    }

    /**
     * `_create_voice_session`: calls `create_session` with the user, the path,
     * the transcript, its confidence and this consumer's session id; a
     * failure of the call gives no session.
     */
    method CreateVoiceSession(audioPath: string, createOk: bool) returns (created: bool)
      modifies this`sessionRequest
      ensures sessionRequest == Some(SessionRequest(userId, audioPath, finalTranscript, finalConfidence, Some(sessionId)))
      ensures created == createOk
    {
      sessionRequest := Some(SessionRequest(userId, audioPath, finalTranscript, finalConfidence, Some(sessionId)));
      created := createOk;
    }

    /**
     * `_cleanup`: streaming off, the recording saved, a session created only
     * for a saved recording with a transcript, then the notification that
     * fits (none after a failed creation), and finally the close.
     */
    method Cleanup(saveOk: bool, createOk: bool) returns (audioPath: Option<string>, created: bool)
      requires Valid()
      modifies this`isStreaming, this`savedFile, this`sessionRequest, this`outbox, this`websocketClosed,
               this`closedAt, this`closeCalls
      ensures Valid() && !isStreaming && websocketClosed
      ensures audioPath.Some? <==> audioChunks != [] && saveOk
      ensures audioPath.Some? ==> audioPath.value == RecordingPath(recordingsDir, timestamp, sessionIdText, language)
      ensures var saved := audioChunks != [] && saveOk;
        var path := RecordingPath(recordingsDir, timestamp, sessionIdText, language);
        savedFile == (if saved then Some(WavFile(path, WavChannels, WavSampleWidth, sampleRate, Concat(audioChunks)))
                      else old(savedFile))
        && sessionRequest == (if saved && finalTranscript != ""
                              then Some(SessionRequest(userId, path, finalTranscript, finalConfidence, Some(sessionId)))
                              else old(sessionRequest))
      ensures created <==> audioChunks != [] && saveOk && finalTranscript != "" && createOk
      ensures outbox == old(outbox)
        + Deliver(Notification(audioChunks != [] && saveOk, finalTranscript,
                               audioChunks != [] && saveOk && finalTranscript != "" && createOk, sessionId,
                               finalConfidence),
                  |old(outbox)|, old(websocketClosed), transport)
      ensures var ms := Notification(audioChunks != [] && saveOk, finalTranscript, created, sessionId, finalConfidence);
        closeCalls == old(closeCalls) + (if ClosedAfter(ms, |old(outbox)|, old(websocketClosed), transport) then 0 else 1)
    {
      ghost var o0, w0 := outbox, websocketClosed;
      isStreaming := false;
      audioPath := SaveAudio(saveOk);
      created := CreateAndNotify(audioPath, createOk);
      ghost var ms := Notification(audioPath.Some?, finalTranscript, created, sessionId, finalConfidence);
      assert outbox == o0 + Deliver(ms, |o0|, w0, transport);
      assert websocketClosed == ClosedAfter(ms, |o0|, w0, transport);
      CloseWebsocket();
    }

    /**
     * The middle of `_cleanup`: with a saved recording and a transcript, the
     * session is created and, if it was and the socket is open, announced;
     * otherwise an open socket gets the no-speech message.
     */
    method CreateAndNotify(audioPath: Option<string>, createOk: bool) returns (created: bool)
      requires GuardedLog(outbox, websocketClosed, closedAt, closeCalls, transport)
      modifies this`sessionRequest, this`outbox, this`websocketClosed, this`closedAt
      ensures GuardedLog(outbox, websocketClosed, closedAt, closeCalls, transport)
      ensures audioPath.Some? && finalTranscript != "" ==>
        sessionRequest == Some(SessionRequest(userId, audioPath.value, finalTranscript, finalConfidence, Some(sessionId)))
      ensures !(audioPath.Some? && finalTranscript != "") ==> sessionRequest == old(sessionRequest)
      ensures created <==> audioPath.Some? && finalTranscript != "" && createOk
      ensures var ms := Notification(audioPath.Some?, finalTranscript, created, sessionId, finalConfidence);
        outbox == old(outbox) + Deliver(ms, |old(outbox)|, old(websocketClosed), transport)
        && websocketClosed == ClosedAfter(ms, |old(outbox)|, old(websocketClosed), transport)
    {
      created := false;
      if audioPath.Some? && finalTranscript != "" {
        created := CreateVoiceSession(audioPath.value, createOk);
        if created && !websocketClosed {
          SendSessionCreatedNotification();
        }
      } else if !websocketClosed {
        SendNoSpeechNotification();
      }
    }

    /**
     * The results the send stage relays for the queue `q`: none when it
     * starts with the sentinel, otherwise the provider's results for the
     * requests of the first chunk and of those the generator feeds after it.
     */
    function SentResults(q: seq<Option<Bytes>>, config: VoiceConfig, budget: nat,
                         provider: seq<Request> -> ProviderOutcome): seq<StreamingTranscribeResponse>
    {
      if q == [] || q[0].None? then []
      else
        var outcome := provider(RequestsFor(config.projectId, UsedLanguage(language, config), sampleRate,
                                            [q[0].value] + FedChunks(q[1..], budget)));
        Yielded(Flatten(outcome.responses))
    }

    /**
     * The results relayed while the two tasks run from the queue `q0`: those
     * of the queue ingest leaves, or none when ingest raised.
     */
    function GatherResults(q0: seq<Option<Bytes>>, messages: seq<Inbound>, parse: string -> TextVerdict,
                           streaming: bool, config: VoiceConfig, budget: nat,
                           provider: seq<Request> -> ProviderOutcome): seq<StreamingTranscribeResponse>
    {
      if RaisedAt(messages, parse, streaming) then []
      else SentResults(q0 + Queued(messages[..IngestCount(messages, parse, streaming)]) + [None], config, budget, provider)
    }

    /**
     * `asyncio.gather(receive_task, send_task)`: ingest, then the send stage
     * unless ingest raised (the exception leaves `gather`, and the cleanup
     * cancels the send task). The transcript is the last final result the
     * send stage relayed, and after a raise nothing was sent.
     */
    method Gather(messages: seq<Inbound>, parse: string -> TextVerdict, config: VoiceConfig, budget: nat,
                  provider: seq<Request> -> ProviderOutcome) returns (raised: bool)
      requires Valid()
      modifies this`audioChunks, this`audioQueue, this`isStreaming, this`websocketClosed, this`closedAt,
               this`finalTranscript, this`finalConfidence, this`outbox
      ensures Valid() && !isStreaming
      ensures old(outbox) <= outbox
      ensures audioChunks == old(audioChunks) + Chunks(messages[..IngestCount(messages, parse, old(isStreaming))])
      ensures raised == RaisedAt(messages, parse, old(isStreaming))
      ensures finalTranscript
        == TranscriptAfter(GatherResults(old(audioQueue), messages, parse, old(isStreaming), config, budget, provider),
                           old(finalTranscript))
      ensures finalConfidence
        == ConfidenceAfter(GatherResults(old(audioQueue), messages, parse, old(isStreaming), config, budget, provider),
                           old(finalConfidence))
      ensures raised ==> outbox == old(outbox) && websocketClosed == old(websocketClosed)
    {
      ghost var n := IngestCount(messages, parse, isStreaming);
      ghost var q := audioQueue + Queued(messages[..n]) + [None];
      var consumed;
      consumed, raised := ReceiveAudio(messages, parse);
      assert consumed == n && audioQueue == q;
      if !raised {
        SendResults(config, budget, provider);
      }
    }

    /**
     * `handle`: the two tasks, then cleanup. The recording is every chunk
     * ingest read, the transcript is the last final result relayed (none
     * after a raise), and the file and the session request are those the
     * cleanup makes of them. The socket ends closed, at most one close call
     * was made, and no attempt followed the closing; after a raise, only
     * the cleanup's notification was sent.
     */
    method Handle(messages: seq<Inbound>, parse: string -> TextVerdict, config: VoiceConfig, budget: nat,
                  provider: seq<Request> -> ProviderOutcome, saveOk: bool, createOk: bool)
      requires Valid()
      modifies this
      ensures Valid() && websocketClosed && !isStreaming && closeCalls <= 1
      ensures old(outbox) <= outbox
      ensures audioChunks == old(audioChunks) + Chunks(messages[..IngestCount(messages, parse, old(isStreaming))])
      ensures finalTranscript
        == TranscriptAfter(GatherResults(old(audioQueue), messages, parse, old(isStreaming), config, budget, provider),
                           old(finalTranscript))
      ensures finalConfidence
        == ConfidenceAfter(GatherResults(old(audioQueue), messages, parse, old(isStreaming), config, budget, provider),
                           old(finalConfidence))
      ensures savedFile == (if audioChunks != [] && saveOk
                            then Some(WavFile(RecordingPath(recordingsDir, timestamp, sessionIdText, language),
                                              WavChannels, WavSampleWidth, sampleRate, Concat(audioChunks)))
                            else old(savedFile))
      ensures sessionRequest == (if audioChunks != [] && saveOk && finalTranscript != ""
                                 then Some(SessionRequest(userId, RecordingPath(recordingsDir, timestamp, sessionIdText, language),
                                                          finalTranscript, finalConfidence, Some(sessionId)))
                                 else old(sessionRequest))
      ensures RaisedAt(messages, parse, old(isStreaming)) ==>
        outbox == old(outbox)
          + Deliver(Notification(audioChunks != [] && saveOk, finalTranscript,
                                 audioChunks != [] && saveOk && finalTranscript != "" && createOk, sessionId,
                                 finalConfidence),
                    |old(outbox)|, old(websocketClosed), transport)
    {
      ghost var o0 := outbox;
      var raised := Gather(messages, parse, config, budget, provider);
      ghost var o1, w1 := outbox, websocketClosed;
      var path, created := Cleanup(saveOk, createOk);
      ghost var ms := Notification(audioChunks != [] && saveOk, finalTranscript, created, sessionId, finalConfidence);
      PrefixAppend(o0, o1, Deliver(ms, |o1|, w1, transport));
    }
  }
}
