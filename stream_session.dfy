/**
 * What the two WebSocket consumers of streaming speech recognition have in
 * common: the messages they send, the log of send attempts on the socket,
 * the way the audio generator drains the chunk queue, the transcript kept
 * from the last final result, and the recording written at the end.
 *
 * The socket is modelled by the sequence of send attempts it saw and the
 * number of close calls; whether the k-th send attempt succeeds is given by
 * an oracle `transport: nat -> bool`.
 */
module StreamSession {
  import opened Wrappers
  import opened VoiceTypes
  import opened StreamingVoice
  import opened VoiceSessions
  import Sequences

  /** One JSON message sent to the client. */
  datatype Outbound =
    | TranscriptMessage(result: StreamingTranscribeResponse)
    | SessionCreated(sessionId: Uuid, transcript: string, confidence: real)
    | NoSpeech(message: string)
    | ErrorMessage(error: string)

  /** One send attempt and whether the socket accepted it. */
  datatype Attempt = Attempt(message: Outbound, delivered: bool)

  const NoSpeechText: string := "음성이 감지되지 않았습니다"

  /** The language written into a recording's name when the client gave none. */
  const DefaultRecordingLanguage: string := "ko-KR"

  const WavChannels: int := 1
  const WavSampleWidth: int := 2

  /** A WAV file as written: its path, header parameters and frames. */
  datatype WavFile = WavFile(path: string, channels: int, sampleWidth: int, frameRate: int, frames: Bytes)

  /** The arguments of one `create_session` call; `sessionId` is passed only by the newer consumer. */
  datatype SessionRequest = SessionRequest(
    userId: int, audioPath: string, sttText: string, sttConfidence: real, sessionId: Option<Uuid>)

  function TranscriptMessages(rs: seq<StreamingTranscribeResponse>): (ms: seq<Outbound>)
    ensures |ms| == |rs|
    ensures forall i :: 0 <= i < |rs| ==> ms[i] == TranscriptMessage(rs[i])
  {
    if rs == [] then [] else TranscriptMessages(rs[..|rs| - 1]) + [TranscriptMessage(rs[|rs| - 1])]
  }

  lemma {:induction false} TranscriptMessagesAppend(a: seq<StreamingTranscribeResponse>, b: seq<StreamingTranscribeResponse>)
    ensures TranscriptMessages(a + b) == TranscriptMessages(a) + TranscriptMessages(b)
  {
    var l, r := TranscriptMessages(a + b), TranscriptMessages(a) + TranscriptMessages(b);
    assert |l| == |r|;
    forall i | 0 <= i < |l|
      ensures l[i] == r[i]
    {
      if i < |a| {
        assert (a + b)[i] == a[i];
      } else {
        assert (a + b)[i] == b[i - |a|];
      }
    }
  }

  // ---------------------------------------------------------------------------
  // Sending until the first failure.

  /**
   * The attempts made when `ms` are sent in order, starting at attempt number
   * `start`, by a sender that gives up once the socket is known to be closed
   * (initially when `closed`, and after the first failed attempt).
   */
  function Deliver(ms: seq<Outbound>, start: nat, closed: bool, transport: nat -> bool): (d: seq<Attempt>)
    ensures |d| <= |ms|
    decreases |ms|
  {
    if closed || ms == [] then []
    else [Attempt(ms[0], transport(start))] + Deliver(ms[1..], start + 1, !transport(start), transport)
  }

  /** Whether the sender considers the socket closed after sending `ms` as `Deliver` does. */
  function ClosedAfter(ms: seq<Outbound>, start: nat, closed: bool, transport: nat -> bool): bool
    decreases |ms|
  {
    if closed || ms == [] then closed
    else ClosedAfter(ms[1..], start + 1, !transport(start), transport)
  }

  /**
   * The attempts are the messages in order, each delivered as the socket
   * decides; nothing is attempted on a closed socket; only the last attempt
   * can fail, and the sender stops early only after it; and the socket is
   * closed afterwards exactly when it was closed before or an attempt failed.
   */
  lemma {:induction false} DeliverSpec(ms: seq<Outbound>, start: nat, closed: bool, transport: nat -> bool)
    ensures var d := Deliver(ms, start, closed, transport);
      (closed ==> d == [])
      && (forall i :: 0 <= i < |d| ==> d[i] == Attempt(ms[i], transport(start + i)))
      && (forall i :: 0 <= i < |d| - 1 ==> d[i].delivered)
      && (!closed && |d| < |ms| ==> |d| > 0 && !d[|d| - 1].delivered)
      && (ClosedAfter(ms, start, closed, transport) <==> closed || (|d| > 0 && !d[|d| - 1].delivered))
    decreases |ms|
  {
    if !closed && ms != [] {
      DeliverSpec(ms[1..], start + 1, !transport(start), transport);
    }
  }

  /** Sending `a` then `b` is sending `a + b`: the second run starts where the first stopped. */
  lemma {:induction false} DeliverAppend(a: seq<Outbound>, b: seq<Outbound>, start: nat, closed: bool,
                                         transport: nat -> bool)
    ensures Deliver(a + b, start, closed, transport)
      == Deliver(a, start, closed, transport)
         + Deliver(b, start + |Deliver(a, start, closed, transport)|, ClosedAfter(a, start, closed, transport), transport)
    ensures ClosedAfter(a + b, start, closed, transport)
      == ClosedAfter(b, start + |Deliver(a, start, closed, transport)|, ClosedAfter(a, start, closed, transport), transport)
    decreases |a|
  {
    if closed {
    } else if a == [] {
      assert a + b == b;
    } else {
      var t0 := transport(start);
      var rest := Deliver(a[1..], start + 1, !t0, transport);
      assert (a + b)[1..] == a[1..] + b;
      assert Deliver(a + b, start, closed, transport)
        == [Attempt(a[0], t0)] + Deliver(a[1..] + b, start + 1, !t0, transport);
      assert Deliver(a, start, closed, transport) == [Attempt(a[0], t0)] + rest;
      assert ClosedAfter(a, start, closed, transport) == ClosedAfter(a[1..], start + 1, !t0, transport);
      DeliverAppend(a[1..], b, start + 1, !t0, transport);
    }
  }

  /**
   * A log that holds the attempts for `a` grows, when `b` is sent next, into
   * the log that holds the attempts for `a + b`.
   */
  lemma DeliverMore(log: seq<Attempt>, a: seq<Outbound>, b: seq<Outbound>, closed: bool, transport: nat -> bool)
    ensures var d := Deliver(a, |log|, closed, transport);
      var c := ClosedAfter(a, |log|, closed, transport);
      (log + d) + Deliver(b, |log + d|, c, transport) == log + Deliver(a + b, |log|, closed, transport)
      && ClosedAfter(b, |log + d|, c, transport) == ClosedAfter(a + b, |log|, closed, transport)
  {
    var d := Deliver(a, |log|, closed, transport);
    var c := ClosedAfter(a, |log|, closed, transport);
    DeliverAppend(a, b, |log|, closed, transport);
    assert |log + d| == |log| + |d|;
    Sequences.AppendAssoc(log, d, Deliver(b, |log| + |d|, c, transport));
  }

  /** One more result sent after `done` extends the log of sending `done` as sending `done + [r]` would. */
  lemma RelayStep(log: seq<Attempt>, done: seq<StreamingTranscribeResponse>, r: StreamingTranscribeResponse,
                  closed: bool, transport: nat -> bool)
    ensures var ms := TranscriptMessages(done);
      var d := Deliver(ms, |log|, closed, transport);
      var c := ClosedAfter(ms, |log|, closed, transport);
      (log + d) + Deliver([TranscriptMessage(r)], |log + d|, c, transport)
        == log + Deliver(TranscriptMessages(done + [r]), |log|, closed, transport)
      && ClosedAfter([TranscriptMessage(r)], |log + d|, c, transport)
        == ClosedAfter(TranscriptMessages(done + [r]), |log|, closed, transport)
  {
    assert (done + [r])[..|done|] == done;
    assert TranscriptMessages(done + [r]) == TranscriptMessages(done) + [TranscriptMessage(r)];
    DeliverMore(log, TranscriptMessages(done), [TranscriptMessage(r)], closed, transport);
  }

  /** Every attempt on the socket went as the socket decided. */
  ghost predicate AttemptsAsDecided(outbox: seq<Attempt>, transport: nat -> bool) {
    forall i :: 0 <= i < |outbox| ==> outbox[i].delivered == transport(i)
  }

  /**
   * The history of a socket whose sender keeps a "closed" flag: it is
   * flagged closed exactly from the moment of the last attempt so far
   * (`closedAt`), every attempt went as the socket decided, only the last one
   * can have failed and then the socket is flagged, and at most one close
   * call was made, only on a flagged socket.
   */
  ghost predicate GuardedLog(outbox: seq<Attempt>, closed: bool, closedAt: Option<nat>, closeCalls: nat,
                             transport: nat -> bool)
  {
    (closed <==> closedAt.Some?)
    && (closedAt.Some? ==> closedAt.value == |outbox|)
    && (forall i :: 0 <= i < |outbox| ==> outbox[i].delivered == transport(i))
    && (forall i :: 0 <= i < |outbox| - 1 ==> outbox[i].delivered)
    && (|outbox| > 0 && !outbox[|outbox| - 1].delivered ==> closed)
    && closeCalls <= 1 && (closeCalls == 1 ==> closed)
  }

  /** A sender that starts open over a socket that accepts everything delivers every message. */
  lemma {:induction false} DeliverAll(ms: seq<Outbound>, start: nat, transport: nat -> bool)
    requires forall k :: start <= k < start + |ms| ==> transport(k)
    ensures |Deliver(ms, start, false, transport)| == |ms|
    ensures !ClosedAfter(ms, start, false, transport)
    decreases |ms|
  {
    if ms != [] {
      DeliverAll(ms[1..], start + 1, transport);
    }
  }

  // ---------------------------------------------------------------------------
  // The audio generator.

  /**
   * The chunks the generator takes from the queue after the first one: the
   * leading audio entries, in FIFO order, up to the sentinel, the end of the
   * queue, or `budget` of them, whichever comes first. `budget` stands for the
   * point where the 30 s queue timeout fires or streaming is switched off.
   */
  function FedChunks(q: seq<Option<Bytes>>, budget: nat): (f: seq<Bytes>)
    ensures |f| <= budget && |f| <= |q|
  {
    if budget == 0 || q == [] || q[0].None? then [] else [q[0].value] + FedChunks(q[1..], budget - 1)
  }

  /** How many queue entries the generator removes: the chunks it feeds, and the sentinel if it met one. */
  function DrainCount(q: seq<Option<Bytes>>, budget: nat): (n: nat)
    ensures n <= |q|
  {
    if budget == 0 || q == [] then 0
    else if q[0].None? then 1
    else 1 + DrainCount(q[1..], budget - 1)
  }

  /**
   * The fed chunks are the leading audio entries of the queue; the generator
   * stops short of the budget and the queue's end only at a sentinel; and it
   * removes what it fed plus that sentinel, if it met one.
   */
  lemma {:induction false} FedChunksSpec(q: seq<Option<Bytes>>, budget: nat)
    ensures var f := FedChunks(q, budget);
      (forall i :: 0 <= i < |f| ==> q[i] == Some(f[i]))
      && (|f| < budget && |f| < |q| ==> q[|f|].None?)
    ensures var n := DrainCount(q, budget);
      n == |FedChunks(q, budget)| || (n == |FedChunks(q, budget)| + 1 && q[n - 1].None?)
    decreases |q|
  {
    if budget > 0 && q != [] && q[0].Some? {
      FedChunksSpec(q[1..], budget - 1);
    }
  }

  /** The generator stops with nothing more fed or removed once the budget or the queue is used up. */
  lemma GeneratorStop(q: seq<Option<Bytes>>, budget: nat)
    requires budget == 0 || q == []
    ensures FedChunks(q, budget) == [] && DrainCount(q, budget) == 0
  {
  }

  /** A sentinel at the head ends the feed and is itself removed. */
  lemma GeneratorSentinel(q: seq<Option<Bytes>>, budget: nat)
    requires budget > 0 && q != [] && q[0].None?
    ensures FedChunks(q, budget) == [] && DrainCount(q, budget) == 1
  {
  }

  /** A chunk at the head is fed and removed, and the rest of the budget goes to the rest of the queue. */
  lemma GeneratorTake(q: seq<Option<Bytes>>, budget: nat)
    requires budget > 0 && q != [] && q[0].Some?
    ensures FedChunks(q, budget) == [q[0].value] + FedChunks(q[1..], budget - 1)
    ensures DrainCount(q, budget) == 1 + DrainCount(q[1..], budget - 1)
  {
  }

  /**
   * The state of the generator loop: `taken` entries of the original queue
   * `q0` consumed within the budget, and what is fed so far, followed by
   * what the rest of the queue will feed, is what the whole run feeds.
   */
  ghost predicate Draining(q0: seq<Option<Bytes>>, budget: nat, first: Bytes, taken: nat, left: nat,
                           queue: seq<Option<Bytes>>, fed: seq<Bytes>)
  {
    taken + left == budget && taken <= |q0| && queue == q0[taken..]
    && [first] + FedChunks(q0, budget) == fed + FedChunks(queue, left)
    && DrainCount(q0, budget) == taken + DrainCount(queue, left)
  }

  /** Feeding the chunk at the head of the queue advances the generator by one entry. */
  lemma DrainAdvance(q0: seq<Option<Bytes>>, budget: nat, first: Bytes, taken: nat, left: nat,
                     queue: seq<Option<Bytes>>, fed: seq<Bytes>,
                     taken': nat, left': nat, queue': seq<Option<Bytes>>, fed': seq<Bytes>)
    requires Draining(q0, budget, first, taken, left, queue, fed)
    requires left > 0 && queue != [] && queue[0].Some?
    requires taken' == taken + 1 && left' == left - 1 && queue' == queue[1..] && fed' == fed + [queue[0].value]
    ensures Draining(q0, budget, first, taken', left', queue', fed')
  {
    GeneratorTake(queue, left);
    Sequences.AppendAssoc(fed, [queue[0].value], FedChunks(queue[1..], left - 1));
  }

  /** The sentinel at the head ends the run: everything is fed, and the sentinel is removed. */
  lemma DrainSentinel(q0: seq<Option<Bytes>>, budget: nat, first: Bytes, taken: nat, left: nat,
                      queue: seq<Option<Bytes>>, fed: seq<Bytes>)
    requires Draining(q0, budget, first, taken, left, queue, fed)
    requires left > 0 && queue != [] && queue[0].None?
    ensures fed == [first] + FedChunks(q0, budget)
    ensures queue[1..] == q0[DrainCount(q0, budget)..]
  {
    GeneratorSentinel(queue, left);
    assert fed + [] == fed;
  }

  /** A spent budget or an empty queue ends the run with everything fed. */
  lemma DrainStop(q0: seq<Option<Bytes>>, budget: nat, first: Bytes, taken: nat, left: nat,
                  queue: seq<Option<Bytes>>, fed: seq<Bytes>)
    requires Draining(q0, budget, first, taken, left, queue, fed)
    requires left == 0 || queue == []
    ensures fed == [first] + FedChunks(q0, budget)
    ensures queue == q0[DrainCount(q0, budget)..]
  {
    GeneratorStop(queue, left);
    assert fed + [] == fed;
  }

  /** Every audio entry of the queue carries signal. */
  predicate SignalOnly(q: seq<Option<Bytes>>)
    decreases |q|
  {
    q == [] || ((q[0].None? || HasAudioSignal(q[0].value, AudioSilenceThreshold)) && SignalOnly(q[1..]))
  }

  lemma {:induction false} SignalOnlyAppend(a: seq<Option<Bytes>>, b: seq<Option<Bytes>>)
    requires SignalOnly(a) && SignalOnly(b)
    ensures SignalOnly(a + b)
    decreases |a|
  {
    if a == [] {
      assert a + b == b;
    } else {
      assert (a + b)[1..] == a[1..] + b;
      SignalOnlyAppend(a[1..], b);
    }
  }

  /** The audio entries of a queue that satisfies `SignalOnly` are exactly signal chunks. */
  lemma {:induction false} SignalOnlyAt(q: seq<Option<Bytes>>, i: nat)
    requires SignalOnly(q) && i < |q| && q[i].Some?
    ensures HasAudioSignal(q[i].value, AudioSilenceThreshold)
    decreases i
  {
    if i > 0 {
      SignalOnlyAt(q[1..], i - 1);
    }
  }

  lemma SignalOnlyTail(q: seq<Option<Bytes>>)
    requires SignalOnly(q) && q != []
    ensures SignalOnly(q[1..])
  {
  }

  /** With budget to spare, the generator feeds exactly the audio queued before the sentinel. */
  lemma {:induction false} FedUpToSentinel(q: seq<Option<Bytes>>, budget: nat, k: nat)
    requires k < |q| && q[k].None? && forall i :: 0 <= i < k ==> q[i].Some?
    requires budget > k
    ensures |FedChunks(q, budget)| == k && DrainCount(q, budget) == k + 1
    decreases k
  {
    if k > 0 {
      FedUpToSentinel(q[1..], budget - 1, k - 1);
    }
  }

  // ---------------------------------------------------------------------------
  // The transcript kept from the results.

  /** The position of the last final result, if any. */
  function LastFinalIndex(rs: seq<StreamingTranscribeResponse>): (r: Option<nat>)
    ensures r.None? <==> forall i :: 0 <= i < |rs| ==> !rs[i].isFinal
    ensures r.Some? ==> r.value < |rs| && rs[r.value].isFinal
    ensures r.Some? ==> forall j :: r.value < j < |rs| ==> !rs[j].isFinal
  {
    if rs == [] then None
    else if rs[|rs| - 1].isFinal then Some(|rs| - 1)
    else LastFinalIndex(rs[..|rs| - 1])
  }

  /** The transcript after the results `rs`: the last final text, or `t` if no result was final. */
  function TranscriptAfter(rs: seq<StreamingTranscribeResponse>, t: string): string {
    match LastFinalIndex(rs)
    case None => t
    case Some(k) => rs[k].text
  }

  /** The confidence after the results `rs`, a missing confidence of a final result reading 0.0. */
  function ConfidenceAfter(rs: seq<StreamingTranscribeResponse>, c: real): real {
    match LastFinalIndex(rs)
    case None => c
    case Some(k) => rs[k].confidence.GetOr(0.0)
  }

  /** A final result replaces the transcript; an interim one never does. */
  lemma LastFinalStep(rs: seq<StreamingTranscribeResponse>, r: StreamingTranscribeResponse, t: string, c: real)
    ensures r.isFinal ==>
      (TranscriptAfter(rs + [r], t) == r.text && ConfidenceAfter(rs + [r], c) == r.confidence.GetOr(0.0))
    ensures !r.isFinal ==>
      (TranscriptAfter(rs + [r], t) == TranscriptAfter(rs, t) && ConfidenceAfter(rs + [r], c) == ConfidenceAfter(rs, c))
  {
    assert (rs + [r])[..|rs|] == rs;
    assert (rs + [r])[|rs|] == r;
  }

  // ---------------------------------------------------------------------------
  // The recording.

  /** `b"".join(chunks)`. */
  function Concat(chunks: seq<Bytes>): (r: Bytes)
    ensures chunks == [] ==> r == []
  {
    if chunks == [] then [] else Concat(chunks[..|chunks| - 1]) + chunks[|chunks| - 1]
  }

  lemma {:induction false} ConcatAppend(a: seq<Bytes>, b: seq<Bytes>)
    ensures Concat(a + b) == Concat(a) + Concat(b)
    decreases |b|
  {
    if b == [] {
      assert a + b == a;
    } else {
      assert (a + b)[..|a + b| - 1] == a + b[..|b| - 1];
      ConcatAppend(a, b[..|b| - 1]);
    }
  }

  /** Every received chunk lies in the recording, at the offset of the chunks before it. */
  lemma ConcatContains(chunks: seq<Bytes>, i: nat)
    requires i < |chunks|
    ensures var before := |Concat(chunks[..i])|;
      before + |chunks[i]| <= |Concat(chunks)| && Concat(chunks)[before..before + |chunks[i]|] == chunks[i]
  {
    assert chunks == chunks[..i] + [chunks[i]] + chunks[i + 1..];
    ConcatAppend(chunks[..i] + [chunks[i]], chunks[i + 1..]);
    ConcatAppend(chunks[..i], [chunks[i]]);
    assert Concat([chunks[i]]) == chunks[i] by {
      var one: seq<Bytes> := [chunks[i]];
      assert one[..0] == [];
    }
  }

  /** `{timestamp}_{session_id}_{language or ko-KR}.wav` under the recordings directory. */
  function RecordingPath(recordingsDir: string, timestamp: string, sessionIdText: string,
                         language: Option<LanguageCode>): (p: string)
    ensures |p| >= 4 && p[|p| - 4..] == ".wav"
    ensures language.None? ==>
      p == recordingsDir + "/" + timestamp + "_" + sessionIdText + "_" + DefaultRecordingLanguage + ".wav"
    ensures language.Some? ==>
      p == recordingsDir + "/" + timestamp + "_" + sessionIdText + "_" + LanguageValue(language.value) + ".wav"
  {
    var lang := if language.Some? then LanguageValue(language.value) else DefaultRecordingLanguage;
    recordingsDir + "/" + timestamp + "_" + sessionIdText + "_" + lang + ".wav"
  }
}
