/**
 * The streaming speech service: the silence test applied to every incoming
 * audio chunk, the order of the requests sent to the provider, and the
 * mapping of the provider's results to the results streamed to the client.
 *
 * The provider itself is a parameter: a function from the requests it is
 * sent to the responses it streams back and, possibly, the error it raises.
 */
module StreamingVoice {
  import opened Wrappers
  import opened Sequences
  import opened VoiceTypes

  /** The default silence threshold on the mean absolute amplitude. */
  const AudioSilenceThreshold: int := 100

  // ---------------------------------------------------------------------------
  // LINEAR16 samples.

  /** The little-endian signed 16-bit sample whose low byte is `lo` and high byte is `hi`. */
  function Int16(lo: Byte, hi: Byte): (v: int)
    ensures -32768 <= v <= 32767
  {
    var u := lo + 256 * hi;
    if u >= 32768 then u - 65536 else u
  }

  /** The sample is the two's-complement reading of the 16-bit word `lo + 256 * hi`. */
  lemma Int16Word(lo: Byte, hi: Byte)
    ensures (Int16(lo, hi) + 65536) % 65536 == lo + 256 * hi
  {
  }

  /** The two bytes, low first, that encode a 16-bit sample. */
  function Int16Bytes(v: int): (b: (Byte, Byte))
    requires -32768 <= v <= 32767
  {
    var u := (v + 65536) % 65536;
    (u % 256, u / 256)
  }

  /** Encoding and decoding a sample are inverse to each other. */
  lemma Int16RoundTrip(v: int, lo: Byte, hi: Byte)
    requires -32768 <= v <= 32767
    ensures Int16(Int16Bytes(v).0, Int16Bytes(v).1) == v
    ensures Int16Bytes(Int16(lo, hi)) == (lo, hi)
  {
  }

  /** `struct.unpack("<{n}h", b[:2n])` with `n = len(b) // 2`: a trailing odd byte is not read. */
  function Samples(b: Bytes): (s: seq<int>)
    ensures |s| == |b| / 2
  {
    if |b| < 2 then [] else [Int16(b[0], b[1])] + Samples(b[2..])
  }

  /** Sample `i` is read from bytes `2i` and `2i + 1`. */
  lemma {:induction false} SamplesAt(b: Bytes)
    ensures forall i :: 0 <= i < |b| / 2 ==> Samples(b)[i] == Int16(b[2 * i], b[2 * i + 1])
    decreases |b|
  {
    if |b| >= 2 {
      SamplesAt(b[2..]);
      forall i | 1 <= i < |b| / 2
        ensures Samples(b)[i] == Int16(b[2 * i], b[2 * i + 1])
      {
        assert Samples(b)[i] == Samples(b[2..])[i - 1];
        assert b[2..][2 * (i - 1)] == b[2 * i] && b[2..][2 * (i - 1) + 1] == b[2 * i + 1];
      }
    }
  }

  function Abs(x: int): nat { if x < 0 then -x else x }

  function SumAbs(s: seq<int>): nat {
    if s == [] then 0 else SumAbs(s[..|s| - 1]) + Abs(s[|s| - 1])
  }

  /**
   * `has_audio_signal`: fewer than two bytes is silence; otherwise the mean
   * absolute sample must lie strictly above the threshold.
   */
  function HasAudioSignal(b: Bytes, threshold: int): bool {
    if |b| < 2 then false
    else (SumAbs(Samples(b)) as real) / ((|b| / 2) as real) > threshold as real
  }

  // ---------------------------------------------------------------------------
  // Properties of the silence test.

  lemma MeanAbove(sum: real, n: real, t: real)
    requires n > 0.0
    ensures sum / n > t <==> sum > t * n
  {
    assert sum == (sum / n) * n;
    if sum / n > t {
      assert (sum / n) * n > t * n;
    } else {
      assert (sum / n) * n <= t * n;
    }
  }

  lemma IntMeanAbove(sum: int, n: int, t: int)
    requires n > 0
    ensures (sum as real) / (n as real) > t as real <==> sum > t * n
  {
    MeanAbove(sum as real, n as real, t as real);
    assert (t * n) as real == (t as real) * (n as real);
  }

  /** The mean test is the integer test `sum |s| > threshold * n`. */
  lemma HasAudioSignalIff(b: Bytes, threshold: int)
    ensures HasAudioSignal(b, threshold)
      <==> |b| >= 2 && SumAbs(Samples(b)) > threshold * (|b| / 2)
  {
    if |b| >= 2 {
      IntMeanAbove(SumAbs(Samples(b)), |b| / 2, threshold);
    }
  }

  /** Empty input, and a single byte, carry no signal whatever the threshold. */
  lemma ShortInputIsSilent(b: Bytes, threshold: int)
    requires |b| < 2
    ensures !HasAudioSignal(b, threshold)
  {
  }

  /** Appending one byte to an even-length chunk changes nothing: the odd byte is ignored. */
  lemma {:induction false} OddByteIgnored(b: Bytes, x: Byte)
    requires |b| % 2 == 0
    ensures Samples(b + [x]) == Samples(b)
    decreases |b|
  {
    if |b| >= 2 {
      assert (b + [x])[2..] == b[2..] + [x];
      OddByteIgnored(b[2..], x);
    }
  }

  lemma OddByteIgnoredBySignal(b: Bytes, x: Byte, threshold: int)
    requires |b| % 2 == 0
    ensures HasAudioSignal(b + [x], threshold) == HasAudioSignal(b, threshold)
  {
    OddByteIgnored(b, x);
  }

  lemma {:induction false} SumAbsBelow(s: seq<int>, t: int)
    requires forall i :: 0 <= i < |s| ==> Abs(s[i]) <= t
    ensures SumAbs(s) <= t * |s|
    decreases |s|
  {
    if s != [] {
      var init := s[..|s| - 1];
      SumAbsBelow(init, t);
      assert t * |s| == t * |init| + t;
    }
  }

  lemma {:induction false} SumAbsAbove(s: seq<int>, t: int)
    requires forall i :: 0 <= i < |s| ==> Abs(s[i]) > t
    ensures SumAbs(s) >= (t + 1) * |s|
    decreases |s|
  {
    if s != [] {
      var init := s[..|s| - 1];
      SumAbsAbove(init, t);
      assert (t + 1) * |s| == (t + 1) * |init| + (t + 1);
    }
  }

  /** A chunk none of whose samples exceeds the threshold in magnitude is silence. */
  lemma QuietChunkIsSilent(b: Bytes, threshold: int)
    requires forall i :: 0 <= i < |Samples(b)| ==> Abs(Samples(b)[i]) <= threshold
    ensures !HasAudioSignal(b, threshold)
  {
    HasAudioSignalIff(b, threshold);
    SumAbsBelow(Samples(b), threshold);
  }

  /** A chunk of at least one sample, every sample louder than the threshold, is signal. */
  lemma LoudChunkIsSignal(b: Bytes, threshold: int)
    requires |b| >= 2
    requires forall i :: 0 <= i < |Samples(b)| ==> Abs(Samples(b)[i]) > threshold
    ensures HasAudioSignal(b, threshold)
  {
    HasAudioSignalIff(b, threshold);
    SumAbsAbove(Samples(b), threshold);
  }

  // ---------------------------------------------------------------------------
  // The request stream.

  /** The streaming recognition settings sent in the first request. */
  datatype StreamingConfig = StreamingConfig(
    encoding: string, sampleRateHertz: int, audioChannelCount: int,
    languageCodes: seq<string>, model: string, automaticPunctuation: bool,
    wordConfidence: bool, interimResults: bool)

  datatype Request =
    | ConfigRequest(recognizer: string, config: StreamingConfig)
    | AudioRequest(audio: Bytes)

  function BuildStreamingConfig(language: LanguageCode, sampleRate: int): StreamingConfig {
    StreamingConfig("LINEAR16", sampleRate, 1, [LanguageValue(language)], LatestLong, true, true, true)
  }

  /** The request stream for `chunks`: the configuration first, then one audio request per chunk, in order. */
  function RequestsFor(projectId: string, language: LanguageCode, sampleRate: int, chunks: seq<Bytes>): (r: seq<Request>)
    ensures |r| == |chunks| + 1
    ensures r[0] == ConfigRequest(Recognizer(projectId), BuildStreamingConfig(language, sampleRate))
    ensures forall i :: 0 <= i < |chunks| ==> r[i + 1] == AudioRequest(chunks[i])
  {
    if chunks == [] then [ConfigRequest(Recognizer(projectId), BuildStreamingConfig(language, sampleRate))]
    else RequestsFor(projectId, language, sampleRate, chunks[..|chunks| - 1]) + [AudioRequest(chunks[|chunks| - 1])]
  }

  /** The audio carried by a request stream. */
  function AudioOfRequests(rs: seq<Request>): seq<Bytes> {
    if rs == [] then []
    else AudioOfRequests(rs[..|rs| - 1]) + (if rs[|rs| - 1].AudioRequest? then [rs[|rs| - 1].audio] else [])
  }

  /** The provider receives every chunk, in order, and nothing else as audio. */
  lemma {:induction false} RequestsCarryChunks(projectId: string, language: LanguageCode, sampleRate: int,
                                               chunks: seq<Bytes>)
    ensures AudioOfRequests(RequestsFor(projectId, language, sampleRate, chunks)) == chunks
    decreases |chunks|
  {
    var r := RequestsFor(projectId, language, sampleRate, chunks);
    if chunks == [] {
      assert r[..0] == [];
    } else {
      RequestsCarryChunks(projectId, language, sampleRate, chunks[..|chunks| - 1]);
      assert r[..|r| - 1] == RequestsFor(projectId, language, sampleRate, chunks[..|chunks| - 1]);
      assert chunks == chunks[..|chunks| - 1] + [chunks[|chunks| - 1]];
    }
  }

  /** `_create_request_generator`: yields the configuration request, then one request per chunk of the generator. */
  method CreateRequestGenerator(projectId: string, language: LanguageCode, sampleRate: int,
                                chunks: seq<Bytes>) returns (requests: seq<Request>)
    ensures requests == RequestsFor(projectId, language, sampleRate, chunks)
  {
    requests := [ConfigRequest(Recognizer(projectId), BuildStreamingConfig(language, sampleRate))];
    var i := 0;
    while i < |chunks|
      invariant 0 <= i <= |chunks|
      invariant requests == RequestsFor(projectId, language, sampleRate, chunks[..i])
    {
      assert chunks[..i + 1][..i] == chunks[..i];
      requests := requests + [AudioRequest(chunks[i])];
      i := i + 1;
    }
    assert chunks[..i] == chunks;
  }

  // ---------------------------------------------------------------------------
  // The result stream.

  /** One streamed provider response: the results it carries. */
  datatype ProviderResponse = ProviderResponse(results: seq<RecognitionResult>)

  /** What the provider produces for a request stream: its responses, then possibly an error. */
  datatype ProviderOutcome = ProviderOutcome(responses: seq<ProviderResponse>, error: Option<string>)

  /** A result as streamed to the client. */
  datatype StreamingTranscribeResponse = StreamingTranscribeResponse(text: string, isFinal: bool, confidence: Option<real>)

  /** The result of one provider result: its first alternative, with a zero confidence read as none. */
  function ToResponse(r: RecognitionResult): (t: StreamingTranscribeResponse)
    requires HasAlternatives(r)
    ensures t.text == r.alternatives[0].transcript && t.isFinal == r.isFinal
    ensures t.confidence.None? <==> r.alternatives[0].confidence == 0.0
    ensures t.confidence.Some? ==> t.confidence.value == r.alternatives[0].confidence
  {
    StreamingTranscribeResponse(r.alternatives[0].transcript, r.isFinal, ConfidenceOrNone(r.alternatives[0].confidence))
  }

  /** All results of the responses, in stream order. */
  function Flatten(responses: seq<ProviderResponse>): (r: seq<RecognitionResult>)
    ensures responses == [] ==> r == []
  {
    if responses == [] then [] else Flatten(responses[..|responses| - 1]) + responses[|responses| - 1].results
  }

  lemma YieldedStep(done: seq<RecognitionResult>, results: seq<RecognitionResult>, j: nat)
    requires j < |results|
    ensures Yielded(done + results[..j + 1])
      == Yielded(done + results[..j]) + (if HasAlternatives(results[j]) then [ToResponse(results[j])] else [])
  {
    assert done + results[..j + 1] == (done + results[..j]) + [results[j]];
    YieldedSnoc(done + results[..j], results[j]);
    if !HasAlternatives(results[j]) {
      assert Yielded(done + results[..j]) + [] == Yielded(done + results[..j]);
    }
  }

  lemma FlattenSnoc(responses: seq<ProviderResponse>, i: nat)
    requires i < |responses|
    ensures Flatten(responses[..i + 1]) == Flatten(responses[..i]) + responses[i].results
  {
    assert responses[..i + 1][..i] == responses[..i];
  }

  function ToResponses(s: seq<RecognitionResult>): (r: seq<StreamingTranscribeResponse>)
    requires forall i :: 0 <= i < |s| ==> HasAlternatives(s[i])
    ensures |r| == |s|
    ensures forall i :: 0 <= i < |s| ==> r[i] == ToResponse(s[i])
  {
    if s == [] then [] else [ToResponse(s[0])] + ToResponses(s[1..])
  }

  /** The results streamed for provider results `rs`: those with an alternative, in order. */
  function Yielded(rs: seq<RecognitionResult>): seq<StreamingTranscribeResponse> {
    ToResponses(Filter(rs, HasAlternatives))
  }

  lemma FilterSingleton<T>(x: T, p: T -> bool)
    ensures Filter([x], p) == if p(x) then [x] else []
  {
    assert [x][1..] == [];
  }

  lemma ToResponsesAppend(a: seq<RecognitionResult>, b: seq<RecognitionResult>)
    requires forall i :: 0 <= i < |a| ==> HasAlternatives(a[i])
    requires forall i :: 0 <= i < |b| ==> HasAlternatives(b[i])
    ensures ToResponses(a + b) == ToResponses(a) + ToResponses(b)
  {
    var l, r := ToResponses(a + b), ToResponses(a) + ToResponses(b);
    assert |l| == |r|;
    forall i | 0 <= i < |l| ensures l[i] == r[i] {
      if i < |a| { assert (a + b)[i] == a[i]; } else { assert (a + b)[i] == b[i - |a|]; }
    }
  }

  /** A result without alternatives yields nothing; any other yields exactly its response, appended. */
  lemma YieldedSnoc(rs: seq<RecognitionResult>, x: RecognitionResult)
    ensures !HasAlternatives(x) ==> Yielded(rs + [x]) == Yielded(rs)
    ensures HasAlternatives(x) ==> Yielded(rs + [x]) == Yielded(rs) + [ToResponse(x)]
  {
    var a := Filter(rs, HasAlternatives);
    var c := Filter([x], HasAlternatives);
    FilterAppend(rs, [x], HasAlternatives);
    FilterSingleton(x, HasAlternatives);
    ToResponsesAppend(a, c);
    if HasAlternatives(x) {
      assert ToResponses(c) == [ToResponse(x)];
    } else {
      assert c == [];
      assert ToResponses(a) + [] == ToResponses(a);
    }
  }

  /**
   * `stream_transcribe`: the language falls back to the configured one, the
   * provider receives the generated requests, and every provider result with
   * an alternative is yielded in order; results without one are skipped. An
   * error the provider raises ends the stream and propagates.
   */
  method StreamTranscribe(config: VoiceConfig, language: Option<LanguageCode>, sampleRate: int,
                          chunks: seq<Bytes>, provider: seq<Request> -> ProviderOutcome)
    returns (requests: seq<Request>, out: seq<StreamingTranscribeResponse>, error: Option<string>)
    ensures requests == RequestsFor(config.projectId, UsedLanguage(language, config), sampleRate, chunks)
    ensures out == Yielded(Flatten(provider(requests).responses))
    ensures error == provider(requests).error
  {
    var usedLanguage := UsedLanguage(language, config);
    requests := CreateRequestGenerator(config.projectId, usedLanguage, sampleRate, chunks);
    var outcome := provider(requests);
    var responses := outcome.responses;
    out := [];
    var i := 0;
    while i < |responses|
      invariant 0 <= i <= |responses|
      invariant out == Yielded(Flatten(responses[..i]))
    {
      ghost var done := Flatten(responses[..i]);
      var results := responses[i].results;
      var j := 0;
      assert done + results[..0] == done;
      while j < |results|
        invariant 0 <= j <= |results|
        invariant out == Yielded(done + results[..j])
      {
        YieldedStep(done, results, j);
        if HasAlternatives(results[j]) {
          out := out + [ToResponse(results[j])];
        }
        j := j + 1;
      }
      FlattenSnoc(responses, i);
      assert results[..j] == results;
      i := i + 1;
    }
    assert responses[..i] == responses;
    error := outcome.error;
  }
}
