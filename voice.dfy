/**
 * The file-based speech service (`VoiceService`): upload validation by
 * extension and size, the one-shot recognition call, and the mapping of the
 * provider's results into a transcription response.
 *
 * The provider call is a parameter (`recognize`); the lazily built client
 * and its credentials are not modelled.
 */
module VoiceService {
  import opened Wrappers
  import opened VoiceTypes
  import opened Strings
  import opened Sequences

  /** The three ways the service fails; the source raises each as a voice processing error. */
  datatype VoiceError =
    | UnsupportedFormat(ext: string, supported: seq<string>)
    | FileTooLarge(size: int, maxMb: int)
    | RecognitionFailed(message: string)

  // ---------------------------------------------------------------------------
  // validate_file

  /** `Path(filename).name`: the text after the last `/`. */
  function BaseName(path: string): (r: string)
    ensures forall i :: 0 <= i < |r| ==> r[i] != '/'
    ensures |r| <= |path| && r == path[|path| - |r|..]
  {
    match LastIndexOf(path, '/')
    case None => path
    case Some(i) => path[i + 1..]
  }

  /**
   * `Path(name).suffix`: from the last dot on, provided that dot is neither
   * the first nor the last character of the name; otherwise empty.
   */
  function Suffix(name: string): (r: string)
    ensures r == [] || (r[0] == '.' && |r| >= 2)
  {
    match LastIndexOf(name, '.')
    case None => ""
    case Some(i) => if 0 < i < |name| - 1 then name[i..] else ""
  }

  /** `Path(filename).suffix.lower().lstrip(".")`. */
  function Extension(filename: string): string {
    LStripChar(Lower(Suffix(BaseName(filename))), '.')
  }

  /** `[fmt.value for fmt in config.supported_formats]`. */
  function SupportedValues(config: VoiceConfig): seq<string> {
    var fs := config.supportedFormats;
    seq(|fs|, i requires 0 <= i < |fs| => FormatValue(fs[i]))
  }

  /** The size limit in bytes: the configured megabytes, in binary megabytes. */
  function MaxBytes(config: VoiceConfig): int {
    config.maxFileSizeMb * 1024 * 1024
  }

  /** `validate_file`: the extension is checked first, then the size. */
  function ValidateFile(config: VoiceConfig, filename: string, fileSize: int): Result<(), VoiceError> {
    CheckExtensionAndSize(config, Extension(filename), fileSize)
  }

  /** The two checks of `validate_file` on an extension already extracted. */
  function CheckExtensionAndSize(config: VoiceConfig, ext: string, fileSize: int): Result<(), VoiceError> {
    var supported := SupportedValues(config);
    if ext !in supported then Failure(UnsupportedFormat(ext, supported))
    else if fileSize > MaxBytes(config) then Failure(FileTooLarge(fileSize, config.maxFileSizeMb))
    else Success(())
  }

  /** A name holds no `/` when it is its own base name. */
  predicate NoSlash(s: string) {
    forall i :: 0 <= i < |s| ==> s[i] != '/'
  }

  lemma BaseNameOwn(name: string)
    requires NoSlash(name)
    ensures BaseName(name) == name
  {
  }

  /** Whatever the directory, the base name of `dir/name` is `name`. */
  lemma BaseNameInDir(dir: string, name: string)
    requires NoSlash(name)
    ensures BaseName(dir + "/" + name) == name
  {
    var p := dir + "/" + name;
    assert p[|dir|] == '/';
    forall k | |dir| < k < |p| ensures p[k] != '/' {
      assert p[k] == name[k - |dir| - 1];
    }
    assert p[|dir| + 1..] == name;
  }

  /** The suffix of `stem.ext`, for a non-empty stem and a non-empty `ext` without dots, is `.ext`. */
  lemma SuffixOfName(stem: string, ext: string)
    requires stem != [] && ext != [] && forall i :: 0 <= i < |ext| ==> ext[i] != '.'
    ensures Suffix(stem + "." + ext) == "." + ext
  {
    var name := stem + "." + ext;
    assert name[|stem|] == '.';
    forall k | |stem| < k < |name| ensures name[k] != '.' {
      assert name[k] == ext[k - |stem| - 1];
    }
    assert name[|stem|..] == "." + ext;
  }

  /** Lower-casing keeps the leading dot and introduces no other, so `lstrip(".")` removes exactly it. */
  lemma StripLoweredDot(ext: string)
    requires ext != [] && ext[0] != '.'
    ensures LStripChar(Lower("." + ext), '.') == Lower(ext)
  {
    var low := Lower("." + ext);
    assert ("." + ext)[1..] == ext;
    assert low == [LowerChar('.')] + Lower(ext);
    assert Lower(ext)[0] == LowerChar(ext[0]);
  }

  lemma NoSlashName(stem: string, ext: string)
    requires NoSlash(stem) && NoSlash(ext)
    ensures NoSlash(stem + "." + ext)
  {
    var name := stem + "." + ext;
    forall i | 0 <= i < |name| ensures name[i] != '/' {
      if i < |stem| {
        assert name[i] == stem[i];
      } else if i > |stem| {
        assert name[i] == ext[i - |stem| - 1];
      }
    }
  }

  /** A name that ends in `.ext` has extension `ext`, lower-cased, whatever directory it sits in. */
  lemma ExtensionOfName(dir: string, stem: string, ext: string)
    requires stem != [] && NoSlash(stem)
    requires ext != [] && NoSlash(ext) && forall i :: 0 <= i < |ext| ==> ext[i] != '.'
    ensures var name := stem + "." + ext;
      Extension(name) == Lower(ext) && Extension(dir + "/" + name) == Lower(ext)
  {
    var name := stem + "." + ext;
    NoSlashName(stem, ext);
    BaseNameOwn(name);
    BaseNameInDir(dir, name);
    SuffixOfName(stem, ext);
    StripLoweredDot(ext);
  }

  /** A name without a dot, or whose only dot is its first character, has no extension. */
  lemma NoExtension(name: string)
    requires NoSlash(name)
    requires forall i :: 0 < i < |name| ==> name[i] != '.'
    ensures Extension(name) == ""
  {
    assert BaseName(name) == name;
  }

  /**
   * A file is accepted exactly when its extension names one of the
   * configured formats and its size is within the limit in bytes.
   */
  lemma ValidateFileAccepts(config: VoiceConfig, filename: string, fileSize: int)
    ensures ValidateFile(config, filename, fileSize).Success? <==>
      (exists i :: 0 <= i < |config.supportedFormats| && FormatValue(config.supportedFormats[i]) == Extension(filename))
      && fileSize <= config.maxFileSizeMb * 1_048_576
  {
    CheckAccepts(config, Extension(filename), fileSize);
  }

  /** The two checks pass exactly for a configured extension and a size within the limit. */
  lemma CheckAccepts(config: VoiceConfig, ext: string, fileSize: int)
    ensures CheckExtensionAndSize(config, ext, fileSize).Success? <==>
      (exists i :: 0 <= i < |config.supportedFormats| && FormatValue(config.supportedFormats[i]) == ext)
      && fileSize <= config.maxFileSizeMb * 1_048_576
  {
    SupportedIff(config, ext);
    assert MaxBytes(config) == config.maxFileSizeMb * 1_048_576;
  }

  /** A value is among the supported ones exactly when some configured format has it. */
  lemma SupportedIff(config: VoiceConfig, ext: string)
    ensures ext in SupportedValues(config) <==>
      exists i :: 0 <= i < |config.supportedFormats| && FormatValue(config.supportedFormats[i]) == ext
  {
    var supported := SupportedValues(config);
    if ext in supported {
      var i :| 0 <= i < |supported| && supported[i] == ext;
      assert FormatValue(config.supportedFormats[i]) == ext;
    } else {
      forall i | 0 <= i < |config.supportedFormats| ensures FormatValue(config.supportedFormats[i]) != ext {
        assert supported[i] == FormatValue(config.supportedFormats[i]);
      }
    }
  }

  /** An unsupported extension is reported as such, however large the file. */
  lemma FormatCheckedFirst(config: VoiceConfig, filename: string, fileSize: int)
    requires forall f :: f in config.supportedFormats ==> FormatValue(f) != Extension(filename)
    ensures ValidateFile(config, filename, fileSize)
      == Failure(UnsupportedFormat(Extension(filename), SupportedValues(config)))
  {
    var supported := SupportedValues(config);
    forall i | 0 <= i < |supported| ensures supported[i] != Extension(filename) {
      assert config.supportedFormats[i] in config.supportedFormats;
    }
  }

  /** A supported file of exactly the limit is accepted; one byte more is too large. */
  lemma SizeLimitInclusive(config: VoiceConfig, filename: string)
    requires Extension(filename) in SupportedValues(config)
    ensures ValidateFile(config, filename, config.maxFileSizeMb * 1_048_576).Success?
    ensures ValidateFile(config, filename, config.maxFileSizeMb * 1_048_576 + 1)
      == Failure(FileTooLarge(config.maxFileSizeMb * 1_048_576 + 1, config.maxFileSizeMb))
  {
  }

  // ---------------------------------------------------------------------------
  // transcribe, _build_response, _extract_results

  /** One entry of a detailed response: a transcript and its confidence, if the provider gave one. */
  datatype Segment = Segment(text: string, confidence: Option<real>)

  /** `TranscribeResponse`, or `TranscribeDetailedResponse` with its segments. */
  datatype TranscribeResponse =
    | Plain(text: string, language: LanguageCode, confidence: Option<real>)
    | Detailed(text: string, language: LanguageCode, confidence: Option<real>, segments: seq<Segment>)

  /** The first alternative of every result that has one, in order. */
  function FirstAlternatives(results: seq<RecognitionResult>): (alts: seq<Alternative>)
    ensures |alts| <= |results|
  {
    if results == [] then []
    else
      var last := results[|results| - 1];
      FirstAlternatives(results[..|results| - 1]) + (if HasAlternatives(last) then [last.alternatives[0]] else [])
  }

  function Transcripts(alts: seq<Alternative>): (texts: seq<string>)
    ensures |texts| == |alts|
    ensures forall i :: 0 <= i < |alts| ==> texts[i] == alts[i].transcript
  {
    if alts == [] then [] else Transcripts(alts[..|alts| - 1]) + [alts[|alts| - 1].transcript]
  }

  /** The confidences that are not zero (zero is falsy), in order. */
  function NonZeroConfidences(alts: seq<Alternative>): (cs: seq<real>)
    ensures |cs| <= |alts|
  {
    if alts == [] then []
    else
      var c := alts[|alts| - 1].confidence;
      NonZeroConfidences(alts[..|alts| - 1]) + (if c != 0.0 then [c] else [])
  }

  function Segments(alts: seq<Alternative>): (segs: seq<Segment>)
    ensures |segs| == |alts|
    ensures forall i :: 0 <= i < |alts| ==>
      segs[i] == Segment(alts[i].transcript, ConfidenceOrNone(alts[i].confidence))
  {
    if alts == [] then []
    else
      var a := alts[|alts| - 1];
      Segments(alts[..|alts| - 1]) + [Segment(a.transcript, ConfidenceOrNone(a.confidence))]
  }

  function Sum(cs: seq<real>): real {
    if cs == [] then 0.0 else Sum(cs[..|cs| - 1]) + cs[|cs| - 1]
  }

  /** `sum(cs) / len(cs) if cs else None`. */
  function Mean(cs: seq<real>): (m: Option<real>)
    ensures m.None? <==> cs == []
  {
    if cs == [] then None else Some(Sum(cs) / (|cs| as real))
  }

  /** `_build_response`, with `_extract_results` read as the functions above. */
  function ResponseFor(results: seq<RecognitionResult>, language: LanguageCode, detailed: bool): TranscribeResponse {
    if results == [] then Plain("", language, None)
    else
      var alts := FirstAlternatives(results);
      var text := Join(Transcripts(alts), " ");
      var confidence := Mean(NonZeroConfidences(alts));
      if detailed then Detailed(text, language, confidence, Segments(alts))
      else Plain(text, language, confidence)
  }

  /** The first alternatives are those of the results with alternatives, in order. */
  lemma {:induction false} FirstAlternativesSpec(results: seq<RecognitionResult>)
    ensures var f := Filter(results, HasAlternatives);
      |FirstAlternatives(results)| == |f|
      && forall i :: 0 <= i < |f| ==> FirstAlternatives(results)[i] == f[i].alternatives[0]
    decreases |results|
  {
    if results != [] {
      var init := results[..|results| - 1];
      var last := results[|results| - 1];
      FirstAlternativesSpec(init);
      var fi := Filter(init, HasAlternatives);
      var fl: seq<RecognitionResult> := if HasAlternatives(last) then [last] else [];
      FilterSnoc(results, HasAlternatives);
      var fa := FirstAlternatives(init);
      var tail: seq<Alternative> := if HasAlternatives(last) then [last.alternatives[0]] else [];
      assert FirstAlternatives(results) == fa + tail;
      forall i | 0 <= i < |fi| + |fl|
        ensures (fa + tail)[i] == (fi + fl)[i].alternatives[0]
      {
        if i < |fi| {
          assert (fa + tail)[i] == fa[i] && (fi + fl)[i] == fi[i];
        } else {
          assert (fa + tail)[i] == last.alternatives[0] && (fi + fl)[i] == last;
        }
      }
    }
  }

  /** The kept confidences are exactly the non-zero ones: none is zero, and none is kept only when all are zero. */
  lemma {:induction false} NonZeroConfidencesSpec(alts: seq<Alternative>)
    ensures var cs := NonZeroConfidences(alts);
      (forall j :: 0 <= j < |cs| ==> cs[j] != 0.0 && exists i :: 0 <= i < |alts| && alts[i].confidence == cs[j])
      && (cs == [] <==> forall i :: 0 <= i < |alts| ==> alts[i].confidence == 0.0)
    decreases |alts|
  {
    if alts != [] {
      var init := alts[..|alts| - 1];
      NonZeroConfidencesSpec(init);
      var cs := NonZeroConfidences(alts);
      var ci := NonZeroConfidences(init);
      forall j | 0 <= j < |cs|
        ensures cs[j] != 0.0 && exists i :: 0 <= i < |alts| && alts[i].confidence == cs[j]
      {
        if j < |ci| {
          assert cs[j] == ci[j];
          var i :| 0 <= i < |init| && init[i].confidence == ci[j];
          assert alts[i] == init[i];
        } else {
          assert cs[j] == alts[|alts| - 1].confidence;
        }
      }
      if cs == [] {
        forall i | 0 <= i < |alts| ensures alts[i].confidence == 0.0 {
          if i < |init| { assert alts[i] == init[i]; }
        }
      }
    }
  }

  /** Sum bounds for confidences in the unit interval. */
  lemma {:induction false} SumUnit(cs: seq<real>)
    requires forall i :: 0 <= i < |cs| ==> 0.0 <= cs[i] <= 1.0
    ensures 0.0 <= Sum(cs) <= |cs| as real
    decreases |cs|
  {
    if cs != [] {
      SumUnit(cs[..|cs| - 1]);
    }
  }

  /** The mean of confidences in the unit interval is in the unit interval. */
  lemma MeanUnit(cs: seq<real>)
    requires forall i :: 0 <= i < |cs| ==> 0.0 <= cs[i] <= 1.0
    ensures Mean(cs).Some? ==> 0.0 <= Mean(cs).value <= 1.0
  {
    if cs != [] {
      SumUnit(cs);
      var n := |cs| as real;
      assert Sum(cs) / n <= 1.0 by {
        assert Sum(cs) <= n;
      }
    }
  }

  /** The mean of equal confidences is that confidence. */
  lemma {:induction false} MeanOfEqual(cs: seq<real>, c: real)
    requires forall i :: 0 <= i < |cs| ==> cs[i] == c
    ensures Sum(cs) == (|cs| as real) * c
    ensures cs != [] ==> Mean(cs) == Some(c)
    decreases |cs|
  {
    if cs != [] {
      MeanOfEqual(cs[..|cs| - 1], c);
      var n := |cs| as real;
      assert n * c == (n - 1.0) * c + c;
      assert Sum(cs) / n == c;
    }
  }

  /**
   * The shape of the response: with no results it is the plain empty one,
   * even when details were asked for; otherwise details come exactly when
   * asked for and the text is the first transcripts joined by spaces; the
   * language is always the one used.
   */
  lemma ResponseShape(results: seq<RecognitionResult>, language: LanguageCode, detailed: bool)
    ensures var r := ResponseFor(results, language, detailed);
      r.language == language
      && (results == [] ==> r == Plain("", language, None))
      && (results != [] ==> (r.Detailed? <==> detailed) && r.text == Join(Transcripts(FirstAlternatives(results)), " "))
  {
  }

  /** Alternatives that are the kept results' first ones are all zero-confidence exactly when those are. */
  lemma AllZeroAlike(alts: seq<Alternative>, kept: seq<RecognitionResult>)
    requires |alts| == |kept|
    requires forall i :: 0 <= i < |kept| ==> kept[i].alternatives != []
    requires forall i :: 0 <= i < |kept| ==> alts[i] == kept[i].alternatives[0]
    ensures (forall i :: 0 <= i < |alts| ==> alts[i].confidence == 0.0)
        <==> (forall i :: 0 <= i < |kept| ==> kept[i].alternatives[0].confidence == 0.0)
  {
  }

  /**
   * The confidence is missing exactly when no result with alternatives has a
   * non-zero first confidence, and is otherwise the mean of those that are
   * non-zero.
   */
  lemma ResponseConfidence(results: seq<RecognitionResult>, language: LanguageCode, detailed: bool)
    ensures var r := ResponseFor(results, language, detailed);
      var kept := Filter(results, HasAlternatives);
      (r.confidence.None? <==> forall i :: 0 <= i < |kept| ==> kept[i].alternatives[0].confidence == 0.0)
      && (r.confidence.Some? ==> r.confidence == Mean(NonZeroConfidences(FirstAlternatives(results))))
  {
    var alts := FirstAlternatives(results);
    var kept := Filter(results, HasAlternatives);
    FirstAlternativesSpec(results);
    AllZeroAlike(alts, kept);
    NonZeroConfidencesSpec(alts);
    if results == [] {
      assert kept == [];
    }
  }

  /** A detailed response has one segment per result with alternatives, its first transcript and confidence. */
  lemma ResponseSegments(results: seq<RecognitionResult>, language: LanguageCode, detailed: bool)
    ensures var r := ResponseFor(results, language, detailed);
      var kept := Filter(results, HasAlternatives);
      r.Detailed? ==>
        |r.segments| == |kept|
        && (forall i :: 0 <= i < |kept| ==>
              r.segments[i].text == kept[i].alternatives[0].transcript
              && (r.segments[i].confidence.None? <==> kept[i].alternatives[0].confidence == 0.0))
  {
    FirstAlternativesSpec(results);
  }

  /** A single result's response carries exactly its first transcript. */
  lemma SingleResultText(r: RecognitionResult, language: LanguageCode, detailed: bool)
    requires HasAlternatives(r)
    ensures ResponseFor([r], language, detailed).text == r.alternatives[0].transcript
  {
    assert [r][..0] == [];
    assert FirstAlternatives([r]) == [r.alternatives[0]];
  }

  /** Confidences reported in the unit interval give a response confidence in the unit interval. */
  lemma ResponseConfidenceUnit(results: seq<RecognitionResult>, language: LanguageCode, detailed: bool)
    requires forall i, j :: 0 <= i < |results| && 0 <= j < |results[i].alternatives| ==>
      0.0 <= results[i].alternatives[j].confidence <= 1.0
    ensures var c := ResponseFor(results, language, detailed).confidence;
      c.Some? ==> 0.0 <= c.value <= 1.0
  {
    if results != [] {
      var alts := FirstAlternatives(results);
      var cs := NonZeroConfidences(alts);
      FirstAlternativesSpec(results);
      NonZeroConfidencesSpec(alts);
      var kept := Filter(results, HasAlternatives);
      forall j | 0 <= j < |cs| ensures 0.0 <= cs[j] <= 1.0 {
        var i :| 0 <= i < |alts| && alts[i].confidence == cs[j];
        assert alts[i] == kept[i].alternatives[0];
        assert kept[i] in results;
        var k :| 0 <= k < |results| && results[k] == kept[i];
        assert 0 < |results[k].alternatives|;
      }
      MeanUnit(cs);
    }
  }

  /** Taking one more result adds its first alternative, if it has one. */
  lemma FirstAlternativesSnoc(results: seq<RecognitionResult>, k: nat)
    requires k < |results|
    ensures FirstAlternatives(results[..k + 1]) == FirstAlternatives(results[..k])
      + (if HasAlternatives(results[k]) then [results[k].alternatives[0]] else [])
  {
    assert results[..k + 1][..k] == results[..k];
  }

  /** The three lists grow by one alternative's entries. */
  lemma ListsSnoc(alts: seq<Alternative>, a: Alternative)
    ensures Transcripts(alts + [a]) == Transcripts(alts) + [a.transcript]
    ensures NonZeroConfidences(alts + [a]) == NonZeroConfidences(alts) + (if a.confidence != 0.0 then [a.confidence] else [])
    ensures Segments(alts + [a]) == Segments(alts) + [Segment(a.transcript, ConfidenceOrNone(a.confidence))]
  {
    assert (alts + [a])[..|alts|] == alts;
  }

  /** `_extract_results`: one pass over the results, appending to three lists. */
  method ExtractResults(results: seq<RecognitionResult>)
    returns (texts: seq<string>, confidences: seq<real>, segments: seq<Segment>)
    ensures texts == Transcripts(FirstAlternatives(results))
    ensures confidences == NonZeroConfidences(FirstAlternatives(results))
    ensures segments == Segments(FirstAlternatives(results))
  {
    texts, confidences, segments := [], [], [];
    ghost var alts: seq<Alternative> := [];
    var k := 0;
    while k < |results|
      invariant k <= |results|
      invariant alts == FirstAlternatives(results[..k])
      invariant texts == Transcripts(alts)
      invariant confidences == NonZeroConfidences(alts)
      invariant segments == Segments(alts)
    {
      var result := results[k];
      FirstAlternativesSnoc(results, k);
      if result.alternatives != [] {
        var alt := result.alternatives[0];
        ListsSnoc(alts, alt);
        alts := alts + [alt];
        texts := texts + [alt.transcript];
        if alt.confidence != 0.0 {
          confidences := confidences + [alt.confidence];
        }
        segments := segments + [Segment(alt.transcript, ConfidenceOrNone(alt.confidence))];
      }
      k := k + 1;
    }
    assert results[..k] == results;
  }

  /** `_build_response`. */
  method BuildResponse(results: seq<RecognitionResult>, language: LanguageCode, detailed: bool)
    returns (r: TranscribeResponse)
    ensures r == ResponseFor(results, language, detailed)
  {
    if results == [] {
      return Plain("", language, None);
    }
    var texts, confidences, segments := ExtractResults(results);
    var fullText := Join(texts, " ");
    var avgConfidence := if confidences != [] then Some(Sum(confidences) / (|confidences| as real)) else None;
    if detailed {
      r := Detailed(fullText, language, avgConfidence, segments);
    } else {
      r := Plain(fullText, language, avgConfidence);
    }
  }

  /** The one-shot request: recognizer, language, model, punctuation, and the audio. */
  datatype RecognizeRequest = RecognizeRequest(
    recognizer: string, languageCodes: seq<string>, model: string,
    automaticPunctuation: bool, content: Bytes)

  function RequestFor(config: VoiceConfig, language: LanguageCode, audio: Bytes): RecognizeRequest {
    RecognizeRequest(Recognizer(config.projectId), [LanguageValue(language)], LatestLong, true, audio)
  }

  /**
   * `transcribe`: the language defaults to the configured one; the provider
   * is asked once; its failure becomes a recognition failure carrying its
   * message, and its answer becomes the response.
   */
  method Transcribe(config: VoiceConfig, audio: Bytes, language: Option<LanguageCode>, detailed: bool,
                    recognize: RecognizeRequest -> Result<seq<RecognitionResult>, string>)
    returns (r: Result<TranscribeResponse, VoiceError>)
    ensures var used := UsedLanguage(language, config);
      var answer := recognize(RequestFor(config, used, audio));
      (answer.Failure? ==> r == Failure(RecognitionFailed(answer.error)))
      && (answer.Success? ==> r == Success(ResponseFor(answer.value, used, detailed)))
  {
    var usedLanguage := language.GetOr(config.language);
    var answer := recognize(RequestFor(config, usedLanguage, audio));
    if answer.Failure? {
      return Failure(RecognitionFailed(answer.error));
    }
    var response := BuildResponse(answer.value, usedLanguage, detailed);
    r := Success(response);
  }
}
