/**
 * Shared vocabulary of the speech components: language codes, audio
 * formats, the voice configuration, raw audio bytes, and the shape of a
 * recognition result as the speech provider returns it.
 */
module VoiceTypes {
  import opened Wrappers

  type Byte = b: int | 0 <= b < 256

  type Bytes = seq<Byte>

  datatype LanguageCode = KoKR | EnUS

  /** The enum value sent to the provider and written into file names. */
  function LanguageValue(l: LanguageCode): (s: string)
    ensures |s| == 5 && s[2] == '-'
  {
    match l
    case KoKR => "ko-KR"
    case EnUS => "en-US"
  }

  lemma LanguageValueInjective(a: LanguageCode, b: LanguageCode)
    ensures LanguageValue(a) == LanguageValue(b) <==> a == b
  {
  }

  datatype AudioFormat = Mp3 | Wav | M4a | Webm | Ogg | Flac

  function FormatValue(f: AudioFormat): string {
    match f
    case Mp3 => "mp3"
    case Wav => "wav"
    case M4a => "m4a"
    case Webm => "webm"
    case Ogg => "ogg"
    case Flac => "flac"
  }

  /** The recognition model both speech services ask for. */
  const LatestLong: string := "latest_long"

  /** The voice section of the settings; `maxFileSizeMb` is bounded to 1..100 by its schema. */
  datatype VoiceConfig = VoiceConfig(
    projectId: string, language: LanguageCode, maxFileSizeMb: int,
    supportedFormats: seq<AudioFormat>)

  predicate ValidConfig(c: VoiceConfig) {
    1 <= c.maxFileSizeMb <= 100
  }

  /** `language or config.language`: a missing language falls back to the configured one. */
  function UsedLanguage(language: Option<LanguageCode>, config: VoiceConfig): (l: LanguageCode)
    ensures language.Some? ==> l == language.value
    ensures language.None? ==> l == config.language
  {
    language.GetOr(config.language)
  }

  /** The recognizer resource name both services address. */
  function Recognizer(projectId: string): string {
    "projects/" + projectId + "/locations/global/recognizers/_"
  }

  /** One hypothesis of the provider; a confidence of 0.0 means the provider gave none. */
  datatype Alternative = Alternative(transcript: string, confidence: real)

  /** One recognition result: its hypotheses, best first, and whether it is final. */
  datatype RecognitionResult = RecognitionResult(alternatives: seq<Alternative>, isFinal: bool)

  predicate HasAlternatives(r: RecognitionResult) {
    r.alternatives != []
  }

  /** Python's `x if x else None` on a confidence: zero is falsy. */
  function ConfidenceOrNone(c: real): (r: Option<real>)
    ensures r.None? <==> c == 0.0
    ensures r.Some? ==> r.value == c
  {
    if c != 0.0 then Some(c) else None
  }
}
