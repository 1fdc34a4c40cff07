/**
 * Locale selection: the `Accept-Language` header parser that picks the best
 * supported locale, and the per-request current locale.
 *
 * `float(q)` is the parameter `weight`, which answers `None` where Python
 * would raise; message translation through gettext is not modelled.
 */
module I18n {
  import opened Wrappers
  import opened Strings
  import opened Sequences

  const DefaultLocale: string := "en"
  const SupportedLocales: seq<string> := ["en", "ko"]

  /** One header entry: the language tag and its weight. */
  datatype Language = Language(tag: string, weight: real)

  /** The exceptions the parser lets escape. */
  datatype ParseError =
    | UnpackError(part: string)    // `lang, q = part.split(";q=")` did not give two pieces
    | BadWeight(text: string)      // `float(q)` rejected the weight

  const WeightMark: string := ";q="

  function Weight(l: Language): real { l.weight }

  /** `lang.split("-")[0].lower()`: the primary subtag, lower-cased. */
  function LangCode(tag: string): string {
    Lower(Split(tag, "-")[0])
  }

  predicate IsSupported(l: Language) {
    LangCode(l.tag) in SupportedLocales
  }

  /** One comma-separated piece of the header, as the loop body reads it. */
  function ParsePart(part: string, weight: string -> Option<real>): Result<Language, ParseError> {
    var p := Strip(part);
    if Contains(p, WeightMark) then
      var pieces := Split(p, WeightMark);
      if |pieces| != 2 then Failure(UnpackError(p))
      else match weight(pieces[1])
        case None => Failure(BadWeight(pieces[1]))
        case Some(w) => Success(Language(Strip(pieces[0]), w))
    else Success(Language(p, 1.0))
  }

  /** All pieces in order; the first piece that fails decides the error. */
  function ParseParts(parts: seq<string>, weight: string -> Option<real>): Result<seq<Language>, ParseError>
    decreases |parts|
  {
    if parts == [] then Success([])
    else match ParsePart(parts[0], weight)
      case Failure(e) => Failure(e)
      case Success(l) => Prepend([l], ParseParts(parts[1..], weight))
  }

  function Prepend(ls: seq<Language>, r: Result<seq<Language>, ParseError>): Result<seq<Language>, ParseError> {
    match r
    case Success(rest) => Success(ls + rest)
    case Failure(e) => Failure(e)
  }

  /** The locale chosen from parsed entries: the first supported one after a stable sort by weight. */
  function Negotiate(languages: seq<Language>): (r: string)
    ensures r in SupportedLocales
  {
    match FirstMatch(SortDesc(languages, Weight), IsSupported)
    case Some(l) => LangCode(l.tag)
    case None => DefaultLocale
  }

  /** What `parse_accept_language` returns or raises for a header. */
  function AcceptLanguageLocale(header: Option<string>, weight: string -> Option<real>): Result<string, ParseError> {
    if header.None? || header.value == "" then Success(DefaultLocale)
    else match ParseParts(Split(header.value, ","), weight)
      case Failure(e) => Failure(e)
      case Success(languages) => Success(Negotiate(languages))
  }

  /** `parse_accept_language`: the parse loop, the in-place sort, then the search loop. */
  method ParseAcceptLanguage(header: Option<string>, weight: string -> Option<real>) returns (r: Result<string, ParseError>)
    ensures r == AcceptLanguageLocale(header, weight)
  {
    if header.None? || header.value == "" {
      return Success(DefaultLocale);
    }
    var parsed := ParseLanguages(Split(header.value, ","), weight);
    if parsed.Failure? {
      return Failure(parsed.error);
    }
    var locale := PickLocale(parsed.value);
    r := Success(locale);
  }

  /** The parse loop: one entry per comma-separated part, stopping at the first part that fails. */
  method ParseLanguages(parts: seq<string>, weight: string -> Option<real>) returns (r: Result<seq<Language>, ParseError>)
    ensures r == ParseParts(parts, weight)
  {
    var languages: seq<Language> := [];
    var k := 0;
    assert parts[0..] == parts;
    PrependNothing(ParseParts(parts, weight));
    while k < |parts|
      invariant 0 <= k <= |parts|
      invariant ParseParts(parts, weight) == Prepend(languages, ParseParts(parts[k..], weight))
    {
      assert parts[k..][1..] == parts[k + 1..];
      var p := ParsePart(parts[k], weight);
      if p.Failure? {
        return Failure(p.error);
      }
      PrependTwice(languages, p.value, ParseParts(parts[k + 1..], weight));
      languages := languages + [p.value];
      k := k + 1;
    }
    assert parts[k..] == [];
    assert languages + [] == languages;
    r := Success(languages);
  }

  /** The sort by weight, then the search loop for the first supported primary subtag. */
  method PickLocale(languages: seq<Language>) returns (r: string)
    ensures r == Negotiate(languages)
  {
    var sorted := SortDesc(languages, Weight);
    var i := 0;
    while i < |sorted|
      invariant 0 <= i <= |sorted|
      invariant forall j :: 0 <= j < i ==> !IsSupported(sorted[j])
    {
      if IsSupported(sorted[i]) {
        FirstMatchAt(sorted, IsSupported, i);
        return LangCode(sorted[i].tag);
      }
      i := i + 1;
    }
    r := DefaultLocale;
  }

  lemma PrependNothing(r: Result<seq<Language>, ParseError>)
    ensures Prepend([], r) == r
  {
    if r.Success? {
      assert [] + r.value == r.value;
    }
  }

  lemma PrependTwice(ls: seq<Language>, l: Language, r: Result<seq<Language>, ParseError>)
    ensures Prepend(ls, Prepend([l], r)) == Prepend(ls + [l], r)
  {
    if r.Success? {
      AppendAssoc(ls, [l], r.value);
    }
  }

  // ---------------------------------------------------------------------------
  // Properties of the parser

  /** An absent or empty header gives the default locale. */
  lemma NoHeaderDefault(weight: string -> Option<real>)
    ensures AcceptLanguageLocale(None, weight) == Success(DefaultLocale)
    ensures AcceptLanguageLocale(Some(""), weight) == Success(DefaultLocale)
  {
  }

  /** Whatever the header, a locale that is returned is a supported one. */
  lemma AlwaysSupported(header: Option<string>, weight: string -> Option<real>)
    ensures var r := AcceptLanguageLocale(header, weight);
      r.Success? ==> r.value in SupportedLocales
  {
  }

  /** Parsing succeeds exactly when every piece parses, one entry per piece in order; else the first bad piece's error. */
  lemma ParsePartsSpec(parts: seq<string>, weight: string -> Option<real>)
    ensures var r := ParseParts(parts, weight);
      && (r.Success? <==> forall i :: 0 <= i < |parts| ==> ParsePart(parts[i], weight).Success?)
      && (r.Success? ==> |r.value| == |parts|
                         && forall i :: 0 <= i < |parts| ==> ParsePart(parts[i], weight) == Success(r.value[i]))
      && (r.Failure? ==> exists i :: (0 <= i < |parts| && ParsePart(parts[i], weight) == Failure(r.error)
                                      && forall j :: 0 <= j < i ==> ParsePart(parts[j], weight).Success?))
  {
    ParsePartsEntries(parts, weight);
    ParsePartsFirstError(parts, weight);
  }

  lemma {:induction false} ParsePartsEntries(parts: seq<string>, weight: string -> Option<real>)
    ensures var r := ParseParts(parts, weight);
      r.Success? ==> |r.value| == |parts|
                     && forall i :: 0 <= i < |parts| ==> ParsePart(parts[i], weight) == Success(r.value[i])
    decreases |parts|
  {
    if parts != [] {
      var tail := parts[1..];
      ParsePartsEntries(tail, weight);
      var r := ParseParts(parts, weight);
      if r.Success? {
        var h := ParsePart(parts[0], weight);
        var t := ParseParts(tail, weight);
        assert r.value == [h.value] + t.value;
        forall i | 1 <= i < |parts|
          ensures ParsePart(parts[i], weight) == Success(r.value[i])
        {
          assert parts[i] == tail[i - 1];
        }
      }
    }
  }

  lemma {:induction false} ParsePartsFirstError(parts: seq<string>, weight: string -> Option<real>)
    ensures var r := ParseParts(parts, weight);
      r.Failure? ==> exists i :: (0 <= i < |parts| && ParsePart(parts[i], weight) == Failure(r.error)
                                  && forall j :: 0 <= j < i ==> ParsePart(parts[j], weight).Success?)
    decreases |parts|
  {
    if parts != [] {
      var tail := parts[1..];
      var r := ParseParts(parts, weight);
      var h := ParsePart(parts[0], weight);
      if r.Failure? && h.Success? {
        ParsePartsFirstError(tail, weight);
        var i :| 0 <= i < |tail| && ParsePart(tail[i], weight) == Failure(r.error)
                 && forall j :: 0 <= j < i ==> ParsePart(tail[j], weight).Success?;
        forall j | 1 <= j < i + 1
          ensures ParsePart(parts[j], weight).Success?
        {
          assert parts[j] == tail[j - 1];
        }
        assert parts[i + 1] == tail[i];
      }
    }
  }

  /** A piece without a weight mark gets weight 1.0 under its stripped text. */
  lemma UnweightedPart(part: string, weight: string -> Option<real>)
    requires !Contains(Strip(part), WeightMark)
    ensures ParsePart(part, weight) == Success(Language(Strip(part), 1.0))
  {
  }

  /**
   * A piece `lang;q=w` with one weight mark gets the stripped language and the
   * parsed weight; one that `float` rejects raises.
   */
  lemma WeightedPart(lang: string, q: string, weight: string -> Option<real>)
    requires var p := lang + WeightMark + q;
      (p == [] || (!IsSpace(p[0]) && !IsSpace(p[|p| - 1])))
      && (forall j :: 0 <= j < |lang| ==> !ContainsAt(p, WeightMark, j))
      && !Contains(q, WeightMark)
    ensures ParsePart(lang + WeightMark + q, weight)
      == match weight(q)
         case Some(w) => Success(Language(Strip(lang), w))
         case None => Failure(BadWeight(q))
  {
    var p := lang + WeightMark + q;
    StripTrimmed(p);
    SplitOnce(lang, WeightMark, q);
    IndexFromContains(p, WeightMark);
  }

  /** A piece with two weight marks cannot be unpacked into a language and a weight. */
  lemma TwoWeightsRejected(a: string, b: string, c: string, weight: string -> Option<real>)
    requires var p := a + WeightMark + b + WeightMark + c;
      p == [] || (!IsSpace(p[0]) && !IsSpace(p[|p| - 1]))
    ensures var p := a + WeightMark + b + WeightMark + c;
      ParsePart(p, weight) == Failure(UnpackError(p))
  {
    var p := a + WeightMark + b + WeightMark + c;
    StripTrimmed(p);
    assert ContainsAt(p, WeightMark, |a|);
    IndexFromContains(p, WeightMark);
    SplitFromJoin(p, WeightMark, 0);
    TwoMarksSplitLong(a, b, c);
  }

  lemma TwoMarksSplitLong(a: string, b: string, c: string)
    ensures |Split(a + WeightMark + b + WeightMark + c, WeightMark)| >= 3
  {
    var p := a + WeightMark + b + WeightMark + c;
    var m := |WeightMark|;
    var k1 := |a|;
    var k2 := |a| + m + |b|;
    assert ContainsAt(p, WeightMark, k1);
    assert ContainsAt(p, WeightMark, k2) by {
      assert p[k2..k2 + m] == WeightMark;
    }
    IndexFromFirst(p, WeightMark, 0);
    var i := IndexFrom(p, WeightMark, 0).value;
    assert i <= k1;
    IndexFromFirst(p, WeightMark, i + m);
    assert i + m <= k2;
    assert IndexFrom(p, WeightMark, i + m).Some?;
  }

  /** Only the primary subtag counts, lower-cased: `ko-KR` is `ko`, `EN` is `en`. */
  lemma PrimarySubtag(primary: string, rest: string)
    requires NoDash(primary)
    ensures LangCode(primary + "-" + rest) == Lower(primary)
  {
    DashFreePrefix(primary, rest);
    SplitHead(primary, "-", rest);
  }

  lemma BareSubtag(primary: string)
    requires NoDash(primary)
    ensures LangCode(primary) == Lower(primary)
  {
    DashFreeAbsent(primary);
    SplitAbsent(primary, "-");
  }

  predicate NoDash(t: string) {
    forall j :: 0 <= j < |t| ==> t[j] != '-'
  }

  lemma DashFreePrefix(primary: string, rest: string)
    requires NoDash(primary)
    ensures forall j :: 0 <= j < |primary| ==> !ContainsAt(primary + "-" + rest, "-", j)
  {
    var s := primary + "-" + rest;
    forall j | 0 <= j < |primary|
      ensures !ContainsAt(s, "-", j)
    {
      assert s[j..j + 1] == [primary[j]];
    }
  }

  lemma DashFreeAbsent(t: string)
    requires NoDash(t)
    ensures !Contains(t, "-")
  {
    forall j | 0 <= j <= |t|
      ensures !ContainsAt(t, "-", j)
    {
      if j < |t| {
        assert t[j..j + 1] == [t[j]];
      }
    }
  }

  lemma RegionIgnored()
    ensures LangCode("ko-KR") == "ko"
  {
    PrimarySubtag("ko", "KR");
    assert "ko" + "-" + "KR" == "ko-KR";
    var r := Lower("ko");
    assert r[0] == 'k' && r[1] == 'o';
  }

  lemma CaseIgnored()
    ensures LangCode("EN") == "en"
  {
    BareSubtag("EN");
    var r := Lower("EN");
    assert r[0] == 'e' && r[1] == 'n';
  }

  /**
   * The entry that wins is the supported entry of greatest weight, and of
   * several with that weight the one listed first; with no supported entry
   * the default locale is chosen.
   */
  lemma NegotiatePicksBest(languages: seq<Language>, b: nat)
    requires b < |languages| && IsSupported(languages[b])
    requires forall j :: 0 <= j < |languages| && IsSupported(languages[j]) ==> languages[j].weight <= languages[b].weight
    requires forall j :: 0 <= j < b && IsSupported(languages[j]) ==> languages[j].weight < languages[b].weight
    ensures Negotiate(languages) == LangCode(languages[b].tag)
  {
    FirstMatchOfSorted(languages, Weight, IsSupported);
    var c := BestIndex(languages, Weight, IsSupported);
    assert c.Some?;
    var k := c.value;
    assert Weight(languages[b]) <= Weight(languages[k]);
    assert k == b;
  }

  lemma NothingSupportedDefault(languages: seq<Language>)
    requires forall j :: 0 <= j < |languages| ==> !IsSupported(languages[j])
    ensures Negotiate(languages) == DefaultLocale
  {
    FirstMatchOfSorted(languages, Weight, IsSupported);
  }

  // ---------------------------------------------------------------------------
  // The current locale

  /** The request's current locale (a context variable whose default is "en"). */
  class LocaleContext {
    var current: string

    ghost predicate Valid()
      reads this
    {
      current in SupportedLocales
    }

    constructor ()
      ensures current == DefaultLocale && Valid()
    {
      current := DefaultLocale;
    }

    /** `set_locale`: a supported locale is stored, anything else falls back to the default. */
    method SetLocale(locale: string)
      requires Valid()
      modifies this
      ensures current == (if locale in SupportedLocales then locale else DefaultLocale)
      ensures Valid()
    {
      if locale in SupportedLocales {
        current := locale;
      } else {
        current := DefaultLocale;
      }
    }

    /** `get_locale`: what was stored last. */
    method GetLocale() returns (r: string)
      requires Valid()
      ensures r == current && r in SupportedLocales
    {
      r := current;
    }
  }
}
