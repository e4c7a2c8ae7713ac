/**
 * The voice-to-ISL translation pipeline: the mock speech recogniser, the
 * rule-based text-to-gloss translator, the confidence rule and the
 * translation endpoint, which updates the application state and caches the
 * generated animation for streaming.
 */
module Pipeline {
  import opened Wrappers
  import opened Text
  import opened Schemas
  import opened Avatar
  import opened Streams

  // ---------------------------------------------------------------------
  // Speech recognition
  // ---------------------------------------------------------------------

  /** `mock_asr_service`: the transcription is the input without surrounding whitespace. */
  function MockAsr(audioText: string): (r: string)
    ensures var lead := LeadCount(audioText, IsSpace);
      && lead + |r| <= |audioText| && r == audioText[lead..lead + |r|]
      && (forall i :: 0 <= i < lead ==> IsSpace(audioText[i]))
      && (forall i :: lead + |r| <= i < |audioText| ==> IsSpace(audioText[i]))
    ensures r != [] ==> !IsSpace(r[0]) && !IsSpace(r[|r| - 1])
    ensures r == [] <==> forall i :: 0 <= i < |audioText| ==> IsSpace(audioText[i])
  {
    Strip(audioText)
  }

  /** Transcribing a transcription changes nothing. */
  lemma MockAsrIdempotent(audioText: string)
    ensures MockAsr(MockAsr(audioText)) == MockAsr(audioText)
  {
    StripByIdempotent(audioText, IsSpace);
  }

  // ---------------------------------------------------------------------
  // Text to gloss
  // ---------------------------------------------------------------------

  /** `gloss_mapping`, in its insertion order, which the partial-match loop follows. */
  const GlossMapping: seq<(string, string)> := [
    ("hello", "HELLO"),
    ("hi", "HELLO"),
    ("how are you", "HOW YOU"),
    ("how are you?", "HOW YOU?"),
    ("good morning", "MORNING GOOD"),
    ("good evening", "EVENING GOOD"),
    ("thank you", "THANK-YOU"),
    ("please", "PLEASE"),
    ("sorry", "SORRY"),
    ("yes", "YES"),
    ("no", "NO"),
    ("my name is", "MY NAME"),
    ("nice to meet you", "NICE MEET YOU"),
    ("see you later", "SEE-YOU LATER"),
    ("goodbye", "GOODBYE"),
    ("help", "HELP"),
    ("water", "WATER"),
    ("food", "FOOD"),
    ("hospital", "HOSPITAL"),
    ("doctor", "DOCTOR"),
    ("school", "SCHOOL"),
    ("work", "WORK"),
    ("home", "HOME"),
    ("family", "FAMILY")
  ]

  /**
   * What the translator needs of its dictionary: no empty phrase (each is
   * a `replace` pattern) and only upper-case glosses.
   */
  predicate WellFormedMapping(glossMapping: seq<(string, string)>) {
    && (forall i :: 0 <= i < |glossMapping| ==> glossMapping[i].0 != [])
    && (forall i :: 0 <= i < |glossMapping| ==> NoLower(glossMapping[i].1))
  }

  lemma GlossMappingPhrasesNonEmpty()
    ensures forall i :: 0 <= i < |GlossMapping| ==> GlossMapping[i].0 != []
  {
  }

  lemma GlossMappingGlossesUpper()
    ensures forall i :: 0 <= i < |GlossMapping| ==> NoLower(GlossMapping[i].1)
  {
  }

  lemma GlossMappingWellFormed()
    ensures WellFormedMapping(GlossMapping)
  {
    GlossMappingPhrasesNonEmpty();
    GlossMappingGlossesUpper();
  }

  /** No phrase occurs twice in the dictionary. */
  lemma GlossMappingPhrasesDistinct()
    ensures forall i, j :: 0 <= i < j < |GlossMapping| ==> GlossMapping[i].0 != GlossMapping[j].0
  {
  }

  /** Dictionary lookup: the gloss of the first entry whose phrase is `key`. */
  function Lookup(glossMapping: seq<(string, string)>, key: string): (r: Option<string>)
    ensures r.None? <==> forall i :: 0 <= i < |glossMapping| ==> glossMapping[i].0 != key
    ensures r.Some? ==> exists i :: 0 <= i < |glossMapping| && glossMapping[i] == (key, r.value)
  {
    if glossMapping == [] then None
    else if glossMapping[0].0 == key then Some(glossMapping[0].1)
    else Lookup(glossMapping[1..], key)
  }

  /** With distinct phrases, looking up an entry's phrase yields that entry's gloss. */
  lemma {:induction false} LookupDistinct(glossMapping: seq<(string, string)>, i: nat)
    requires i < |glossMapping|
    requires forall a, b :: 0 <= a < b < |glossMapping| ==> glossMapping[a].0 != glossMapping[b].0
    ensures Lookup(glossMapping, glossMapping[i].0) == Some(glossMapping[i].1)
  {
    if i > 0 {
      assert glossMapping[0].0 != glossMapping[i].0;
      assert glossMapping[1..][i - 1] == glossMapping[i];
      LookupDistinct(glossMapping[1..], i - 1);
    }
  }

  /**
   * One step of the partial-match loop: replace every occurrence of the
   * phrase, if it occurs. The `in` test changes nothing, since replacing an
   * absent phrase leaves the text as it is.
   */
  function ReplaceStep(text: string, entry: (string, string)): (r: string)
    requires entry.0 != []
    ensures r == ReplaceAll(text, entry.0, entry.1)
  {
    if Contains(text, entry.0) then ReplaceAll(text, entry.0, entry.1)
    else
      ReplaceAllAbsent(text, entry.0, entry.1);
      text
  }

  /**
   * The partial-match loop: each phrase's replacement applied in dictionary
   * order. A text in which no phrase occurs comes out unchanged.
   */
  function PartialReplace(text: string, glossMapping: seq<(string, string)>): (r: string)
    requires WellFormedMapping(glossMapping)
    ensures (forall i :: 0 <= i < |glossMapping| ==> !Contains(text, glossMapping[i].0)) ==> r == text
    decreases |glossMapping|
  {
    if glossMapping == [] then text
    else
      var next := ReplaceStep(text, glossMapping[0]);
      assert (forall i :: 0 <= i < |glossMapping| ==> !Contains(text, glossMapping[i].0)) ==>
        next == text && forall i :: 0 <= i < |glossMapping[1..]| ==> !Contains(next, glossMapping[1..][i].0) by {
        if forall i :: 0 <= i < |glossMapping| ==> !Contains(text, glossMapping[i].0) {
          assert !Contains(text, glossMapping[0].0);
          forall i | 0 <= i < |glossMapping[1..]| ensures !Contains(next, glossMapping[1..][i].0) {
            assert glossMapping[1..][i] == glossMapping[i + 1];
          }
        }
      }
      PartialReplace(next, glossMapping[1..])
  }

  predicate IsPunctuation(c: char) {
    c == '.' || c == ',' || c == '!' || c == '?' || c == ';' || c == ':'
  }

  /** `word.strip(".,!?;:")`: the word without leading and trailing punctuation. */
  function CleanWord(word: string): (r: string)
    ensures var lead := LeadCount(word, IsPunctuation);
      && lead + |r| <= |word| && r == word[lead..lead + |r|]
      && (forall i :: 0 <= i < lead ==> IsPunctuation(word[i]))
      && (forall i :: lead + |r| <= i < |word| ==> IsPunctuation(word[i]))
    ensures r != [] ==> !IsPunctuation(r[0]) && !IsPunctuation(r[|r| - 1])
  {
    StripBy(word, IsPunctuation)
  }

  /** The gloss of one token: its dictionary entry once punctuation is stripped, else its upper case. */
  function GlossWord(glossMapping: seq<(string, string)>, word: string): (r: string)
    ensures || (r == Upper(CleanWord(word)) &&
                forall j :: 0 <= j < |glossMapping| ==> glossMapping[j].0 != CleanWord(word))
            || exists j :: 0 <= j < |glossMapping| && glossMapping[j] == (CleanWord(word), r)
  {
    match Lookup(glossMapping, CleanWord(word))
    case Some(gloss) => gloss
    case None => Upper(CleanWord(word))
  }

  /** One gloss word per whitespace token, in order. */
  function GlossWords(glossMapping: seq<(string, string)>, tokens: seq<string>): (r: seq<string>)
    ensures |r| == |tokens|
  {
    seq(|tokens|, i requires 0 <= i < |tokens| => GlossWord(glossMapping, tokens[i]))
  }

  /**
   * Each gloss word is upper case: the gloss of the stripped token when the
   * dictionary has it, else the stripped token upper-cased.
   */
  lemma GlossWordsUpper(glossMapping: seq<(string, string)>, tokens: seq<string>)
    requires WellFormedMapping(glossMapping)
    ensures forall i :: 0 <= i < |tokens| ==> NoLower(GlossWords(glossMapping, tokens)[i])
  {
    forall i | 0 <= i < |tokens| ensures NoLower(GlossWords(glossMapping, tokens)[i]) {
      var entry := Lookup(glossMapping, CleanWord(tokens[i]));
      if entry.Some? {
        var j :| 0 <= j < |glossMapping| && glossMapping[j] == (CleanWord(tokens[i]), entry.value);
        assert NoLower(glossMapping[j].1);
      }
    }
  }

  /**
   * The final clean-up: " ARE ", " IS " and " THE " each become one space.
   * It never lengthens the gloss and never brings in a lower-case letter.
   */
  function Cleanup(s: string): (r: string)
    ensures |r| <= |s|
    ensures NoLower(s) ==> NoLower(r)
  {
    var s1 := ReplaceAll(s, " ARE ", " ");
    var s2 := ReplaceAll(s1, " IS ", " ");
    assert NoLower(s) ==> NoLower(ReplaceAll(s2, " THE ", " ")) by {
      if NoLower(s) {
        ReplaceAllNoLower(s, " ARE ", " ");
        ReplaceAllNoLower(s1, " IS ", " ");
        ReplaceAllNoLower(s2, " THE ", " ");
      }
    }
    ReplaceAll(s2, " THE ", " ")
  }

  /**
   * The lower-cased, stripped text the translator matches against the
   * dictionary: no upper-case letter, no surrounding whitespace.
   */
  function Normalize(textTokens: string): (r: string)
    ensures forall i :: 0 <= i < |r| ==> !IsUpperAscii(r[i])
    ensures r != [] ==> !IsSpace(r[0]) && !IsSpace(r[|r| - 1])
  {
    Strip(Lower(textTokens))
  }

  /** The whitespace tokens of the text once every dictionary phrase has been replaced. */
  function ReplacedTokens(glossMapping: seq<(string, string)>, textTokens: string): (tokens: seq<string>)
    requires WellFormedMapping(glossMapping)
    ensures forall i :: 0 <= i < |tokens| ==> IsWord(tokens[i])
  {
    Split(PartialReplace(Normalize(textTokens), glossMapping))
  }

  /**
   * What `text_to_isl_gloss` computes with the dictionary `glossMapping`.
   * The translation never contains a lower-case ASCII letter.
   */
  function TextToGloss(glossMapping: seq<(string, string)>, textTokens: string): (r: string)
    requires WellFormedMapping(glossMapping)
    ensures NoLower(r)
  {
    match Lookup(glossMapping, Normalize(textTokens))
    case Some(gloss) => gloss
    case None =>
      var glossWords := GlossWords(glossMapping, ReplacedTokens(glossMapping, textTokens));
      assert glossWords != [] ==> NoLower(Join(glossWords, " ")) by {
        if glossWords != [] {
          GlossWordsUpper(glossMapping, ReplacedTokens(glossMapping, textTokens));
          JoinNoLower(glossWords, " ");
        }
      }
      Cleanup(if glossWords != [] then Join(glossWords, " ") else Upper(textTokens))
  }

  /** The partial-match loop of `text_to_isl_gloss`. */
  method ReplacePhrases(glossMapping: seq<(string, string)>, text: string) returns (textLower: string)
    requires WellFormedMapping(glossMapping)
    ensures textLower == PartialReplace(text, glossMapping)
  {
    textLower := text;
    for i := 0 to |glossMapping|
      invariant PartialReplace(textLower, glossMapping[i..]) == PartialReplace(text, glossMapping)
    {
      var (phrase, gloss) := glossMapping[i];
      assert glossMapping[i..][1..] == glossMapping[i + 1..];
      if Contains(textLower, phrase) {
        textLower := ReplaceAll(textLower, phrase, gloss);
      }
    }
    assert glossMapping[|glossMapping|..] == [];
  }

  /** The word-by-word loop of `text_to_isl_gloss`. */
  method TranslateWords(glossMapping: seq<(string, string)>, words: seq<string>) returns (glossWords: seq<string>)
    requires WellFormedMapping(glossMapping)
    ensures glossWords == GlossWords(glossMapping, words)
  {
    glossWords := [];
    for i := 0 to |words|
      invariant glossWords == GlossWords(glossMapping, words[..i])
    {
      var cleanWord := CleanWord(words[i]);
      var glossWord;
      match Lookup(glossMapping, cleanWord) {
        case Some(gloss) => glossWord := gloss;
        case None => glossWord := Upper(cleanWord);
      }
      GlossWordsSnoc(glossMapping, words, i);
      glossWords := glossWords + [glossWord];
    }
    assert words[..|words|] == words;
  }

  lemma GlossWordsSnoc(glossMapping: seq<(string, string)>, words: seq<string>, i: nat)
    requires i < |words|
    ensures GlossWords(glossMapping, words[..i + 1]) == GlossWords(glossMapping, words[..i]) + [GlossWord(glossMapping, words[i])]
  {
    assert words[..i + 1][i] == words[i];
  }

  /** `text_to_isl_gloss`: exact match, then the partial-match loop, then the per-token loop and clean-up. */
  method TextToIslGloss(glossMapping: seq<(string, string)>, textTokens: string) returns (resultGloss: string)
    requires WellFormedMapping(glossMapping)
    ensures resultGloss == TextToGloss(glossMapping, textTokens)
  {
    var textLower := Strip(Lower(textTokens));
    var exact := Lookup(glossMapping, textLower);
    if exact.Some? {
      return exact.value;
    }
    textLower := ReplacePhrases(glossMapping, textLower);
    var words := Split(textLower);
    var glossWords := TranslateWords(glossMapping, words);
    resultGloss := if glossWords != [] then Join(glossWords, " ") else Upper(textTokens);
    resultGloss := ReplaceAll(resultGloss, " ARE ", " ");
    resultGloss := ReplaceAll(resultGloss, " IS ", " ");
    resultGloss := ReplaceAll(resultGloss, " THE ", " ");
  }

  /**
   * An input that is a dictionary phrase, up to case and surrounding
   * whitespace, translates to exactly that phrase's gloss.
   */
  lemma ExactMatch(textTokens: string, i: nat)
    requires i < |GlossMapping| && Normalize(textTokens) == GlossMapping[i].0
    ensures WellFormedMapping(GlossMapping) && TextToGloss(GlossMapping, textTokens) == GlossMapping[i].1
  {
    GlossMappingWellFormed();
    GlossMappingPhrasesDistinct();
    LookupDistinct(GlossMapping, i);
  }

  /**
   * Off the exact-match path, before clean-up, the translation is the
   * single-space join of one gloss word per whitespace token of the replaced
   * text, in order: the dictionary gloss of the token with its punctuation
   * stripped, or else that stripped token upper-cased.
   */
  lemma TextToGlossWords(glossMapping: seq<(string, string)>, textTokens: string)
    requires WellFormedMapping(glossMapping)
    requires Lookup(glossMapping, Normalize(textTokens)).None?
    ensures var tokens := ReplacedTokens(glossMapping, textTokens);
      var glossWords := GlossWords(glossMapping, tokens);
      && TextToGloss(glossMapping, textTokens) ==
        Cleanup(if tokens != [] then Join(glossWords, " ") else Upper(textTokens))
      && |glossWords| == |tokens|
      && forall i :: 0 <= i < |tokens| ==>
           || (glossWords[i] == Upper(CleanWord(tokens[i])) &&
               forall j :: 0 <= j < |glossMapping| ==> glossMapping[j].0 != CleanWord(tokens[i]))
           || exists j :: 0 <= j < |glossMapping| && glossMapping[j] == (CleanWord(tokens[i]), glossWords[i])
  {
    var tokens := ReplacedTokens(glossMapping, textTokens);
    var glossWords := GlossWords(glossMapping, tokens);
    forall i | 0 <= i < |tokens|
      ensures || (glossWords[i] == Upper(CleanWord(tokens[i])) &&
                  forall j :: 0 <= j < |glossMapping| ==> glossMapping[j].0 != CleanWord(tokens[i]))
              || exists j :: 0 <= j < |glossMapping| && glossMapping[j] == (CleanWord(tokens[i]), glossWords[i])
    {
      assert glossWords[i] == GlossWord(glossMapping, tokens[i]);
    }
  }

  /** A stop word between two words is dropped, leaving one space between them. */
  lemma CleanupDropsStopWord(u: string, w: string, v: string)
    requires ' ' !in u && ' ' !in v
    requires w == "ARE" || w == "IS" || w == "THE"
    ensures Cleanup(u + " " + w + " " + v) == u + " " + v
  {
    var s := u + " " + w + " " + v;
    assert " ARE " == " " + "ARE" + " " && " IS " == " " + "IS" + " " && " THE " == " " + "THE" + " ";
    ReplaceAllWordStep(u, w, v, "ARE", " ");
    var s1 := ReplaceAll(s, " ARE ", " ");
    if w == "ARE" {
      assert s1 == u + " " + v;
      ReplaceAllOneSpace(u, v, "IS", " ");
      ReplaceAllOneSpace(u, v, "THE", " ");
    } else {
      assert s1 == s;
      ReplaceAllWordStep(u, w, v, "IS", " ");
      var s2 := ReplaceAll(s1, " IS ", " ");
      if w == "IS" {
        assert s2 == u + " " + v;
        ReplaceAllOneSpace(u, v, "THE", " ");
      } else {
        assert s2 == s;
        ReplaceAllWordStep(u, w, v, "THE", " ");
      }
    }
  }

  /**
   * A space-free first word (such as a leading ARE, IS or THE) passes the
   * clean-up untouched, since every pattern starts with a space.
   */
  lemma CleanupKeepsFirstWord(u: string, v: string)
    requires forall i :: 0 <= i < |u| ==> u[i] != ' '
    ensures Cleanup(u + v) == u + Cleanup(v)
  {
    ReplaceAllKeepsPrefix(u, v, " ARE ", " ");
    var v1 := ReplaceAll(v, " ARE ", " ");
    ReplaceAllKeepsPrefix(u, v1, " IS ", " ");
    var v2 := ReplaceAll(v1, " IS ", " ");
    ReplaceAllKeepsPrefix(u, v2, " THE ", " ");
  }

  /** Likewise a space-free last word, since every pattern ends with a space. */
  lemma CleanupKeepsLastWord(v: string, u: string)
    requires forall i :: 0 <= i < |u| ==> u[i] != ' '
    ensures Cleanup(v + u) == Cleanup(v) + u
  {
    ReplaceAllKeepsSuffix(v, u, " ARE ", " ");
    var v1 := ReplaceAll(v, " ARE ", " ");
    ReplaceAllKeepsSuffix(v1, u, " IS ", " ");
    var v2 := ReplaceAll(v1, " IS ", " ");
    ReplaceAllKeepsSuffix(v2, u, " THE ", " ");
  }

  // ---------------------------------------------------------------------
  // Confidence
  // ---------------------------------------------------------------------

  const BaseConfidence: real := 0.92

  function MinReal(a: real, b: real): real { if a <= b then a else b }
  function MaxReal(a: real, b: real): real { if a >= b then a else b }

  /** The confidence reported for a generated animation, or for the fallback stream. */
  function Confidence(fallback: bool): (c: real)
    ensures !fallback ==> c == 0.97
    ensures fallback ==> c == 0.77
    ensures 0.0 <= c <= 1.0
  {
    if !fallback then MinReal(0.98, BaseConfidence + 0.05) else MaxReal(0.75, BaseConfidence - 0.15)
  }

  // ---------------------------------------------------------------------
  // The translation endpoint
  // ---------------------------------------------------------------------

  /** An HTTP error response: status code and detail. */
  datatype HttpError = HttpError(statusCode: nat, detail: string)

  /** An exception raised inside the pipeline's `try` block before the counter is incremented. */
  datatype Fault = NoFault | ValueFault | OtherFault

  const Operational: string := "operational"
  const Degraded: string := "degraded"

  /** The request-validation status the web framework answers before the handler runs. */
  const UnprocessableEntity: nat := 422
  const BadRequest: nat := 400
  const InternalServerError: nat := 500

  /**
   * The response built at the end of the pipeline: the `ISLOutput` when its
   * own validation passes, otherwise the `ValueError` it raises, answered 400.
   */
  function OutputResponse(sourceText: string, islGloss: string, avatarStreamUrl: string,
                          confidence: real, processingTimeMs: real): (r: Result<IslOutput, HttpError>)
    ensures r.Ok? <==> 0.0 <= confidence <= 1.0 && processingTimeMs >= 0.0
    ensures r.Ok? ==> r.value == IslOutput(sourceText, islGloss, avatarStreamUrl, confidence, processingTimeMs)
    ensures r.Err? ==> r.error.statusCode == BadRequest
  {
    match MakeIslOutput(sourceText, islGloss, avatarStreamUrl, confidence, processingTimeMs)
    case Ok(output) => Ok(output)
    case Err(_) => Err(HttpError(BadRequest, "Input validation failed"))
  }

  /** `app_state` together with the stream registry the endpoint caches into. */
  class App {
    var translationCount: nat
    var serviceStatus: string
    const streams: StreamManager
    const mapper: GlossMapper
    const glossMapping: seq<(string, string)>

    ghost predicate Valid()
      reads streams
    {
      streams.Valid() && ValidMapper(mapper) && WellFormedMapping(glossMapping)
    }

    constructor (streams: StreamManager)
      requires streams.Valid()
      ensures Valid()
      ensures translationCount == 0 && serviceStatus == Operational
      ensures this.streams == streams && mapper == NewGlossMapper() && glossMapping == GlossMapping
    {
      translationCount := 0;
      serviceStatus := Operational;
      this.streams := streams;
      mapper := NewGlossMapper();
      glossMapping := GlossMapping;
      GlossMappingWellFormed();
    }

    /**
     * The animation the endpoint caches for stream `id`: the summary generated
     * from `islGloss` at `now`, every field the metadata message reports
     * included.
     */
    ghost predicate CachedAnimation(id: string, islGloss: string, now: real)
      reads streams
    {
      && id in streams.animationCache
      && streams.animationCache[id].cachedAt == now
      && IsAnimationOf(mapper, islGloss, now, streams.animationCache[id].data)
    }

    /**
     * `gloss_to_avatar_stream` followed by the caching step: a generated
     * animation is cached under the last `/` segment of its URL, which is
     * its stream id; a fallback result is not cached.
     */
    method GlossToAvatarStream(islGloss: string, fallback: bool, hash: string, now: real) returns (avatarStreamUrl: string)
      requires Valid() && IsStreamHash(hash)
      modifies streams
      ensures Valid()
      ensures streams.activeConnections == old(streams.activeConnections)
      ensures streams.connectionMetadata == old(streams.connectionMetadata)
      ensures !fallback ==>
        && avatarStreamUrl == GenerateStreamUrl(hash, now)
        && CachedAnimation(StreamId(hash, now), islGloss, now)
        && streams.animationCache ==
             old(streams.animationCache)[StreamId(hash, now) := streams.animationCache[StreamId(hash, now)]]
      ensures fallback ==> avatarStreamUrl == FallbackUrl(now) && streams.animationCache == old(streams.animationCache)
    {
      if !fallback {
        var animationData := GenerateAnimationSequence(mapper, islGloss, now);
        assert IsAnimationOf(mapper, islGloss, now, animationData);
        avatarStreamUrl := GenerateStreamUrl(hash, animationData.timestamp);
        var streamId := LastSegment(avatarStreamUrl, '/');
        streams.StoreAnimationData(streamId, animationData, now);
      } else {
        avatarStreamUrl := FallbackUrl(now);
      }
    }

    /** One more translation processed. */
    method CountTranslation()
      modifies this
      ensures translationCount == old(translationCount) + 1 && serviceStatus == old(serviceStatus)
    {
      translationCount := translationCount + 1;
    }

    /**
     * The body of the `try` block of `translate_voice_to_isl` when nothing
     * raises: transcribe, translate, generate and cache the animation, count
     * the translation, then build the response, whose own validation can
     * still fail with 400.
     */
    method RunPipeline(audioText: string, fallback: bool, hash: string, now: real, processingTimeMs: real)
      returns (response: Result<IslOutput, HttpError>)
      requires Valid() && IsStreamHash(hash)
      modifies this, streams
      ensures Valid()
      ensures streams.activeConnections == old(streams.activeConnections)
      ensures streams.connectionMetadata == old(streams.connectionMetadata)
      ensures translationCount == old(translationCount) + 1 && serviceStatus == old(serviceStatus)
      ensures response.Ok? <==> processingTimeMs >= 0.0
      ensures response.Err? ==> response.error.statusCode == BadRequest
      ensures response.Ok? ==>
        response.value == IslOutput(MockAsr(audioText), TextToGloss(glossMapping, MockAsr(audioText)),
                                    if fallback then FallbackUrl(now) else GenerateStreamUrl(hash, now),
                                    Confidence(fallback), processingTimeMs)
      ensures !fallback ==>
        && CachedAnimation(StreamId(hash, now), TextToGloss(glossMapping, MockAsr(audioText)), now)
        && streams.animationCache ==
             old(streams.animationCache)[StreamId(hash, now) := streams.animationCache[StreamId(hash, now)]]
      ensures fallback ==> streams.animationCache == old(streams.animationCache)
    {
      var transcribedText := MockAsr(audioText);
      var islGloss := TextToIslGloss(glossMapping, transcribedText);
      var avatarStreamUrl := GlossToAvatarStream(islGloss, fallback, hash, now);
      CountTranslation();
      var confidenceScore := Confidence(fallback);
      response := OutputResponse(transcribedText, islGloss, avatarStreamUrl, confidenceScore, processingTimeMs);
    }

    /**
     * `translate_voice_to_isl` for the raw request text `audioText`:
     * a request the validator rejects never reaches the handler; a
     * `ValueError` inside the pipeline answers 400 and any other exception
     * 500 with the service marked degraded. `fault` is the exception raised
     * inside the pipeline, if any, `fallback` says whether animation
     * generation failed, `hash` is the MD5 digest prefix of the stream URL,
     * `now` the clock and `processingTimeMs` the measured processing time.
     */
    method TranslateVoiceToIsl(audioText: string, fault: Fault, fallback: bool, hash: string, now: real,
                               processingTimeMs: real)
      returns (response: Result<IslOutput, HttpError>)
      requires Valid() && IsStreamHash(hash)
      modifies this, streams
      ensures Valid()
      ensures streams.activeConnections == old(streams.activeConnections)
      ensures streams.connectionMetadata == old(streams.connectionMetadata)
      ensures ValidateAudioText(audioText).Err? ==>
        && response == Err(HttpError(UnprocessableEntity, "audio_text"))
        && translationCount == old(translationCount) && serviceStatus == old(serviceStatus)
        && streams.animationCache == old(streams.animationCache)
      ensures ValidateAudioText(audioText).Ok? && fault == ValueFault ==>
        && response.Err? && response.error.statusCode == BadRequest
        && translationCount == old(translationCount) && serviceStatus == old(serviceStatus)
        && streams.animationCache == old(streams.animationCache)
      ensures ValidateAudioText(audioText).Ok? && fault == OtherFault ==>
        && response.Err? && response.error.statusCode == InternalServerError
        && translationCount == old(translationCount) && serviceStatus == Degraded
        && streams.animationCache == old(streams.animationCache)
      ensures ValidateAudioText(audioText).Ok? && fault == NoFault ==>
        && translationCount == old(translationCount) + 1 && serviceStatus == old(serviceStatus)
        && (response.Ok? <==> processingTimeMs >= 0.0)
        && (response.Err? ==> response.error.statusCode == BadRequest)
        && (response.Ok? ==>
              response.value == IslOutput(Strip(audioText), TextToGloss(glossMapping, Strip(audioText)),
                                          if fallback then FallbackUrl(now) else GenerateStreamUrl(hash, now),
                                          Confidence(fallback), processingTimeMs))
        && (!fallback ==>
              && CachedAnimation(StreamId(hash, now), TextToGloss(glossMapping, Strip(audioText)), now)
              && streams.animationCache ==
                   old(streams.animationCache)[StreamId(hash, now) := streams.animationCache[StreamId(hash, now)]])
        && (fallback ==> streams.animationCache == old(streams.animationCache))
    {
      var voiceInput := ValidateAudioText(audioText);
      if voiceInput.Err? {
        return Err(HttpError(UnprocessableEntity, "audio_text"));
      }
      match fault {
        case ValueFault =>
          return Err(HttpError(BadRequest, "Input validation failed"));
        case OtherFault =>
          serviceStatus := Degraded;
          return Err(HttpError(InternalServerError, "Translation service error"));
        case NoFault =>
      }
      MockAsrIdempotent(audioText);
      response := RunPipeline(voiceInput.value, fallback, hash, now, processingTimeMs);
    }
  }
}
