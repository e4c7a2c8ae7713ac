/**
 * Request and response records of the translation API and the constraints
 * their validators enforce. A record is built through a function that either
 * returns the record or the list of fields whose constraint failed, as a
 * validation error reports them.
 */
module Schemas {
  import opened Wrappers
  import opened Text

  /** The fields whose constraints failed, in declaration order. */
  datatype ValidationError = ValidationError(fields: seq<string>)

  const MinAudioTextLength: nat := 1
  const MaxAudioTextLength: nat := 1000

  /**
   * `VoiceInput.audio_text`: the length bounds are checked on the raw value
   * first; then the validator rejects text that is blank once stripped and
   * otherwise stores it stripped.
   */
  function ValidateAudioText(v: string): (r: Result<string, ValidationError>)
    ensures r.Ok? <==>
      && MinAudioTextLength <= |v| <= MaxAudioTextLength
      && exists i :: 0 <= i < |v| && !IsSpace(v[i])
    ensures r.Err? ==> r.error == ValidationError(["audio_text"])
    ensures r.Ok? ==> r.value == Strip(v)
    ensures r.Ok? ==> r.value != [] && !IsSpace(r.value[0]) && !IsSpace(r.value[|r.value| - 1])
    ensures r.Ok? ==> |r.value| <= MaxAudioTextLength
  {
    if |v| < MinAudioTextLength || |v| > MaxAudioTextLength then Err(ValidationError(["audio_text"]))
    else if Strip(v) == [] then Err(ValidationError(["audio_text"]))
    else Ok(Strip(v))
  }

  /** Validating an accepted value again accepts it unchanged. */
  lemma ValidateAudioTextIdempotent(v: string)
    requires ValidateAudioText(v).Ok?
    ensures ValidateAudioText(ValidateAudioText(v).value) == ValidateAudioText(v)
  {
    StripByIdempotent(v, IsSpace);
  }

  datatype IslOutput = IslOutput(
    sourceText: string,
    islGloss: string,
    avatarStreamUrl: string,
    confidence: real,
    processingTimeMs: real)

  /** `ISLOutput`: confidence in [0, 1], processing time not negative. */
  function MakeIslOutput(sourceText: string, islGloss: string, avatarStreamUrl: string,
                         confidence: real, processingTimeMs: real): (r: Result<IslOutput, ValidationError>)
    ensures r.Ok? <==> 0.0 <= confidence <= 1.0 && processingTimeMs >= 0.0
    ensures r.Ok? ==> r.value == IslOutput(sourceText, islGloss, avatarStreamUrl, confidence, processingTimeMs)
    ensures r.Err? ==> |r.error.fields| <= 2
    ensures r.Err? ==> ("confidence" in r.error.fields <==> !(0.0 <= confidence <= 1.0))
    ensures r.Err? ==> ("processing_time_ms" in r.error.fields <==> processingTimeMs < 0.0)
  {
    var bad :=
      (if 0.0 <= confidence <= 1.0 then [] else ["confidence"]) +
      (if processingTimeMs >= 0.0 then [] else ["processing_time_ms"]);
    if bad == [] then Ok(IslOutput(sourceText, islGloss, avatarStreamUrl, confidence, processingTimeMs))
    else Err(ValidationError(bad))
  }

  datatype HealthCheck = HealthCheck(
    status: string,
    uptimeSeconds: int,
    serviceStatus: string,
    translationsProcessed: int)

  /** `HealthCheck`: uptime and the translation count must not be negative. */
  function MakeHealthCheck(status: string, uptimeSeconds: int, serviceStatus: string,
                           translationsProcessed: int): (r: Result<HealthCheck, ValidationError>)
    ensures r.Ok? <==> uptimeSeconds >= 0 && translationsProcessed >= 0
    ensures r.Ok? ==> r.value == HealthCheck(status, uptimeSeconds, serviceStatus, translationsProcessed)
    ensures r.Err? ==> ("uptime_seconds" in r.error.fields <==> uptimeSeconds < 0)
    ensures r.Err? ==> ("translations_processed" in r.error.fields <==> translationsProcessed < 0)
  {
    var bad :=
      (if uptimeSeconds >= 0 then [] else ["uptime_seconds"]) +
      (if translationsProcessed >= 0 then [] else ["translations_processed"]);
    if bad == [] then Ok(HealthCheck(status, uptimeSeconds, serviceStatus, translationsProcessed))
    else Err(ValidationError(bad))
  }

  const DefaultVideoFormat: string := "webm"
  const DefaultFrameRate: int := 30
  const MinFrameRate: int := 15
  const MaxFrameRate: int := 60

  datatype IslInput = IslInput(videoData: string, format: string, frameRate: int)

  /** `ISLInput`: `format` defaults to "webm", `frame_rate` to 30 and must lie in [15, 60]. */
  function MakeIslInput(videoData: string, format: Option<string>, frameRate: Option<int>): (r: Result<IslInput, ValidationError>)
    ensures r.Ok? <==> (frameRate.Some? ==> MinFrameRate <= frameRate.value <= MaxFrameRate)
    ensures r.Ok? ==> r.value.videoData == videoData
    ensures r.Ok? ==> r.value.format == (if format.Some? then format.value else "webm")
    ensures r.Ok? ==> r.value.frameRate == (if frameRate.Some? then frameRate.value else 30)
    ensures r.Ok? ==> MinFrameRate <= r.value.frameRate <= MaxFrameRate
    ensures r.Err? ==> r.error == ValidationError(["frame_rate"])
  {
    var f := match format case Some(s) => s case None => DefaultVideoFormat;
    var rate := match frameRate case Some(n) => n case None => DefaultFrameRate;
    if frameRate.Some? && !(MinFrameRate <= rate <= MaxFrameRate) then Err(ValidationError(["frame_rate"]))
    else Ok(IslInput(videoData, f, rate))
  }
}
