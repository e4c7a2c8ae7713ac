# Voice-to-ISL translation backend, modelled in Dafny

This project models the deterministic core of the Voice-to-ISL (Indian Sign
Language) translation backend and proves properties of it. It covers four
parts:

- **The avatar animation engine** (`avatar_engine.dfy`, module `Avatar`).
  - The `ISLGlossMapper` has two tables: the pose library and the transition
    rules. `get_pose` and `get_transition_duration` look up these tables and
    fall back to a default when a word is missing.
  - The gloss tokenizer.
  - The keyframe timeline builder, `_generate_keyframe_sequence`. It is
    written as a `method` with its loops and proved equal to the
    specification function `KeyframeSequence`.
  - The frame list of `_generate_video_frames`.
  - The summary fields of `generate_animation_sequence`.
  - The shape of the stream URL.
- **The translation endpoint** (`pipeline.dfy`, module `Pipeline`).
  - The mock speech recognizer.
  - The rule-based text-to-gloss translator, `text_to_isl_gloss`. Its
    replacement loop and word loop are methods proved against `TextToGloss`.
  - The confidence rule and the stream-id extraction.
  - The `app_state` counter and status updates of `translate_voice_to_isl`,
    in class `App`.
- **The WebSocket stream registry** (`websocket_handler.dfy`, module
  `Streams`).
  - Class `StreamManager` holds the three maps the source updates in place:
    `active_connections`, `animation_cache` and `connection_metadata`.
  - Each operation is a method with a `modifies` clause. For the table
    operations (`connect`, `disconnect`, `store_animation_data`,
    `send_animation_frame`, the cache cleanup) the `ensures` clauses give the
    whole new state. For the sending operations and the receive loop they
    give the new state of the stream concerned, through `Delivers`, and say
    that every other stream's entries are unchanged.
  - The playback order of `stream_animation` and the message dispatch of
    `handle_avatar_websocket` are stated through two definitions:
    - the specification function `PlaybackPlan`;
    - the delivery predicate `Delivers`, which says what sending a sequence
      of messages over a socket that may break does to the connection
      tables.
- **The request and response schemas** (`schemas.dfy`, module `Schemas`).
  - The `VoiceInput` validator.
  - The field constraints of `ISLOutput`, `HealthCheck` and `ISLInput`, as
    constructors that return a `Result`.

Two support modules complete the project:

- `text.dfy` (module `Text`) gives the Python string operations the source
  uses: `strip`, `split`, `join`, `upper`, `lower`, `replace` and
  `split('/')[-1]`.
- `wrappers.dfy` gives `Option` and `Result`.

Durations and timestamps are exact `real`s. Every duration, timestamp and
transition in the tables is a multiple of 0.1 s, but floating-point rounding
is not modelled (see "## Left out").

The socket is modelled as a send budget: `budget` is the number of sends
that succeed before the connection breaks. The clock is the parameter `now`.

Where this description and the code disagree, the model follows the code:

- **Status code for an empty request.** The endpoint's docstring
  (backend/main.py:234) says invalid input is answered with 400. In
  the code, the `VoiceInput` validator runs inside the web framework before
  the handler, so the request fails request validation and gets the
  framework's 422. `TranslateVoiceToIsl` returns 422 for it. A `ValueError`
  raised inside the handler still maps to 400.
- **Documented example.** The documented example output "HELLO HOW YOU?" for
  "Hello, how are you?" is not what the translator computes. The model
  follows `text_to_isl_gloss`, whose per-token punctuation strip drops the
  question mark.

## Model

| member | source | states |
|---|---|---|
| Text.Upper | backend/main.py:141 | `str.upper` on ASCII letters. The length is unchanged and the result has no lower-case ASCII letter. |
| Text.UpperIdempotent | backend/main.py:141 | Upper-casing twice is upper-casing once. |
| Text.Lower | backend/main.py:118 | `str.lower` on ASCII letters. The length is unchanged and the result has no upper-case ASCII letter. |
| Text.StripBy | backend/main.py:136 | `str.strip(chars)`. The result is the slice after the leading run of stripped characters, and everything after it is stripped characters. Its ends are not stripped characters. It is empty exactly when every character is stripped. |
| Text.Strip | backend/main.py:68 | `str.strip()`. The result is no longer than the input and has no whitespace at either end. It is empty exactly when the input is all whitespace. |
| Text.StripByIdempotent | backend/schemas.py:35 | Stripping a stripped string changes nothing. |
| Text.StripByNoop | backend/schemas.py:35 | A string whose ends are not stripped characters is its own strip. |
| Text.Split | backend/avatar_engine.py:269 | `str.split()`. Every part is a non-empty run without whitespace. There are no parts exactly when the input is all whitespace. |
| Text.SplitJoin | backend/avatar_engine.py:269 | Splitting the single-space join of whitespace-free, non-empty words gives back the words. |
| Text.SplitSkipsSpace | backend/avatar_engine.py:269 | A leading whitespace character does not change the split. |
| Text.SplitOfWordThen | backend/avatar_engine.py:269 | A word followed by whitespace (or by nothing) splits off as the first part. |
| Text.Join | backend/main.py:143 | `sep.join(words)` starts with the first word. |
| Text.JoinNoLower | backend/main.py:143 | Joining words without lower-case letters with a separator without lower-case letters yields no lower-case letter. |
| Text.OccursAtTail | backend/main.py:126 | An occurrence in the tail of a string is an occurrence in the string one place later. |
| Text.Contains | backend/main.py:126 | `phrase in text` holds exactly when the phrase occurs at some index of the text. |
| Text.ReplaceAll | backend/main.py:128 | `s.replace(pat, rep)` with a replacement no longer than the pattern never lengthens the string. |
| Text.ReplaceAllAbsent | backend/main.py:126-128 | Where the pattern does not occur, `replace` returns the string unchanged. |
| Text.ReplaceAllAtOccurrence | backend/main.py:128 | `replace` replaces: with no possible match start before it, the first occurrence of the pattern becomes the replacement, and the scan resumes after it. |
| Text.ReplaceAllSpaceThen | backend/main.py:146 | A space followed by a space-free tail is left alone by a pattern of two or more characters ending in a space. |
| Text.ReplaceAllSkipsWord | backend/main.py:146 | The pattern " p " does not match a space, a different space-free word and a space. |
| Text.ReplaceAllWordStep | backend/main.py:146 | In `u + " " + w + " " + v` with space-free parts, the pattern " p " replaces " w " when `w` is `p` and changes nothing otherwise. |
| Text.ReplaceAllOneSpace | backend/main.py:146 | A single space between two space-free words survives any pattern " p ". |
| Text.ReplaceAllNoLower | backend/main.py:146 | `replace` with a replacement that has no lower-case letter keeps a string free of lower-case letters. |
| Text.ReplaceAllKeepsPrefix | backend/main.py:146 | A prefix that does not contain the pattern's first character passes through `replace` unchanged. |
| Text.ReplaceAllKeepsSuffix | backend/main.py:146 | A suffix that does not contain the pattern's last character passes through `replace` unchanged. |
| Text.ReplaceAllNoMatch | backend/main.py:146 | A string that does not contain the pattern's last character is unchanged by `replace`. |
| Text.NatToString | backend/avatar_engine.py:438 | `str(n)` for a natural number: non-empty decimal digits whose value is `n`, with no leading zero. |
| Text.LastSegment | backend/main.py:254 | `s.split(sep)[-1]` is a suffix of `s` without `sep`. It is either all of `s` or is preceded by `sep`. |
| Text.LastSegmentAfter | backend/main.py:254 | The last segment of `a + sep + b`, where `b` has no `sep`, is `b`. |
| Schemas.ValidateAudioText | backend/schemas.py:22-35 | The text is accepted exactly when its raw length is in 1..1000 and it has a non-whitespace character. An accepted value is the stripped text: non-empty, no whitespace at either end, at most 1000 characters. A rejection names `audio_text`. |
| Schemas.ValidateAudioTextIdempotent | backend/schemas.py:33-35 | Validating an accepted value again gives it back unchanged. |
| Schemas.MakeIslOutput | backend/schemas.py:71-84 | An `ISLOutput` exists exactly when the confidence is in [0, 1] and the processing time is at least 0. Its fields are the arguments. An error names exactly the fields that are out of range. |
| Schemas.MakeHealthCheck | backend/schemas.py:146-164 | A `HealthCheck` exists exactly when the uptime and the translation count are both at least 0. An error names exactly the fields that are out of range. |
| Schemas.MakeIslInput | backend/schemas.py:280-292 | An `ISLInput` exists exactly when a given frame rate is in [15, 60]. A missing format defaults to "webm" and a missing frame rate to 30. |
| Avatar.NewGlossMapper | backend/avatar_engine.py:38-201 | The mapper's pose library holds DEFAULT with at least one keyframe. Every pose in it is well formed: non-empty, starting at 0, positive durations, each keyframe starting where the previous one ends. |
| Avatar.LibraryPosesWellFormed | backend/avatar_engine.py:47-187 | Every pose of the library is well formed. |
| Avatar.PoseLibraryKeys | backend/avatar_engine.py:42-189 | The library has exactly HELLO, HOW, YOU, THANK-YOU, YES, NO and DEFAULT, and each pose is named as its key. |
| Avatar.TransitionRulesShape | backend/avatar_engine.py:191-201 | The rules have one row per library pose, and every entry lies between 0.2 and 0.5. |
| Avatar.GetPose | backend/avatar_engine.py:203-205 | The result is a pose of the library. It is well formed when the library is. "DEFAULT" yields the DEFAULT entry. |
| Avatar.GetPoseIgnoresCase | backend/avatar_engine.py:203-205 | Lower- or upper-casing the word does not change the pose. |
| Avatar.GetPoseOfLibrary | backend/avatar_engine.py:47-205 | With the engine's library, a word whose upper-case form is one of the six signed words yields that pose. Every other word yields the DEFAULT pose. |
| Avatar.GetTransitionDuration | backend/avatar_engine.py:207-210 | The duration is the table entry when both upper-cased names are present, and 0.3 otherwise. |
| Avatar.TransitionDurationOfRules | backend/avatar_engine.py:191-210 | With the engine's rules, every transition lies in [0.2, 0.5]. An unknown source word gives 0.3. |
| Avatar.ParseGloss | backend/avatar_engine.py:266-280 | The parsed words are the whitespace-separated tokens of the gloss, in order, none of them empty. The hyphen branch changes nothing. |
| Avatar.ParseGlossJoin | backend/avatar_engine.py:266-280 | Parsing the single-space join of such tokens gives back the tokens. |
| Avatar.GenerateKeyframeSequence | backend/avatar_engine.py:282-317 | The method's nested loops build exactly the timeline `KeyframeSequence`. |
| Avatar.KeyframeSequence | backend/avatar_engine.py:282-317 | The sequence has as many keyframes as the words' poses have in total, plus one rest frame. That last frame holds DEFAULT's first-frame joints for 0.5 seconds. |
| Avatar.PlacedFrameAt | backend/avatar_engine.py:296-303 | Before the rest frame, template keyframe `j` of word `i` sits at index (keyframes of the earlier words) + `j`, moved to the word's start. |
| Avatar.FrameOfWord | backend/avatar_engine.py:296-303 | That keyframe's timestamp is the word's start plus the template timestamp, and its joints and duration are the template's. |
| Avatar.StartRule | backend/avatar_engine.py:285-307 | The first word starts at 0. Each later word starts at the previous start, plus the previous pose's total duration, plus the transition from the previous word to this one. |
| Avatar.ClockClosedForm | backend/avatar_engine.py:285-307 | After `n` words the clock is the sum of their pose durations plus the sum of the transitions between them. |
| Avatar.FinalRestFrame | backend/avatar_engine.py:309-315 | The last keyframe has duration 0.5, timestamp equal to the accumulated end time plus 0.5, and DEFAULT's first-frame joints. An empty gloss yields only that frame, at 0.5. |
| Avatar.RestJointsOfLibrary | backend/avatar_engine.py:310-314 | With the engine's library, the rest frame's joints are those of DEFAULT's only keyframe. |
| Avatar.PlacedFramesLength | backend/avatar_engine.py:288-303 | The copied keyframes of the first `n` words number the sum of their pose lengths. |
| Avatar.SumDurationsAppend | backend/avatar_engine.py:240 | The duration sum of a concatenation is the sum of the two duration sums. |
| Avatar.SumDurationsShifted | backend/avatar_engine.py:298-302 | Moving keyframes in time keeps their durations. |
| Avatar.PlacedFramesDuration | backend/avatar_engine.py:296-306 | The durations of the copied keyframes add up to the words' pose durations. |
| Avatar.KeyframeDurationTotal | backend/avatar_engine.py:240 | `total_duration` is the words' pose durations plus 0.5. Transitions are not added. |
| Avatar.SumDurationsPositive | backend/avatar_engine.py:240 | Positive durations have a positive sum (0 for none). |
| Avatar.PoseDurationsNonNegative | backend/avatar_engine.py:240 | With a well-formed library, the total pose duration is not negative. |
| Avatar.GenerateVideoFrames | backend/avatar_engine.py:319-348 | There is one frame per keyframe: `frame_number` is the index, and timestamp, duration and joints are copied. Only the last frame is "hold". `total_frames` is the length. `duration` is the last timestamp plus the last duration, or 0 with no keyframes. |
| Avatar.VideoOutlastsSummary | backend/avatar_engine.py:339-344 | For a gloss, `total_frames` is the keyframe count. The video's duration is the pose durations, plus the transitions, plus 1.0 s: the 0.5 s gap before the rest frame and the rest frame's own 0.5 s. That is the summary's `total_duration` plus the transitions plus 0.5 s. |
| Avatar.ResolutionText | backend/avatar_engine.py:254 | The summary's `resolution` is "400x600". |
| Avatar.Trunc | backend/avatar_engine.py:241 | `int(x)` truncates toward zero. |
| Avatar.GenerateAnimationSequence | backend/avatar_engine.py:221-264 | The summary holds the gloss input, the parsed words and the timestamp. `keyframe_count` is the keyframe list's length. `total_duration_seconds` is the sum of the keyframe durations, without transitions. `frame_count` is the truncation of `total_duration * 30`. fps is 30, the resolution "400x600" and the format "webm". The video data describes the frame list of the keyframes. |
| Avatar.IntToString | backend/avatar_engine.py:438 | `str(int)`: for `n` ≥ 0, digits whose value is `n`. For negative `n`, a minus sign followed by the digits of `-n`. It never contains `/`. |
| Avatar.StreamId | backend/avatar_engine.py:436-438 | The stream id starts with `isl_avatar_`. Built from a 12-digit hex hash and a timestamp, it contains no `/`. |
| Avatar.GenerateStreamUrl | backend/avatar_engine.py:432-446 | The URL starts with the stream base URL and a `/`. For a 12-digit hex hash, its last `/` segment is the stream id. |
| Avatar.FallbackUrl | backend/avatar_engine.py:482 | The fallback URL starts with the stream base URL and a `/`. Its last segment is `fallback_` followed by the truncated time. |
| Avatar.FallbackSegment | backend/avatar_engine.py:482 | The fallback URL's last segment is never a generated stream id. |
| Streams.FrameMessages | backend/websocket_handler.py:140-146 | There is one `animation_frame` message per decoded frame, in order. |
| Streams.PlaybackPlan | backend/websocket_handler.py:91-176 | `stream_animation` always tries to send at least one message. The first one is the metadata exactly when the animation is cached, and is otherwise ANIMATION_NOT_FOUND. |
| Streams.PlaybackOrder | backend/websocket_handler.py:93-172 | With no cached animation, the only message is ANIMATION_NOT_FOUND. Otherwise the metadata comes first. Without video data, NO_ANIMATION_DATA follows it. With video data, one frame message per decoded frame follows, in order, and then `animation_complete` carrying the number of decoded frames. |
| Streams.Delivers | backend/websocket_handler.py:68-89 | Whatever arrives is a prefix of the planned messages, and each message that arrives used up one successful send. |
| Streams.BumpTwice | backend/websocket_handler.py:80-82 | Counting `a` sends and then `b` sends counts `a + b`. |
| Streams.DeliversCompose | backend/websocket_handler.py:120-165 | Sending one message sequence and then another is sending their concatenation. This holds both for the counters and for the disconnection after a failed send. |
| Streams.DeliversNothing | backend/websocket_handler.py:70-72 | Nothing is sent to, or changed for, a stream without a connection. |
| Streams.PartialDeliveryDisconnects | backend/websocket_handler.py:86-89 | If fewer messages arrive than were planned, the stream is no longer connected. |
| Streams.DeliversTouchesOnlyStream | backend/websocket_handler.py:68-89 | Sending never changes another stream's connection or metadata. A connected stream receives the planned messages, counted up to the number of sends that succeed. |
| Streams.UnexpiredExactly | backend/websocket_handler.py:192-203 | Cleanup deletes exactly the cache entries with now − `cached_at` > max_age, and keeps the others unchanged. |
| Streams.SumFramesRemove | backend/websocket_handler.py:214-217 | The `frames_sent` total does not depend on the order of the entries. |
| Streams.SumFramesSameEntries | backend/websocket_handler.py:214-217 | Equal metadata entries give equal totals. |
| Streams.StatsForgetClosedStreams | backend/websocket_handler.py:46-55 | After a disconnect, the reported total loses exactly that stream's `frames_sent`. |
| Streams.StreamManager.constructor | backend/websocket_handler.py:22-30 | All three maps start empty. |
| Streams.StreamManager.Connect | backend/websocket_handler.py:32-44 | The id is registered in both connection maps with `frames_sent` = 0, the client's host or "unknown", and the connection time. Any previous entry is overwritten. The cache is unchanged. |
| Streams.StreamManager.Disconnect | backend/websocket_handler.py:46-58 | The id is removed from both connection maps, and nothing happens if it is absent. The cache is unchanged. |
| Streams.StreamManager.StoreAnimationData | backend/websocket_handler.py:60-66 | The cache entry for the id becomes the data stamped with `now`. The connection maps are unchanged. |
| Streams.StreamManager.SendAnimationFrame | backend/websocket_handler.py:68-89 | For an unconnected id, the result is False and nothing changes. On success, only that stream's `frames_sent` grows, by 1, and its last activity is updated. On a failed send, the stream is disconnected and the result is False. |
| Streams.StreamManager.SendError | backend/websocket_handler.py:178-190 | Delivers one error message with the given code and text. |
| Streams.StreamManager.StreamFrames | backend/websocket_handler.py:140-152 | Delivers the frame messages in order and stops at the first failed send. |
| Streams.StreamManager.StreamAnimation | backend/websocket_handler.py:91-176 | Delivers exactly `PlaybackPlan` for the cached animation, and leaves the cache unchanged. |
| Streams.StreamManager.CleanupExpiredStreams | backend/websocket_handler.py:192-203 | The two loops leave exactly the unexpired cache entries. They do not touch the connection maps. |
| Streams.StreamManager.GetStreamStats | backend/websocket_handler.py:209-227 | The report holds the sizes of `active_connections` and `animation_cache`, the sum of `frames_sent` over the current metadata only, and one record per current connection. |
| Streams.StreamManager.Dispatch | backend/websocket_handler.py:252-281 | "ping" sends one pong, and "restart_animation" replays the playback plan. "get_stats" sends one stats message with the statistics before the send. Any other type sends nothing and changes nothing. Other streams are never touched. |
| Streams.StreamManager.HandleClientEvent | backend/websocket_handler.py:247-302 | A JSON object is dispatched on its type as in `Dispatch`, and the loop goes on. "ping" delivers one pong. "restart_animation" delivers the playback plan. "get_stats" delivers one stats message. Any other type sends nothing and changes nothing. Invalid JSON is ignored. JSON that is not an object sends nothing and ends the loop. A receive timeout sends a keep-alive ping and ends the loop exactly when the ping fails. A client disconnect ends the loop. Other streams are never touched. |
| Streams.StreamManager.HandleAvatarWebsocket | backend/websocket_handler.py:232-302 | The first messages the client receives are the playback plan, cut where the socket breaks. On exit the stream is removed from both connection maps, and the cache is unchanged. |
| Pipeline.MockAsr | backend/main.py:55-68 | The result is the input with leading and trailing whitespace removed: the slice between the two whitespace runs. |
| Pipeline.MockAsrIdempotent | backend/main.py:68 | Transcribing a transcription changes nothing. |
| Pipeline.GlossMappingWellFormed | backend/main.py:90-115 | Every phrase in the dictionary is non-empty and no gloss has a lower-case letter. |
| Pipeline.GlossMappingPhrasesNonEmpty | backend/main.py:90-115 | No phrase is empty. |
| Pipeline.GlossMappingGlossesUpper | backend/main.py:90-115 | No gloss has a lower-case letter. |
| Pipeline.GlossMappingPhrasesDistinct | backend/main.py:90-115 | The phrases are pairwise distinct, as dictionary keys. |
| Pipeline.Lookup | backend/main.py:137-138 | The key is missing exactly when no entry has it. A found gloss is that of an entry with that key. |
| Pipeline.LookupDistinct | backend/main.py:121-122 | With distinct keys, looking up an entry's phrase gives its gloss. |
| Pipeline.CleanWord | backend/main.py:136 | `word.strip(".,!?;:")`: the slice between the leading and trailing punctuation runs. |
| Pipeline.GlossWord | backend/main.py:136-141 | A token's gloss is either the gloss of a dictionary entry for the punctuation-stripped token, or, when no entry has that phrase, the stripped token upper-cased. |
| Pipeline.GlossWords | backend/main.py:134-141 | There is one gloss word per token. |
| Pipeline.GlossWordsUpper | backend/main.py:137-141 | Every gloss word is a mapping value or an upper-cased word, so none has a lower-case letter. |
| Pipeline.GlossWordsSnoc | backend/main.py:134-141 | One more token adds its gloss word at the end. |
| Pipeline.ReplacedTokens | backend/main.py:125-131 | After the ordered phrase replacement, splitting yields non-empty, whitespace-free tokens. |
| Pipeline.ReplaceStep | backend/main.py:126-128 | The `in` test before `replace` makes no difference: the step is always the plain replace-all. |
| Pipeline.PartialReplace | backend/main.py:125-128 | A text in which no dictionary phrase occurs leaves the replacement loop unchanged. |
| Pipeline.Normalize | backend/main.py:118 | The text matched against the dictionary has no upper-case ASCII letter and no whitespace at either end. |
| Pipeline.ReplacePhrases | backend/main.py:125-128 | The loop applies each phrase's replace-all in dictionary order, exactly as `PartialReplace`. |
| Pipeline.TranslateWords | backend/main.py:131-141 | The loop appends exactly `GlossWords` of the tokens. |
| Pipeline.TextToIslGloss | backend/main.py:71-148 | The method computes exactly the translation `TextToGloss`. |
| Pipeline.ExactMatch | backend/main.py:117-122 | If the lower-cased, stripped input is a dictionary phrase, the result is that phrase's gloss. |
| Pipeline.TextToGlossWords | backend/main.py:130-146 | On the non-exact path, the result is the cleanup of the single-space join of one gloss word per token, in order, or of the upper-cased input when there are no tokens. Each word is the mapping of, or the upper-cased, punctuation-stripped token. |
| Pipeline.TextToGloss | backend/main.py:117-148 | The translation never contains a lower-case ASCII letter. |
| Pipeline.Cleanup | backend/main.py:146 | Replacing " ARE ", " IS " and " THE " by one space never lengthens the text, and keeps a text free of lower-case letters. |
| Pipeline.CleanupDropsStopWord | backend/main.py:146 | A middle ARE, IS or THE between two space-free words is removed, leaving one space between them. |
| Pipeline.CleanupKeepsFirstWord | backend/main.py:146 | A leading word (such as ARE, IS or THE) passes through the stop-word removal unchanged. |
| Pipeline.CleanupKeepsLastWord | backend/main.py:146 | A trailing word passes through the stop-word removal unchanged. |
| Pipeline.Confidence | backend/main.py:265-273 | Confidence is 0.97 for a generated animation and 0.77 for the fallback, both within `ISLOutput`'s [0, 1]. |
| Pipeline.OutputResponse | backend/main.py:275-289 | The response is the `ISLOutput` when its validation passes, otherwise a 400. |
| Pipeline.App.constructor | backend/main.py:48-52 | The translation count starts at 0 and the status at "operational". |
| Pipeline.App.GlossToAvatarStream | backend/main.py:249-256 | A generated animation is cached under the last `/` segment of its URL, which is its stream id. The cached summary is the one generated from the gloss, including every field the metadata message reports: keyframe count, total duration, frame count, fps, resolution, gloss input and parsed words. Only that entry changes. A fallback is not cached. |
| Pipeline.App.CountTranslation | backend/main.py:262 | `translation_count` grows by exactly one. |
| Pipeline.App.RunPipeline | backend/main.py:237-285 | A completed run increments the count by one. It answers with (the stripped input, its translation, the stream or fallback URL, the confidence, the time) exactly when the time is not negative, and with 400 otherwise. It caches only non-fallback animations. |
| Pipeline.App.TranslateVoiceToIsl | backend/main.py:217-294 | A request the validator rejects gets 422 and changes nothing. A `ValueError` maps to 400 with no change. Any other failure sets the status to "degraded" and maps to 500. Otherwise the run's outcome applies, on the stripped text. |

## Left out

- Rendering of the SVG avatar frames (`_create_visual_frame`) is left out. It is screen-coordinate float arithmetic and text templating, and has no effect on the timeline.
- The MD5 digest in the stream id is left out. In the source it is the first 12 hexadecimal digits of the MD5 of the gloss input followed by the timestamp (backend/avatar_engine.py:436-437). The model takes it as a parameter `hash`, any 12 hexadecimal digits.
- JSON and base64 encoding of the video data are left out. Encoding followed by decoding is taken as the identity on the frame list. The video field is `Option<VideoData>`, where `None` stands for an empty `video_data_base64`.
- The `DECODE_ERROR` and `STREAMING_ERROR` branches of `stream_animation` are left out. They need a decoding failure or an exception, which cannot happen under the identity encoding above.
- Floating point is not modelled. Durations and timestamps are exact reals, so `round(total_duration, 2)` and `round(processing_time, 2)` are not modelled. `total_duration_seconds` is the exact sum.
- Wall-clock readings (`time.time`, `datetime.now`) are the parameter `now`. Connection times, last-activity times and the message timestamps of metadata, frame, pong, ping and stats messages are therefore not modelled separately. `processing_time_ms` is the parameter `processingTimeMs`.
- The simulated `time.sleep` delays, the `asyncio.sleep` pacing and the 30-second receive timeout are left out because they are timing. The timeout appears only as the `ReceiveTimeout` event.
- WebSocket accept, send and receive are left out as network I/O. A send is the budget of successful sends. The client's messages are the list of `ClientEvent`s.
- JSON decoding of a client message is abstracted to its `type` field (`TextMessage`), a decoding failure (`InvalidJson`), or valid JSON that is not an object (`NonObjectJson`). For the last, `data.get` raises, the outer `except Exception` ends the receive loop, and the stream is disconnected. A `type` that is not a string compares unequal to every known type, so it is taken as one more unknown type name.
- `cleanup_expired_streams_task` is a background scheduler that calls `CleanupExpiredStreams`, so it is left out as async plumbing.
- `get_active_connections_count` is used only by the shutdown hook, and its value is the `activeConnections` field of `GetStreamStats`.
- Streams.StreamManager.GetStreamStats: the list of connections is reported as a set of records, so its order is not modelled.
- The exceptions inside `translate_voice_to_isl` are left out. They are the parameter `fault`, raised before any state change. The only exception that can follow the counter update, the `ISLOutput` validation error, is modelled.
- The animation-generation fallback is the flag `fallback`. In the source it happens only when generation raises. The fallback branch of `gloss_to_avatar_stream` in backend/main.py:174-190 cannot be reached because `generate_avatar_animation` catches every exception itself, so it is not modelled.
- Pipeline.TextToIslGloss: the translator is proved for any well-formed ordered dictionary. The endpoint uses the source's 24-entry dictionary `GlossMapping`. The result of the documented example is not computed.
- Case conversion covers ASCII letters only, so Unicode case mapping is not modelled. Whitespace is Python's `str.isspace` set.
- The framework endpoints (`/`, `/health`, `/avatar/stats`), the 404 and 500 handlers, CORS, and the startup and shutdown hooks are framework wiring. `HealthCheck`'s field constraints are modelled, but not the handler that fills them.
- Logging is left out.
- Interleaving of coroutines is not modelled. Every `StreamManager` method and `HandleAvatarWebsocket` runs as one uninterrupted step. In the source every `await` lets other handlers run: the sends, the `asyncio.sleep` of each frame's duration between frames (backend/websocket_handler.py:152), and the receive. So the model does not capture these:
  - a second `connect` for the same stream id overwriting `active_connections` (backend/websocket_handler.py:36), after which the first handler's final `disconnect` (line 302) removes the second client;
  - a store or the cleanup task changing the cache while a handler plays it.
- Streams.StreamManager.HandleAvatarWebsocket: its `animationCache == old(animationCache)` clause, and the `Delivers` clause of Streams.StreamManager.StreamAnimation, hold only when no other coroutine runs in between.
