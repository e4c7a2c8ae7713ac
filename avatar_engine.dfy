/**
 * The gloss-to-animation engine: a fixed library of sign poses, the
 * transition times between them, and the timeline that lays the poses of a
 * gloss end to end as keyframes, followed by one rest frame. Times are exact
 * reals (every duration, timestamp and transition in the tables is a
 * multiple of 0.1 s; floating-point rounding is not modelled).
 */
module Avatar {
  import opened Wrappers
  import opened Text

  datatype Vec3 = Vec3(x: real, y: real, z: real)

  type Joints = map<string, Vec3>

  datatype KeyFrame = KeyFrame(timestamp: real, joints: Joints, duration: real)

  datatype AvatarPose = AvatarPose(name: string, keyframes: seq<KeyFrame>, transitionDuration: real)

  const Fps: nat := 30
  const VideoWidth: nat := 400
  const VideoHeight: nat := 600

  /** The `resolution` field of an animation summary, "width x height". */
  const Resolution: string := NatToString(VideoWidth) + "x" + NatToString(VideoHeight)

  lemma ResolutionText()
    ensures Resolution == "400x600"
  {
    assert NatToString(4) == "4" && NatToString(40) == "40" && NatToString(400) == "400";
    assert NatToString(6) == "6" && NatToString(60) == "60" && NatToString(600) == "600";
  }

  // ---------------------------------------------------------------------
  // Pose library
  // ---------------------------------------------------------------------

  function HelloPose(): AvatarPose {
    AvatarPose("HELLO", [
      KeyFrame(0.0, map["right_hand" := Vec3(0.3, 0.8, 0.0), "right_wrist" := Vec3(0.35, 0.75, 0.0),
                        "head" := Vec3(0.0, 0.0, 0.05)], 0.5),
      KeyFrame(0.5, map["right_hand" := Vec3(0.4, 0.9, 0.1), "right_wrist" := Vec3(0.45, 0.85, 0.1),
                        "head" := Vec3(0.0, 0.0, -0.05)], 0.5),
      KeyFrame(1.0, map["right_hand" := Vec3(0.3, 0.8, 0.0), "right_wrist" := Vec3(0.35, 0.75, 0.0),
                        "head" := Vec3(0.0, 0.0, 0.0)], 0.3)
    ], 0.2)
  }

  function HowPose(): AvatarPose {
    AvatarPose("HOW", [
      KeyFrame(0.0, map["both_hands" := Vec3(0.0, 0.6, 0.0), "right_hand" := Vec3(0.2, 0.6, 0.0),
                        "left_hand" := Vec3(-0.2, 0.6, 0.0), "eyebrows" := Vec3(0.0, 0.1, 0.0)], 0.8),
      KeyFrame(0.8, map["both_hands" := Vec3(0.0, 0.7, 0.1), "right_hand" := Vec3(0.25, 0.7, 0.1),
                        "left_hand" := Vec3(-0.25, 0.7, 0.1), "eyebrows" := Vec3(0.0, 0.15, 0.0)], 0.4)
    ], 0.3)
  }

  function YouPose(): AvatarPose {
    AvatarPose("YOU", [
      KeyFrame(0.0, map["right_hand" := Vec3(0.0, 0.7, 0.3), "right_index" := Vec3(0.0, 0.75, 0.35),
                        "head" := Vec3(0.0, 0.0, 0.0), "eyes" := Vec3(0.0, 0.0, 0.1)], 0.6),
      KeyFrame(0.6, map["right_hand" := Vec3(0.05, 0.7, 0.4), "right_index" := Vec3(0.05, 0.75, 0.45),
                        "head" := Vec3(0.0, 0.02, 0.0), "eyes" := Vec3(0.0, 0.0, 0.15)], 0.4)
    ], 0.2)
  }

  function ThankYouPose(): AvatarPose {
    AvatarPose("THANK-YOU", [
      KeyFrame(0.0, map["right_hand" := Vec3(0.0, 0.9, 0.2), "right_palm" := Vec3(0.0, 0.95, 0.25),
                        "head" := Vec3(0.0, -0.1, 0.0)], 0.5),
      KeyFrame(0.5, map["right_hand" := Vec3(0.0, 0.7, 0.4), "right_palm" := Vec3(0.0, 0.75, 0.45),
                        "head" := Vec3(0.0, -0.15, 0.0)], 0.8),
      KeyFrame(1.3, map["right_hand" := Vec3(0.0, 0.6, 0.2), "right_palm" := Vec3(0.0, 0.65, 0.25),
                        "head" := Vec3(0.0, 0.0, 0.0)], 0.4)
    ], 0.3)
  }

  function YesPose(): AvatarPose {
    AvatarPose("YES", [
      KeyFrame(0.0, map["head" := Vec3(0.0, 0.0, 0.0), "neck" := Vec3(0.0, 0.0, 0.0)], 0.2),
      KeyFrame(0.2, map["head" := Vec3(0.0, -0.2, 0.0), "neck" := Vec3(0.0, -0.1, 0.0)], 0.3),
      KeyFrame(0.5, map["head" := Vec3(0.0, 0.1, 0.0), "neck" := Vec3(0.0, 0.05, 0.0)], 0.3),
      KeyFrame(0.8, map["head" := Vec3(0.0, 0.0, 0.0), "neck" := Vec3(0.0, 0.0, 0.0)], 0.2)
    ], 0.1)
  }

  function NoPose(): AvatarPose {
    AvatarPose("NO", [
      KeyFrame(0.0, map["head" := Vec3(0.0, 0.0, 0.0), "neck" := Vec3(0.0, 0.0, 0.0)], 0.1),
      KeyFrame(0.1, map["head" := Vec3(-0.15, 0.0, 0.0), "neck" := Vec3(-0.1, 0.0, 0.0)], 0.3),
      KeyFrame(0.4, map["head" := Vec3(0.15, 0.0, 0.0), "neck" := Vec3(0.1, 0.0, 0.0)], 0.3),
      KeyFrame(0.7, map["head" := Vec3(0.0, 0.0, 0.0), "neck" := Vec3(0.0, 0.0, 0.0)], 0.2)
    ], 0.1)
  }

  function DefaultJoints(): Joints {
    map["head" := Vec3(0.0, 0.0, 0.0), "right_hand" := Vec3(0.3, 0.5, 0.0),
        "left_hand" := Vec3(-0.3, 0.5, 0.0), "torso" := Vec3(0.0, 0.0, 0.0)]
  }

  function DefaultPose(): AvatarPose {
    AvatarPose("DEFAULT", [KeyFrame(0.0, DefaultJoints(), 1.0)], 0.2)
  }

  function PoseLibrary(): map<string, AvatarPose> {
    map["HELLO" := HelloPose(), "HOW" := HowPose(), "YOU" := YouPose(), "THANK-YOU" := ThankYouPose(),
        "YES" := YesPose(), "NO" := NoPose(), "DEFAULT" := DefaultPose()]
  }

  /** The words that have a pose of their own; every other word falls back to DEFAULT. */
  const SignedWords: set<string> := {"HELLO", "HOW", "YOU", "THANK-YOU", "YES", "NO"}

  /**
   * A pose whose keyframes start at 0 and follow each other without gap or
   * overlap, each lasting a positive time.
   */
  predicate WellFormedPose(p: AvatarPose) {
    var kfs := p.keyframes;
    && |kfs| > 0
    && kfs[0].timestamp == 0.0
    && (forall j :: 0 <= j < |kfs| ==> kfs[j].duration > 0.0)
    && Contiguous(kfs)
  }

  /** Each keyframe ends exactly when the next one starts. */
  predicate Contiguous(kfs: seq<KeyFrame>) {
    |kfs| <= 1 || (kfs[0].timestamp + kfs[0].duration == kfs[1].timestamp && Contiguous(kfs[1..]))
  }

  // ---------------------------------------------------------------------
  // Transition rules
  // ---------------------------------------------------------------------

  const DefaultTransition: real := 0.3

  function TransitionRules(): map<string, map<string, real>> {
    map[
      "HELLO" := map["HOW" := 0.3, "YOU" := 0.2, "DEFAULT" := 0.4],
      "HOW" := map["YOU" := 0.2, "HELLO" := 0.3, "DEFAULT" := 0.3],
      "YOU" := map["HELLO" := 0.2, "DEFAULT" := 0.3],
      "THANK-YOU" := map["DEFAULT" := 0.5],
      "YES" := map["DEFAULT" := 0.2],
      "NO" := map["DEFAULT" := 0.2],
      "DEFAULT" := map["HELLO" := 0.3, "HOW" := 0.3, "YOU" := 0.2, "THANK-YOU" := 0.4]
    ]
  }

  // ---------------------------------------------------------------------
  // The gloss mapper: the two tables an `ISLGlossMapper` holds
  // ---------------------------------------------------------------------

  datatype GlossMapper = GlossMapper(poseLibrary: map<string, AvatarPose>, transitionRules: map<string, map<string, real>>)

  /** What the timeline needs of a mapper: a DEFAULT pose with at least one keyframe. */
  predicate HasDefaultPose(m: GlossMapper) {
    "DEFAULT" in m.poseLibrary && |m.poseLibrary["DEFAULT"].keyframes| > 0
  }

  /** A mapper the engine can work with: it has a DEFAULT pose and every pose is well formed. */
  predicate ValidMapper(m: GlossMapper) {
    && HasDefaultPose(m)
    && forall n :: n in m.poseLibrary ==> WellFormedPose(m.poseLibrary[n])
  }

  lemma LibraryPosesWellFormed()
    ensures forall n :: n in PoseLibrary() ==> WellFormedPose(PoseLibrary()[n])
  {
    HelloPoseWellFormed();
    HowPoseWellFormed();
    YouPoseWellFormed();
    ThankYouPoseWellFormed();
    YesPoseWellFormed();
    NoPoseWellFormed();
    DefaultPoseWellFormed();
  }

  lemma HelloPoseWellFormed()
    ensures WellFormedPose(HelloPose())
  {
  }

  lemma HowPoseWellFormed()
    ensures WellFormedPose(HowPose())
  {
  }

  lemma YouPoseWellFormed()
    ensures WellFormedPose(YouPose())
  {
  }

  lemma ThankYouPoseWellFormed()
    ensures WellFormedPose(ThankYouPose())
  {
  }

  lemma YesPoseWellFormed()
    ensures WellFormedPose(YesPose())
  {
  }

  lemma NoPoseWellFormed()
    ensures WellFormedPose(NoPose())
  {
  }

  lemma DefaultPoseWellFormed()
    ensures WellFormedPose(DefaultPose())
  {
  }

  /** `ISLGlossMapper.__init__`: the mapper built from the fixed tables. */
  function NewGlossMapper(): (m: GlossMapper)
    ensures ValidMapper(m)
  {
    LibraryPosesWellFormed();
    GlossMapper(PoseLibrary(), TransitionRules())
  }

  /** The library stores each signed word's pose, and DEFAULT's, under its own name, and nothing else. */
  lemma PoseLibraryKeys()
    ensures PoseLibrary().Keys == SignedWords + {"DEFAULT"}
    ensures forall n :: n in PoseLibrary() ==> PoseLibrary()[n].name == n
  {
  }

  /** The transition table has a row for every pose, and every entry lies in [0.2, 0.5]. */
  lemma TransitionRulesShape()
    ensures TransitionRules().Keys == SignedWords + {"DEFAULT"}
    ensures forall f, t :: f in TransitionRules() && t in TransitionRules()[f] ==> 0.2 <= TransitionRules()[f][t] <= 0.5
  {
  }

  /** `ISLGlossMapper.get_pose`: the pose stored under the upper-cased word, DEFAULT's when there is none. */
  function GetPose(m: GlossMapper, word: string): (p: AvatarPose)
    requires "DEFAULT" in m.poseLibrary
    ensures p in m.poseLibrary.Values
    ensures ValidMapper(m) ==> WellFormedPose(p)
    ensures word == "DEFAULT" ==> p == m.poseLibrary["DEFAULT"]
  {
    var key := Upper(word);
    assert word == "DEFAULT" ==> key == word by {
      if word == "DEFAULT" { UpperOfDefault(); }
    }
    if key in m.poseLibrary then m.poseLibrary[key] else m.poseLibrary["DEFAULT"]
  }

  lemma UpperOfDefault()
    ensures Upper("DEFAULT") == "DEFAULT"
  {
    assert forall i :: 0 <= i < 7 ==> Upper("DEFAULT")[i] == "DEFAULT"[i];
  }

  lemma UpperOfLower(s: string)
    ensures Upper(Lower(s)) == Upper(s)
  {
    forall i | 0 <= i < |s|
      ensures Upper(Lower(s))[i] == Upper(s)[i]
    {
      if IsUpperAscii(s[i]) {
        assert Lower(s)[i] as int == s[i] as int + 32;
      }
    }
  }

  /** The pose of a word does not depend on its letter case, whatever the tables hold. */
  lemma GetPoseIgnoresCase(m: GlossMapper, word: string)
    requires "DEFAULT" in m.poseLibrary
    ensures GetPose(m, Lower(word)) == GetPose(m, word)
    ensures GetPose(m, Upper(word)) == GetPose(m, word)
  {
    UpperOfLower(word);
    UpperIdempotent(word);
  }

  /**
   * With the engine's own tables, a signed word (in any letter case) gets the
   * pose of that name and every other word gets exactly the DEFAULT pose.
   */
  lemma GetPoseOfLibrary(word: string)
    ensures var p := GetPose(NewGlossMapper(), word);
      && p.name == (if Upper(word) in SignedWords then Upper(word) else "DEFAULT")
      && (Upper(word) in SignedWords ==> p == PoseLibrary()[Upper(word)])
      && (Upper(word) !in SignedWords ==> p == DefaultPose())
  {
    var m := NewGlossMapper();
    PoseLibraryKeys();
    if Upper(word) == "DEFAULT" {
      assert m.poseLibrary[Upper(word)] == DefaultPose();
    }
  }

  /**
   * `ISLGlossMapper.get_transition_duration`: the table entry for the
   * upper-cased pair, and 0.3 when the source or the target is missing.
   */
  function GetTransitionDuration(m: GlossMapper, fromWord: string, toWord: string): (d: real)
    ensures var f, t := Upper(fromWord), Upper(toWord);
      d == if f in m.transitionRules && t in m.transitionRules[f] then m.transitionRules[f][t] else DefaultTransition
  {
    var fromRules := var f := Upper(fromWord); if f in m.transitionRules then m.transitionRules[f] else map[];
    var t := Upper(toWord);
    if t in fromRules then fromRules[t] else DefaultTransition
  }

  /**
   * With the engine's own tables every transition lasts between 0.2 and 0.5
   * seconds, and a word with no pose of its own as source always gets 0.3.
   */
  lemma TransitionDurationOfRules(fromWord: string, toWord: string)
    ensures 0.2 <= GetTransitionDuration(NewGlossMapper(), fromWord, toWord) <= 0.5
    ensures Upper(fromWord) !in SignedWords + {"DEFAULT"} ==>
      GetTransitionDuration(NewGlossMapper(), fromWord, toWord) == DefaultTransition
  {
    TransitionRulesShape();
  }

  // ---------------------------------------------------------------------
  // Parsing a gloss
  // ---------------------------------------------------------------------

  function StripAll(ws: seq<string>): (r: seq<string>)
    ensures |r| == |ws| && forall i :: 0 <= i < |ws| ==> r[i] == Strip(ws[i])
  {
    seq(|ws|, i requires 0 <= i < |ws| => Strip(ws[i]))
  }

  function DropEmpty(ws: seq<string>): (r: seq<string>)
    ensures (forall i :: 0 <= i < |ws| ==> ws[i] != []) ==> r == ws
  {
    if ws == [] then [] else (if ws[0] == [] then [] else [ws[0]]) + DropEmpty(ws[1..])
  }

  function HyphenCount(w: string): nat {
    if w == [] then 0 else (if w[0] == '-' then 1 else 0) + HyphenCount(w[1..])
  }

  /** The compound-sign pass: a word with exactly one hyphen is kept, and so is every other word. */
  function KeepCompounds(ws: seq<string>): seq<string> {
    seq(|ws|, i requires 0 <= i < |ws| => if '-' in ws[i] && HyphenCount(ws[i]) == 1 then ws[i] else ws[i])
  }

  /**
   * `AvatarAnimationEngine._parse_gloss`: the whitespace-separated tokens of
   * the gloss, stripped, empty ones dropped, compounds kept. Since `split()`
   * tokens are already stripped and non-empty, this is exactly `split()`.
   */
  function ParseGloss(islGloss: string): (words: seq<string>)
    ensures words == Split(islGloss)
    ensures forall i :: 0 <= i < |words| ==> IsWord(words[i])
  {
    var tokens := Split(islGloss);
    forall i | 0 <= i < |tokens| ensures Strip(tokens[i]) == tokens[i] {
      StripByNoop(tokens[i], IsSpace);
    }
    var stripped := StripAll(tokens);
    assert stripped == tokens;
    var kept := DropEmpty(stripped);
    assert kept == tokens by {
      assert forall i :: 0 <= i < |stripped| ==> stripped[i] != [];
    }
    assert KeepCompounds(kept) == tokens;
    KeepCompounds(kept)
  }

  /** Parsing the single-space join of words gives the words back. */
  lemma ParseGlossJoin(words: seq<string>)
    requires forall i :: 0 <= i < |words| ==> IsWord(words[i])
    ensures ParseGloss(Join(words, " ")) == words
  {
    SplitJoin(words);
  }

  // ---------------------------------------------------------------------
  // The keyframe timeline
  // ---------------------------------------------------------------------

  function SumDurations(kfs: seq<KeyFrame>): real {
    if kfs == [] then 0.0 else kfs[0].duration + SumDurations(kfs[1..])
  }

  function PoseDuration(m: GlossMapper, word: string): real
    requires HasDefaultPose(m)
  {
    SumDurations(GetPose(m, word).keyframes)
  }

  /** The transition inserted before word `i`: none before the first word. */
  function TransitionBefore(m: GlossMapper, words: seq<string>, i: nat): real
    requires i < |words|
  {
    if i == 0 then 0.0 else GetTransitionDuration(m, words[i - 1], words[i])
  }

  /** The running `current_time` once the first `n` words are laid out. */
  function Clock(m: GlossMapper, words: seq<string>, n: nat): real
    requires HasDefaultPose(m) && n <= |words|
  {
    if n == 0 then 0.0 else Clock(m, words, n - 1) + TransitionBefore(m, words, n - 1) + PoseDuration(m, words[n - 1])
  }

  /** The time at which word `i` starts. */
  function Start(m: GlossMapper, words: seq<string>, i: nat): real
    requires HasDefaultPose(m) && i < |words|
  {
    Clock(m, words, i) + TransitionBefore(m, words, i)
  }

  /** A template keyframe copied to start time `t`. */
  function Place(kf: KeyFrame, t: real): KeyFrame {
    KeyFrame(t + kf.timestamp, kf.joints, kf.duration)
  }

  function Shifted(kfs: seq<KeyFrame>, t: real): (r: seq<KeyFrame>)
    ensures |r| == |kfs|
  {
    seq(|kfs|, j requires 0 <= j < |kfs| => Place(kfs[j], t))
  }

  /** The keyframes contributed by the first `n` words. */
  function PlacedFrames(m: GlossMapper, words: seq<string>, n: nat): seq<KeyFrame>
    requires HasDefaultPose(m) && n <= |words|
  {
    if n == 0 then []
    else PlacedFrames(m, words, n - 1) + Shifted(GetPose(m, words[n - 1]).keyframes, Start(m, words, n - 1))
  }

  const RestDuration: real := 0.5

  /** The rest keyframe appended once the gloss ends at `endTime`. */
  function RestFrame(m: GlossMapper, endTime: real): KeyFrame
    requires HasDefaultPose(m)
  {
    KeyFrame(endTime + RestDuration, GetPose(m, "DEFAULT").keyframes[0].joints, RestDuration)
  }

  /**
   * What `_generate_keyframe_sequence` returns for a list of gloss words:
   * one keyframe per template keyframe of every word, then exactly one rest
   * frame that holds the default pose for half a second.
   */
  function KeyframeSequence(m: GlossMapper, words: seq<string>): (r: seq<KeyFrame>)
    requires HasDefaultPose(m)
    ensures |r| == KeyframeTotal(m, words, |words|) + 1
    ensures r[|r| - 1].joints == GetPose(m, "DEFAULT").keyframes[0].joints && r[|r| - 1].duration == RestDuration
  {
    PlacedFramesLength(m, words, |words|);
    PlacedFrames(m, words, |words|) + [RestFrame(m, Clock(m, words, |words|))]
  }

  lemma ShiftedSnoc(kfs: seq<KeyFrame>, j: nat, t: real)
    requires j < |kfs|
    ensures Shifted(kfs[..j + 1], t) == Shifted(kfs[..j], t) + [Place(kfs[j], t)]
  {
  }

  lemma PlacedStep(m: GlossMapper, words: seq<string>, i: nat)
    requires HasDefaultPose(m) && i < |words|
    ensures PlacedFrames(m, words, i + 1) == PlacedFrames(m, words, i) + Shifted(GetPose(m, words[i]).keyframes, Start(m, words, i))
    ensures Clock(m, words, i + 1) == Start(m, words, i) + SumDurations(GetPose(m, words[i]).keyframes)
  {
  }

  /** `AvatarAnimationEngine._generate_keyframe_sequence`, loop for loop. */
  method GenerateKeyframeSequence(m: GlossMapper, glossWords: seq<string>) returns (keyframes: seq<KeyFrame>)
    requires HasDefaultPose(m)
    ensures keyframes == KeyframeSequence(m, glossWords)
  {
    keyframes := [];
    var currentTime := 0.0;
    var previousPose := "DEFAULT";
    for i := 0 to |glossWords|
      invariant keyframes == PlacedFrames(m, glossWords, i)
      invariant currentTime == Clock(m, glossWords, i)
      invariant i > 0 ==> previousPose == glossWords[i - 1]
    {
      var word := glossWords[i];
      var pose := GetPose(m, word);
      if i > 0 {
        var transitionDuration := GetTransitionDuration(m, previousPose, word);
        currentTime := currentTime + transitionDuration;
      }
      assert currentTime == Start(m, glossWords, i);
      ghost var placed := keyframes;
      for j := 0 to |pose.keyframes|
        invariant keyframes == placed + Shifted(pose.keyframes[..j], currentTime)
      {
        var keyframe := pose.keyframes[j];
        var adjusted := KeyFrame(currentTime + keyframe.timestamp, keyframe.joints, keyframe.duration);
        ShiftedSnoc(pose.keyframes, j, currentTime);
        keyframes := keyframes + [adjusted];
      }
      assert pose.keyframes[..|pose.keyframes|] == pose.keyframes;
      PlacedStep(m, glossWords, i);
      currentTime := currentTime + SumDurations(pose.keyframes);
      previousPose := word;
    }
    var restKeyframe := KeyFrame(currentTime + 0.5, GetPose(m, "DEFAULT").keyframes[0].joints, 0.5);
    keyframes := keyframes + [restKeyframe];
  }

  // ---------------------------------------------------------------------
  // Properties of the timeline
  // ---------------------------------------------------------------------

  /** The number of template keyframes of the first `n` words. */
  function KeyframeTotal(m: GlossMapper, words: seq<string>, n: nat): nat
    requires HasDefaultPose(m) && n <= |words|
  {
    if n == 0 then 0 else KeyframeTotal(m, words, n - 1) + |GetPose(m, words[n - 1]).keyframes|
  }

  lemma {:induction false} PlacedFramesLength(m: GlossMapper, words: seq<string>, n: nat)
    requires HasDefaultPose(m) && n <= |words|
    ensures |PlacedFrames(m, words, n)| == KeyframeTotal(m, words, n)
  {
    if n > 0 {
      PlacedFramesLength(m, words, n - 1);
    }
  }

  lemma {:induction false} PlacedFrameAt(m: GlossMapper, words: seq<string>, n: nat, i: nat, j: nat)
    requires HasDefaultPose(m) && i < n <= |words| && j < |GetPose(m, words[i]).keyframes|
    ensures KeyframeTotal(m, words, i) + j < |PlacedFrames(m, words, n)|
    ensures PlacedFrames(m, words, n)[KeyframeTotal(m, words, i) + j] == Place(GetPose(m, words[i]).keyframes[j], Start(m, words, i))
  {
    var k := KeyframeTotal(m, words, i) + j;
    var goal := Place(GetPose(m, words[i]).keyframes[j], Start(m, words, i));
    var prefix := PlacedFrames(m, words, n - 1);
    var last := Shifted(GetPose(m, words[n - 1]).keyframes, Start(m, words, n - 1));
    PlacedFramesLength(m, words, n - 1);
    if i < n - 1 {
      PlacedFrameAt(m, words, n - 1, i, j);
      IndexOfConcat(prefix, last, k, goal);
    } else {
      assert k == |prefix| + j && last[j] == goal;
      IndexOfConcat(prefix, last, k, goal);
    }
    assert PlacedFrames(m, words, n) == prefix + last;
  }

  lemma IndexOfConcat(prefix: seq<KeyFrame>, last: seq<KeyFrame>, k: nat, x: KeyFrame)
    requires (k < |prefix| && prefix[k] == x) || (|prefix| <= k < |prefix| + |last| && last[k - |prefix|] == x)
    ensures k < |prefix + last| && (prefix + last)[k] == x
  {
  }

  /**
   * Keyframe `j` of word `i` sits at index (keyframes of the words before
   * `i`) + `j`, keeps its joints and duration, and is shifted by the time
   * word `i` starts.
   */
  lemma FrameOfWord(m: GlossMapper, words: seq<string>, i: nat, j: nat)
    requires HasDefaultPose(m) && i < |words| && j < |GetPose(m, words[i]).keyframes|
    ensures var ks, kf, k := KeyframeSequence(m, words), GetPose(m, words[i]).keyframes[j], KeyframeTotal(m, words, i) + j;
      && k < |ks| - 1
      && ks[k] == KeyFrame(Start(m, words, i) + kf.timestamp, kf.joints, kf.duration)
  {
    PlacedFrameAt(m, words, |words|, i, j);
    PlacedFramesLength(m, words, |words|);
  }

  /**
   * The first word starts at 0 with no transition; every later word starts
   * at the previous word's start, plus the total duration of the previous
   * pose, plus the transition from the previous word to this one.
   */
  lemma StartRule(m: GlossMapper, words: seq<string>, i: nat)
    requires HasDefaultPose(m) && i < |words|
    ensures i == 0 ==> Start(m, words, i) == 0.0
    ensures i > 0 ==>
      Start(m, words, i) == Start(m, words, i - 1) + PoseDuration(m, words[i - 1]) + GetTransitionDuration(m, words[i - 1], words[i])
  {
  }

  /** The sum of the pose durations of the first `n` words. */
  function TotalPoseDuration(m: GlossMapper, words: seq<string>, n: nat): real
    requires HasDefaultPose(m) && n <= |words|
  {
    if n == 0 then 0.0 else TotalPoseDuration(m, words, n - 1) + PoseDuration(m, words[n - 1])
  }

  /** The sum of the transitions inserted among the first `n` words. */
  function TotalTransition(m: GlossMapper, words: seq<string>, n: nat): real
    requires n <= |words|
  {
    if n == 0 then 0.0 else TotalTransition(m, words, n - 1) + TransitionBefore(m, words, n - 1)
  }

  /** The end time of the gloss is its pose durations plus its transitions. */
  lemma {:induction false} ClockClosedForm(m: GlossMapper, words: seq<string>, n: nat)
    requires HasDefaultPose(m) && n <= |words|
    ensures Clock(m, words, n) == TotalPoseDuration(m, words, n) + TotalTransition(m, words, n)
  {
    if n > 0 {
      ClockClosedForm(m, words, n - 1);
    }
  }

  /**
   * The last keyframe is the rest frame: duration 0.5, DEFAULT's first-frame
   * joints, at the accumulated end time plus 0.5. An empty gloss yields that
   * one frame alone, at 0.5.
   */
  lemma FinalRestFrame(m: GlossMapper, words: seq<string>)
    requires HasDefaultPose(m)
    ensures var ks := KeyframeSequence(m, words);
      && ks[|ks| - 1].duration == 0.5
      && ks[|ks| - 1].timestamp == TotalPoseDuration(m, words, |words|) + TotalTransition(m, words, |words|) + 0.5
      && ks[|ks| - 1].joints == GetPose(m, "DEFAULT").keyframes[0].joints
    ensures KeyframeSequence(m, []) == [KeyFrame(0.5, GetPose(m, "DEFAULT").keyframes[0].joints, 0.5)]
  {
    ClockClosedForm(m, words, |words|);
  }

  /** With the engine's own tables the rest frame holds the DEFAULT pose's joints. */
  lemma RestJointsOfLibrary()
    ensures GetPose(NewGlossMapper(), "DEFAULT").keyframes[0].joints == DefaultJoints()
  {
    GetPoseOfLibrary("DEFAULT");
  }

  lemma {:induction false} SumDurationsAppend(a: seq<KeyFrame>, b: seq<KeyFrame>)
    ensures SumDurations(a + b) == SumDurations(a) + SumDurations(b)
  {
    if a == [] {
      assert a + b == b;
    } else {
      assert (a + b)[1..] == a[1..] + b;
      SumDurationsAppend(a[1..], b);
    }
  }

  lemma {:induction false} SumDurationsShifted(kfs: seq<KeyFrame>, t: real)
    ensures SumDurations(Shifted(kfs, t)) == SumDurations(kfs)
  {
    if kfs != [] {
      assert Shifted(kfs, t)[1..] == Shifted(kfs[1..], t);
      SumDurationsShifted(kfs[1..], t);
    }
  }

  lemma {:induction false} PlacedFramesDuration(m: GlossMapper, words: seq<string>, n: nat)
    requires HasDefaultPose(m) && n <= |words|
    ensures SumDurations(PlacedFrames(m, words, n)) == TotalPoseDuration(m, words, n)
  {
    if n > 0 {
      PlacedFramesDuration(m, words, n - 1);
      var kfs := GetPose(m, words[n - 1]).keyframes;
      SumDurationsAppend(PlacedFrames(m, words, n - 1), Shifted(kfs, Start(m, words, n - 1)));
      SumDurationsShifted(kfs, Start(m, words, n - 1));
    }
  }

  /** The sum of all keyframe durations counts the poses and the rest frame, but no transition. */
  lemma KeyframeDurationTotal(m: GlossMapper, words: seq<string>)
    requires HasDefaultPose(m)
    ensures SumDurations(KeyframeSequence(m, words)) == TotalPoseDuration(m, words, |words|) + RestDuration
  {
    PlacedFramesDuration(m, words, |words|);
    SumDurationsAppend(PlacedFrames(m, words, |words|), [RestFrame(m, Clock(m, words, |words|))]);
    assert SumDurations([RestFrame(m, Clock(m, words, |words|))]) == RestDuration by {
      assert [RestFrame(m, Clock(m, words, |words|))][1..] == [];
    }
  }

  // ---------------------------------------------------------------------
  // The frame list
  // ---------------------------------------------------------------------

  datatype Interpolation = Linear | Hold

  datatype AnimationFrame = AnimationFrame(frameNumber: nat, timestamp: real, duration: real, joints: Joints,
                                           interpolation: Interpolation)

  datatype VideoData = VideoData(format: string, version: string, frames: seq<AnimationFrame>, totalFrames: nat,
                                 duration: real, fps: nat, width: nat, height: nat)

  const VideoFormatName: string := "isl_animation_data"
  const VideoVersion: string := "1.0"

  /** The video record `_generate_video_frames` encodes for a keyframe list. */
  predicate IsVideoOf(keyframes: seq<KeyFrame>, v: VideoData) {
    && v.format == VideoFormatName && v.version == VideoVersion
    && v.fps == Fps && v.width == VideoWidth && v.height == VideoHeight
    && |v.frames| == |keyframes| && v.totalFrames == |v.frames|
    && (forall i :: 0 <= i < |keyframes| ==>
          && v.frames[i].frameNumber == i
          && v.frames[i].timestamp == keyframes[i].timestamp
          && v.frames[i].duration == keyframes[i].duration
          && v.frames[i].joints == keyframes[i].joints
          && (v.frames[i].interpolation == Hold <==> i == |keyframes| - 1))
    && v.duration == if keyframes == [] then 0.0 else keyframes[|keyframes| - 1].timestamp + keyframes[|keyframes| - 1].duration
  }

  /**
   * `AvatarAnimationEngine._generate_video_frames`: one frame per keyframe,
   * numbered by index, "linear" except the last which is "hold", and the
   * video's duration is where the last keyframe ends.
   */
  method GenerateVideoFrames(keyframes: seq<KeyFrame>) returns (video: VideoData)
    ensures IsVideoOf(keyframes, video)
  {
    var animationFrames: seq<AnimationFrame> := [];
    for i := 0 to |keyframes|
      invariant |animationFrames| == i
      invariant forall k :: 0 <= k < i ==>
        && animationFrames[k].frameNumber == k
        && animationFrames[k].timestamp == keyframes[k].timestamp
        && animationFrames[k].duration == keyframes[k].duration
        && animationFrames[k].joints == keyframes[k].joints
        && (animationFrames[k].interpolation == Hold <==> k == |keyframes| - 1)
    {
      var keyframe := keyframes[i];
      var interpolation := if i < |keyframes| - 1 then Linear else Hold;
      var frameData := AnimationFrame(i, keyframe.timestamp, keyframe.duration, keyframe.joints, interpolation);
      animationFrames := animationFrames + [frameData];
    }
    var duration := if keyframes != [] then keyframes[|keyframes| - 1].timestamp + keyframes[|keyframes| - 1].duration else 0.0;
    video := VideoData(VideoFormatName, VideoVersion, animationFrames, |animationFrames|, duration, Fps, VideoWidth, VideoHeight);
  }

  /**
   * The video runs past the summary's total duration by exactly the
   * transitions plus 0.5 s: the summary adds the rest frame's duration but
   * no transition, while the video ends where the rest frame ends.
   */
  lemma VideoOutlastsSummary(m: GlossMapper, words: seq<string>, v: VideoData)
    requires HasDefaultPose(m) && IsVideoOf(KeyframeSequence(m, words), v)
    ensures v.totalFrames == KeyframeTotal(m, words, |words|) + 1
    ensures v.duration == SumDurations(KeyframeSequence(m, words)) + TotalTransition(m, words, |words|) + RestDuration
  {
    KeyframeDurationTotal(m, words);
    FinalRestFrame(m, words);
  }

  // ---------------------------------------------------------------------
  // The animation summary
  // ---------------------------------------------------------------------

  /** Python's `int()` on a float: truncation toward zero. */
  function Trunc(x: real): (n: int)
    ensures 0.0 <= x ==> n as real <= x < n as real + 1.0
    ensures x < 0.0 ==> n as real - 1.0 < x <= n as real
  {
    if x >= 0.0 then x.Floor else -((-x).Floor)
  }

  datatype AnimationData = AnimationData(
    glossInput: string,
    parsedWords: seq<string>,
    totalDurationSeconds: real,
    frameCount: int,
    fps: nat,
    resolution: string,
    keyframeCount: nat,
    videoFormat: string,
    videoData: Option<VideoData>,  // None stands for an empty `video_data_base64`
    timestamp: real)

  /**
   * `data` is the summary generated from `islGloss` at `now`: every field
   * the stream's metadata message reports, and the frame list.
   */
  ghost predicate IsAnimationOf(m: GlossMapper, islGloss: string, now: real, data: AnimationData) {
    && ValidMapper(m)
    && var words := Split(islGloss);
    && data.glossInput == islGloss && data.parsedWords == words && data.timestamp == now
    && data.keyframeCount == KeyframeTotal(m, words, |words|) + 1
    && data.totalDurationSeconds == TotalPoseDuration(m, words, |words|) + RestDuration
    && data.frameCount == Trunc(data.totalDurationSeconds * Fps as real)
    && data.fps == Fps && data.resolution == Resolution && data.videoFormat == "webm"
    && data.videoData.Some? && IsVideoOf(KeyframeSequence(m, words), data.videoData.value)
  }

  /**
   * `AvatarAnimationEngine.generate_animation_sequence`; `now` is the
   * wall-clock reading stored as the timestamp.
   */
  method GenerateAnimationSequence(m: GlossMapper, islGloss: string, now: real) returns (data: AnimationData)
    requires ValidMapper(m)
    ensures data.glossInput == islGloss && data.timestamp == now
    ensures data.parsedWords == Split(islGloss)
    ensures data.keyframeCount == KeyframeTotal(m, data.parsedWords, |data.parsedWords|) + 1
    ensures data.totalDurationSeconds == TotalPoseDuration(m, data.parsedWords, |data.parsedWords|) + RestDuration
    ensures data.frameCount == Trunc(data.totalDurationSeconds * Fps as real) && data.frameCount >= 0
    ensures data.fps == Fps && data.resolution == Resolution && data.videoFormat == "webm"
    ensures data.videoData.Some? && IsVideoOf(KeyframeSequence(m, data.parsedWords), data.videoData.value)
  {
    var glossWords := ParseGloss(islGloss);
    var keyframes := GenerateKeyframeSequence(m, glossWords);
    KeyframeDurationTotal(m, glossWords);
    var totalDuration := SumDurations(keyframes);
    assert totalDuration >= 0.0 by {
      PoseDurationsNonNegative(m, glossWords, |glossWords|);
    }
    var frameCount := Trunc(totalDuration * Fps as real);
    var videoData := GenerateVideoFrames(keyframes);
    data := AnimationData(islGloss, glossWords, totalDuration, frameCount, Fps, Resolution, |keyframes|, "webm",
                          Some(videoData), now);
  }

  lemma {:induction false} SumDurationsPositive(kfs: seq<KeyFrame>)
    requires forall j :: 0 <= j < |kfs| ==> kfs[j].duration > 0.0
    ensures SumDurations(kfs) >= 0.0
    ensures kfs != [] ==> SumDurations(kfs) > 0.0
  {
    if kfs != [] {
      SumDurationsPositive(kfs[1..]);
    }
  }

  lemma {:induction false} PoseDurationsNonNegative(m: GlossMapper, words: seq<string>, n: nat)
    requires ValidMapper(m) && n <= |words|
    ensures TotalPoseDuration(m, words, n) >= 0.0
  {
    if n > 0 {
      PoseDurationsNonNegative(m, words, n - 1);
      SumDurationsPositive(GetPose(m, words[n - 1]).keyframes);
    }
  }

  // ---------------------------------------------------------------------
  // Stream URLs
  // ---------------------------------------------------------------------

  const StreamBaseUrl: string := "ws://localhost:8000/avatar/stream"

  predicate IsHexDigit(c: char) { '0' <= c <= '9' || 'a' <= c <= 'f' }

  /** The first 12 characters of an MD5 hex digest. */
  predicate IsStreamHash(h: string) {
    |h| == 12 && forall i :: 0 <= i < |h| ==> IsHexDigit(h[i])
  }

  /**
   * Python's `str()` of an `int`: the decimal digits of `n`, after a minus
   * sign when `n` is negative.
   */
  function IntToString(n: int): (r: string)
    ensures '/' !in r
    ensures n >= 0 ==> DecimalValue(r) == n && '-' !in r
    ensures n < 0 ==> r != [] && r[0] == '-' && DecimalValue(r[1..]) == -n
  {
    if n < 0 then "-" + NatToString(-n) else NatToString(n)
  }

  const StreamIdPrefix: string := "isl_avatar_"

  /**
   * The stream id for a content hash and the animation's timestamp. It starts
   * with "isl_avatar_"; built from a 12-digit hex hash it contains no `/`.
   */
  function StreamId(hash: string, timestamp: real): (r: string)
    ensures StreamIdPrefix <= r
    ensures IsStreamHash(hash) ==> '/' !in r
  {
    var stamp := IntToString(Trunc(timestamp));
    assert IsStreamHash(hash) ==> '/' !in hash by {
      if IsStreamHash(hash) {
        forall i | 0 <= i < |hash| ensures hash[i] != '/' {
          assert IsHexDigit(hash[i]);
        }
      }
    }
    StreamIdPrefix + hash + "_" + stamp
  }

  /**
   * `AvatarAnimationEngine.generate_stream_url`; the MD5 digest prefix is
   * given as `hash`. The URL lies under the stream base URL, and its last
   * `/` segment is the stream id.
   */
  function GenerateStreamUrl(hash: string, timestamp: real): (r: string)
    ensures |StreamBaseUrl| < |r| && r[..|StreamBaseUrl| + 1] == StreamBaseUrl + "/"
    ensures IsStreamHash(hash) ==> LastSegment(r, '/') == StreamId(hash, timestamp)
  {
    var id := StreamId(hash, timestamp);
    assert IsStreamHash(hash) ==> LastSegment(StreamBaseUrl + ['/'] + id, '/') == id by {
      if IsStreamHash(hash) {
        LastSegmentAfter(StreamBaseUrl, '/', id);
      }
    }
    StreamBaseUrl + "/" + id
  }

  /**
   * The URL `generate_avatar_animation` returns when generation fails: under
   * the stream base URL, with last segment "fallback_" and the truncated time.
   */
  function FallbackUrl(now: real): (r: string)
    ensures |StreamBaseUrl| < |r| && r[..|StreamBaseUrl| + 1] == StreamBaseUrl + "/"
    ensures LastSegment(r, '/') == "fallback_" + IntToString(Trunc(now))
  {
    var fb := "fallback_" + IntToString(Trunc(now));
    assert '/' !in fb;
    LastSegmentAfter(StreamBaseUrl, '/', fb);
    assert StreamBaseUrl + "/fallback_" + IntToString(Trunc(now)) == StreamBaseUrl + ['/'] + fb;
    StreamBaseUrl + "/fallback_" + IntToString(Trunc(now))
  }

  /** A fallback URL's last segment begins with "fallback_", so it is never a stream id. */
  lemma FallbackSegment(hash: string, timestamp: real, now: real)
    ensures LastSegment(FallbackUrl(now), '/') != StreamId(hash, timestamp)
  {
    assert LastSegment(FallbackUrl(now), '/')[0] != StreamId(hash, timestamp)[0];
  }
}
