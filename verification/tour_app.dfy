/**
 * The inline logic of the Streamlit page of the audio tour agent: the
 * interest checkboxes, the guard in front of the tour manager, the session
 * state the two buttons update, and the names and URLs the page derives
 * from the location. Rendering and speech synthesis are external.
 */
module TourApp {
  import opened Wrappers
  import opened Text
  import opened Agents
  import opened InsertionDict
  import opened TourPrompts
  import opened TourManager

  // ---------------------------------------------------------------------
  // Interest checkboxes
  // ---------------------------------------------------------------------

  /** The four checkboxes, in the order they are laid out and read. */
  const InterestOptions: seq<string> := ["Architecture", "History", "Culinary", "Culture"]

  datatype Ticks = Ticks(architecture: bool, history: bool, culinary: bool, culture: bool)

  function TickList(t: Ticks): (r: seq<bool>)
    ensures |r| == |InterestOptions|
  {
    [t.architecture, t.history, t.culinary, t.culture]
  }

  /** Appending each ticked option to an initially empty list, in option order. */
  function Selected(options: seq<string>, ticks: seq<bool>): (r: seq<string>)
    requires |ticks| == |options|
    ensures |r| <= |options|
  {
    if |options| == 0 then []
    else (if ticks[0] then [options[0]] else []) + Selected(options[1..], ticks[1..])
  }

  /** The `interests` list the page hands to the manager. */
  function SelectedInterests(t: Ticks): seq<string> {
    Selected(InterestOptions, TickList(t))
  }

  /** The selection only ever holds options. */
  lemma {:induction false} SelectedSubset(options: seq<string>, ticks: seq<bool>)
    requires |ticks| == |options|
    ensures forall x :: x in Selected(options, ticks) ==> x in options
    decreases |options|
  {
    if |options| > 0 {
      SelectedSubset(options[1..], ticks[1..]);
    }
  }

  /** Dropping the head of a duplicate-free list leaves a duplicate-free list without the head. */
  lemma DistinctTail(options: seq<string>)
    requires |options| > 0 && Distinct(options)
    ensures Distinct(options[1..]) && options[0] !in options[1..]
  {
    var rest := options[1..];
    forall i, j | 0 <= i < j < |rest| ensures rest[i] != rest[j] {
      assert rest[i] == options[i + 1] && rest[j] == options[j + 1];
    }
    forall i | 0 <= i < |rest| ensures rest[i] != options[0] {
      assert rest[i] == options[i + 1];
    }
  }

  /** Over distinct options, an option is selected exactly when its box is ticked. */
  lemma {:induction false} SelectedMembership(options: seq<string>, ticks: seq<bool>)
    requires |ticks| == |options|
    requires Distinct(options)
    ensures forall i :: 0 <= i < |options| ==> (options[i] in Selected(options, ticks) <==> ticks[i])
    decreases |options|
  {
    if |options| > 0 {
      var rest, tail := options[1..], ticks[1..];
      DistinctTail(options);
      SelectedMembership(rest, tail);
      SelectedSubset(rest, tail);
      var r := Selected(options, ticks);
      forall i | 0 <= i < |options|
        ensures options[i] in r <==> ticks[i]
      {
        if i > 0 {
          assert options[i] == rest[i - 1] && ticks[i] == tail[i - 1];
          assert options[i] != options[0];
        }
      }
    }
  }

  /** Over distinct options, the selection keeps the options' order. */
  lemma {:induction false} SelectedOrder(options: seq<string>, ticks: seq<bool>)
    requires |ticks| == |options|
    requires Distinct(options)
    ensures forall x :: x in Selected(options, ticks) ==> x in options
    ensures forall i, j :: 0 <= i < j < |Selected(options, ticks)| ==>
              FirstIndex(options, Selected(options, ticks)[i]) < FirstIndex(options, Selected(options, ticks)[j])
    decreases |options|
  {
    SelectedSubset(options, ticks);
    if |options| > 0 {
      var rest, tail := options[1..], ticks[1..];
      DistinctTail(options);
      SelectedOrder(rest, tail);
      var sr := Selected(rest, tail);
      var r := Selected(options, ticks);
      var head: seq<string> := if ticks[0] then [options[0]] else [];
      assert r == head + sr;
      forall i, j | 0 <= i < j < |r|
        ensures FirstIndex(options, r[i]) < FirstIndex(options, r[j])
      {
        var h := |head|;
        assert r[j] == sr[j - h];
        FirstIndexTail(options, sr[j - h]);
        if i >= h {
          assert r[i] == sr[i - h];
          FirstIndexTail(options, sr[i - h]);
        }
      }
    }
  }

  /** Past a head that differs from `x`, `x` is found one position later than in the tail. */
  lemma FirstIndexTail(xs: seq<string>, x: string)
    requires |xs| > 0 && x in xs[1..] && x != xs[0]
    ensures FirstIndex(xs, x) == FirstIndex(xs[1..], x) + 1
  {
  }

  /**
   * The page's interest list contains exactly the ticked boxes, in checkbox
   * order, without duplicates, and every entry has a specialist, so the
   * manager filters none of them out.
   */
  lemma SelectedInterestsSpec(t: Ticks)
    ensures var r := SelectedInterests(t);
            && (forall i :: 0 <= i < |InterestOptions| ==> (InterestOptions[i] in r <==> TickList(t)[i]))
            && (forall x :: x in r ==> x in InterestOptions)
            && (forall i, j :: 0 <= i < j < |r| ==>
                  FirstIndex(InterestOptions, r[i]) < FirstIndex(InterestOptions, r[j]))
            && Distinct(r)
            && KnownInterests(r) == r
  {
    var r := SelectedInterests(t);
    assert Distinct(InterestOptions);
    SelectedMembership(InterestOptions, TickList(t));
    SelectedOrder(InterestOptions, TickList(t));
    forall i, j | 0 <= i < j < |r| ensures r[i] != r[j] {
      assert FirstIndex(InterestOptions, r[i]) < FirstIndex(InterestOptions, r[j]);
    }
    assert forall x :: x in r ==> HasSpecialist(x);
    KnownInterestsAllKnown(r);
  }

  // ---------------------------------------------------------------------
  // Session state and the "Generate Tour" button
  // ---------------------------------------------------------------------

  /** `st.session_state.tour_content` and `st.session_state.audio_path`; a new browser session has neither. */
  datatype Session = Session(tourContent: Option<string>, audioPath: Option<string>)

  /** The message the page shows after the button is pressed. */
  datatype Notice = MissingApiKey | MissingLocation | MissingInterests | TourError(message: string) | TourReady

  /** An audio path is only ever recorded for a tour that is on display. */
  predicate Consistent(s: Session) {
    s.audioPath.Some? ==> s.tourContent.Some?
  }

  /**
   * Pressing "Generate Tour". Without an API key the page stops before the
   * button is shown; an empty location or an empty interest list stops
   * before any model call; otherwise the manager runs and either its text
   * replaces the stored tour and clears the audio, or its exception is
   * reported and the session is left as it was. The manager runs with the
   * source's prompt texts, `SourcePrompts`.
   */
  method OnGenerateTour(session: Session, apiKey: string, location: string, ticks: Ticks, duration: int, service: Service)
    returns (next: Session, notice: Notice, trace: seq<Call>)
    ensures |apiKey| == 0 ==> notice == MissingApiKey
    ensures |apiKey| > 0 && |location| == 0 ==> notice == MissingLocation
    ensures |apiKey| > 0 && |location| > 0 && |SelectedInterests(ticks)| == 0 ==> notice == MissingInterests
    // The manager runs exactly when every guard passes.
    ensures |trace| > 0 <==> |apiKey| > 0 && |location| > 0 && |SelectedInterests(ticks)| > 0
    ensures |trace| == 0 ==> next == session
    // The calls are exactly those of a pipeline run on the ticked interests.
    ensures |trace| > 0 ==> SourceTourRun(location, SelectedInterests(ticks), duration, service, trace)
    // Success stores the reply of the last call and resets the audio.
    ensures notice == TourReady <==>
              |trace| > 0 && service(|trace| - 1, trace[|trace| - 1]).Success?
    ensures notice == TourReady ==>
              next == Session(Some(service(|trace| - 1, trace[|trace| - 1]).value), None)
    // A failure reports the exception and keeps the previous state.
    ensures |trace| > 0 && service(|trace| - 1, trace[|trace| - 1]).Failure? ==>
              && notice == TourError(service(|trace| - 1, trace[|trace| - 1]).error)
              && next == session
    ensures notice.TourError? ==> |trace| > 0
    ensures Consistent(session) ==> Consistent(next)
  {
    trace := [];
    next := session;
    if |apiKey| == 0 {
      return next, MissingApiKey, trace;
    }
    if |location| == 0 {
      return next, MissingLocation, trace;
    }
    var interests := SelectedInterests(ticks);
    if |interests| == 0 {
      return next, MissingInterests, trace;
    }
    var result;
    result, trace := GenerateSourceTour(location, interests, duration, service);
    if result.Failure? {
      notice := TourError(result.error);
    } else {
      next := Session(Some(result.value), None);
      notice := TourReady;
    }
  }

  /** The tour is rendered (and the audio section offered) when the stored text is non-empty. */
  predicate ShowsTour(s: Session) {
    s.tourContent.Some? && |s.tourContent.value| > 0
  }

  // ---------------------------------------------------------------------
  // File names
  // ---------------------------------------------------------------------

  /** `location.replace(' ', '_')`. */
  function FileStem(location: string): (r: string)
    ensures |r| == |location|
    ensures forall i :: 0 <= i < |location| ==> r[i] == (if location[i] == ' ' then '_' else location[i])
  {
    ReplaceCharPointwise(location, " ", "_");
    ReplaceAll(location, " ", "_")
  }

  lemma FileStemHasNoSpace(location: string)
    ensures ' ' !in FileStem(location)
  {
    var r := FileStem(location);
    forall i | 0 <= i < |r| ensures r[i] != ' ' {}
  }

  /**
   * Encoding the stem again changes nothing, so a location and its
   * underscored spelling share their file names.
   */
  lemma FileStemIdempotent(location: string)
    ensures FileStem(FileStem(location)) == FileStem(location)
  {
    FileStemHasNoSpace(location);
    var s := FileStem(location);
    assert forall i :: 0 <= i < |s| ==> s[i] != ' ';
  }

  const TextSuffix := "_tour.txt"
  const AudioSuffix := "_tour.mp3"
  const AudioDir := "audio_tours"

  /** The download name of the tour text. */
  function TextFileName(location: string): (r: string)
    ensures ' ' !in r
    ensures |r| == |location| + |TextSuffix|
    ensures forall i :: 0 <= i < |location| ==> r[i] == (if location[i] == ' ' then '_' else location[i])
    ensures r[|location|..] == TextSuffix
  {
    FileStemHasNoSpace(location);
    FileStem(location) + TextSuffix
  }

  /** The file name of the generated audio. */
  function AudioFileName(location: string): (r: string)
    ensures ' ' !in r
    ensures |r| == |location| + |AudioSuffix|
    ensures forall i :: 0 <= i < |location| ==> r[i] == (if location[i] == ' ' then '_' else location[i])
    ensures r[|location|..] == AudioSuffix
  {
    FileStemHasNoSpace(location);
    FileStem(location) + AudioSuffix
  }

  /** The text and the audio file are named after the same stem. */
  lemma FileNamesShareStem(location: string)
    ensures TextFileName(location)[..|location|] == FileStem(location)
    ensures AudioFileName(location)[..|location|] == FileStem(location)
    ensures TextFileName(location) == TextFileName(FileStem(location))
  {
    FileStemIdempotent(location);
  }

  /** POSIX `os.path.join(a, b)`: an absolute `b` discards `a`. */
  function PathJoin(a: string, b: string): string {
    if |b| > 0 && b[0] == '/' then b
    else if |a| == 0 || a[|a| - 1] == '/' then a + b
    else a + "/" + b
  }

  /** `os.path.join("audio_tours", audio_filename)`. */
  function AudioPath(location: string): (r: string)
    ensures ' ' !in r
    ensures |location| > 0 && location[0] == '/' ==> r == AudioFileName(location)
    ensures !(|location| > 0 && location[0] == '/') ==> r == AudioDir + "/" + AudioFileName(location)
  {
    PathJoin(AudioDir, AudioFileName(location))
  }

  // ---------------------------------------------------------------------
  // Voice selection
  // ---------------------------------------------------------------------

  const EngineOptions: seq<string> := ["Edge TTS (High Quality)", "Google TTS (Fast)"]

  /** The ids of the Edge TTS voices offered by the voice selector. */
  const EdgeVoiceIds: seq<string> := [
    "en-US-AriaNeural", "en-US-GuyNeural", "en-US-JennyNeural", "en-US-DavisNeural",
    "en-GB-SoniaNeural", "en-GB-RyanNeural", "en-AU-NatashaNeural", "en-AU-WilliamNeural",
    "en-IN-NeerjaNeural", "en-IN-PrabhatNeural"
  ]

  const EdgeVoiceGenders: seq<string> := [
    "Female", "Male", "Female", "Male", "Female", "Male", "Female", "Male", "Female", "Male"
  ]

  /** How the selector labels a voice, e.g. `en-US-AriaNeural (Female)`. */
  function VoiceLabel(id: string, gender: string): string {
    id + " (" + gender + ")"
  }

  /** The labels offered by the voice selector, in order. */
  function EdgeVoices(): (r: seq<string>)
    ensures |r| == |EdgeVoiceIds|
  {
    seq(|EdgeVoiceIds|, i requires 0 <= i < |EdgeVoiceIds| => VoiceLabel(EdgeVoiceIds[i], EdgeVoiceGenders[i]))
  }

  /** `voice_name.split(" (")[0]`. */
  function VoiceId(voiceName: string): (r: string)
    ensures IsPrefix(r, voiceName)
    ensures forall k: nat :: k < |r| ==> !OccursAt(voiceName, " (", k)
    ensures |r| < |voiceName| ==> OccursAt(voiceName, " (", |r|)
  {
    BeforeFirst(voiceName, " (")
  }

  /** A label `id (gender)` yields `id` back whenever `id` has no space. */
  lemma VoiceIdOfLabel(id: string, gender: string)
    requires ' ' !in id
    ensures VoiceId(VoiceLabel(id, gender)) == id
  {
    var s := VoiceLabel(id, gender);
    var r := VoiceId(s);
    assert s[|id|..|id| + 2] == " (";
    assert OccursAt(s, " (", |id|);
    assert |r| <= |id|;
    forall k: nat | k < |id|
      ensures !OccursAt(s, " (", k)
    {
      assert s[k] == id[k];
      assert s[k..k + 2][0] == s[k];
    }
    assert |r| == |id|;
    assert s[..|id|] == id;
  }

  /** Two of the voice ids the Edge selector produces. */
  lemma EdgeVoiceIdExamples()
    ensures VoiceId(EdgeVoices()[0]) == "en-US-AriaNeural"
    ensures VoiceId(EdgeVoices()[9]) == "en-IN-PrabhatNeural"
  {
    VoiceIdOfLabel(EdgeVoiceIds[0], EdgeVoiceGenders[0]);
    VoiceIdOfLabel(EdgeVoiceIds[9], EdgeVoiceGenders[9]);
  }

  /** The Edge rate offset in percent: `int((speech_rate - 1.0) * 100)`, truncated toward zero. */
  function RatePercent(speechRate: real): (p: int)
    ensures speechRate >= 1.0 ==> p as real <= (speechRate - 1.0) * 100.0 < p as real + 1.0
    ensures speechRate < 1.0 ==> p as real - 1.0 < (speechRate - 1.0) * 100.0 <= p as real
  {
    Trunc((speechRate - 1.0) * 100.0)
  }

  /** `f"{p:+d}%"`: the sign is always written, then the digits, then a percent sign. */
  function RateText(p: int): (r: string)
    ensures |r| >= 3 && r[|r| - 1] == '%'
    ensures r[0] == (if p < 0 then '-' else '+')
    ensures forall i :: 1 <= i < |r| - 1 ==> '0' <= r[i] <= '9'
    ensures |r| > 3 ==> r[1] != '0'
  {
    (if p < 0 then "-" else "+") + NatToString(if p < 0 then -p else p) + "%"
  }

  /** How a rate string of the form sign, digits, `%` reads back as an offset. */
  function ParseRate(s: string): Option<int> {
    if |s| < 3 || s[|s| - 1] != '%' || (s[0] != '+' && s[0] != '-') then None
    else
      var m := ParseNat(s[1..|s| - 1]);
      Some(if s[0] == '-' then -m else m)
  }

  /** The rate string always reads back as the offset it was written from. */
  lemma RateTextRoundTrip(p: int)
    ensures ParseRate(RateText(p)) == Some(p)
  {
    var m: nat := if p < 0 then -p else p;
    var s := RateText(p);
    assert s[1..|s| - 1] == NatToString(m);
    NatToStringRoundTrip(m);
  }

  /** Over the slider's range the offset stays within -50 .. +100 percent, and 1.0x is `+0%`. */
  lemma RatePercentRange(speechRate: real)
    requires 0.5 <= speechRate <= 2.0
    ensures -50 <= RatePercent(speechRate) <= 100
    ensures speechRate == 1.0 ==> RateText(RatePercent(speechRate)) == "+0%"
  {
  }

  /** A faster setting never gives a smaller offset. */
  lemma RatePercentMonotone(r1: real, r2: real)
    requires r1 <= r2
    ensures RatePercent(r1) <= RatePercent(r2)
  {
  }

  /** What the "Generate Audio" button asks the speech engine to do. */
  datatype Synthesis = EdgeTts(voice: string, rate: string) | GoogleTts(slow: bool)

  /**
   * Edge TTS when the engine label mentions it, with the voice id and the
   * signed percent rate; otherwise gTTS, slow below 0.9x.
   */
  function ChooseSynthesis(engine: string, voiceName: string, speechRate: real): (s: Synthesis)
    ensures s.EdgeTts? <==> Contains(engine, "Edge TTS")
    ensures s.EdgeTts? ==> s.voice == VoiceId(voiceName)
    ensures s.EdgeTts? ==> s.rate == RateText(RatePercent(speechRate))
    ensures s.EdgeTts? ==> ParseRate(s.rate) == Some(RatePercent(speechRate))
    ensures s.GoogleTts? ==> (s.slow <==> speechRate < 0.9)
  {
    if Contains(engine, "Edge TTS") then
      RateTextRoundTrip(RatePercent(speechRate));
      EdgeTts(VoiceId(voiceName), RateText(RatePercent(speechRate)))
    else GoogleTts(speechRate < 0.9)
  }

  /** The two engine options select the two engines. */
  lemma EngineOptionsSelect(voiceName: string, speechRate: real)
    ensures ChooseSynthesis(EngineOptions[0], voiceName, speechRate).EdgeTts?
    ensures ChooseSynthesis(EngineOptions[1], voiceName, speechRate).GoogleTts?
  {
    var edge := EngineOptions[0];
    assert OccursAt(edge, "Edge TTS", 0);
    var google := EngineOptions[1];
    forall k: nat | k <= |google| ensures !OccursAt(google, "Edge TTS", k) {
      if k + 8 <= |google| {
        assert google[k..k + 8][0] == google[k];
        assert google[k] != 'E';
      }
    }
  }

  /** Speed selection: at a slower rate gTTS is never faster. */
  lemma SlowIsDownwardClosed(engine: string, voiceName: string, r1: real, r2: real)
    requires r1 <= r2
    requires ChooseSynthesis(engine, voiceName, r2) == GoogleTts(true)
    ensures ChooseSynthesis(engine, voiceName, r1) == GoogleTts(true)
  {
  }

  /** The request handed to the speech engine: the tour text, written to the audio path. */
  datatype SpeechJob = SpeechJob(synthesis: Synthesis, text: string, path: string)

  /** The job the "Generate Audio" button starts; there is no button while no tour is shown. */
  function AudioJob(session: Session, location: string, engine: string, voiceName: string, speechRate: real)
    : (r: Option<SpeechJob>)
    ensures r.Some? <==> ShowsTour(session)
    ensures r.Some? ==> r.value.text == session.tourContent.value && r.value.path == AudioPath(location)
    ensures r.Some? ==> ' ' !in r.value.path
    ensures r.Some? ==> r.value.synthesis == ChooseSynthesis(engine, voiceName, speechRate)
  {
    if ShowsTour(session)
    then Some(SpeechJob(ChooseSynthesis(engine, voiceName, speechRate), session.tourContent.value, AudioPath(location)))
    else None
  }

  /** Recording the outcome of a speech job: only success stores the path. */
  function AfterAudio(session: Session, job: SpeechJob, outcome: Result<(), string>): (r: Session)
    ensures r.tourContent == session.tourContent
    ensures outcome.Success? ==> r.audioPath == Some(job.path)
    ensures outcome.Failure? ==> r == session
  {
    if outcome.Success? then session.(audioPath := Some(job.path)) else session
  }

  /** Pressing "Generate Audio" keeps the session consistent. */
  lemma AudioKeepsConsistent(session: Session, location: string, engine: string, voiceName: string,
                             speechRate: real, outcome: Result<(), string>)
    requires Consistent(session)
    ensures var job := AudioJob(session, location, engine, voiceName, speechRate);
            job.Some? ==> Consistent(AfterAudio(session, job.value, outcome))
  {
  }

  // ---------------------------------------------------------------------
  // Header image
  // ---------------------------------------------------------------------

  /** `interests[0] if interests else "travel"`. */
  function MainInterest(interests: seq<string>): string {
    if |interests| > 0 then interests[0] else "travel"
  }

  const ImageLead := "cinematic shot of "
  const ImageTail := " style, 8k, highly detailed, " + "professional photography, " + "dramatic lighting"
  const ImageEndpoint := "https://image.pollinations.ai/prompt/"

  function ImagePrompt(location: string, interests: seq<string>): string {
    ImageLead + location + ", " + MainInterest(interests) + ImageTail
  }

  /** The image URL: the prompt with its spaces encoded, after the endpoint. */
  function ImageUrl(location: string, interests: seq<string>): (r: string)
    ensures IsPrefix(ImageEndpoint, r)
    ensures ' ' !in r
  {
    ReplaceCharRemoves(ImagePrompt(location, interests), " ", "%20");
    ImageEndpoint + ReplaceAll(ImagePrompt(location, interests), " ", "%20")
  }

  lemma ImageTextHasNoPercent()
    ensures '%' !in ImageLead && '%' !in ImageTail && '%' !in ", "
  {
    assert '%' !in " style, 8k, highly detailed, ";
    assert '%' !in "professional photography, ";
    assert '%' !in "dramatic lighting";
  }

  /** Decoding `%20` after the endpoint gives back an encoded text that held no `%`. */
  lemma EndpointPathDecodes(p: string)
    requires '%' !in p
    ensures (ImageEndpoint + ReplaceAll(p, " ", "%20"))[|ImageEndpoint|..] == ReplaceAll(p, " ", "%20")
    ensures ReplaceAll(ReplaceAll(p, " ", "%20"), "%20", " ") == p
  {
    SpaceEncodingRoundTrip(p);
  }

  /**
   * Decoding `%20` in the URL's path gives the prompt back when the
   * location and the main interest hold no `%`.
   */
  lemma ImageUrlDecodes(location: string, interests: seq<string>)
    requires '%' !in location && '%' !in MainInterest(interests)
    ensures ReplaceAll(ImageUrl(location, interests)[|ImageEndpoint|..], "%20", " ") == ImagePrompt(location, interests)
  {
    var p := ImagePrompt(location, interests);
    ImageTextHasNoPercent();
    assert '%' !in p;
    EndpointPathDecodes(p);
  }

  /** The image prompt names the location and the main interest. */
  lemma ImagePromptMentions(location: string, interests: seq<string>)
    ensures Contains(ImagePrompt(location, interests), location)
    ensures Contains(ImagePrompt(location, interests), MainInterest(interests))
    ensures |interests| > 0 ==> Contains(ImagePrompt(location, interests), interests[0])
  {
    var m := MainInterest(interests);
    var p := ImagePrompt(location, interests);
    assert p == ImageLead + location + (", " + m + ImageTail);
    assert p == (ImageLead + location + ", ") + m + ImageTail;
    ContainsMiddle(ImageLead, location, ", " + m + ImageTail);
    ContainsMiddle(ImageLead + location + ", ", m, ImageTail);
  }
}
