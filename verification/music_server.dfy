/**
 * The request path of the music generator server with its synthesizer
 * fallback: the prompt enhancement, the melody the composer model returns
 * (or the default and random melodies that replace it), the per-note
 * parameters and the ADSR segment lengths of every note, and the response.
 * Sample values, the WAV encoding and file writes are not modelled; a note
 * is described by its parameters and its segment lengths.
 */
module MusicServer {
  import opened Wrappers
  import opened Text
  import InsertionDict

  // ---------------------------------------------------------------------
  // Values and the language model
  // ---------------------------------------------------------------------

  /** A value as `json.loads` returns it. An object lists its members in text order. */
  datatype Json =
    | JNull
    | JBool(b: bool)
    | JNum(x: real)
    | JStr(s: string)
    | JArr(items: seq<Json>)
    | JObj(fields: seq<(string, Json)>)

  /** The two questions the server puts to the language model. */
  datatype Request =
    | Enhance(userPrompt: string)   // describe the user's request in five words
    | Compose(mood: string)         // write a melody for a mood, as JSON

  /**
   * The language model: a request gives the reply text or an exception.
   * The model is asked `RequestText(req)`, on gemini-1.5-flash for an
   * enhancement and on gemini-2.5-flash for a composition.
   */
  type Llm = Request -> Result<string, string>

  const EnhanceLead := "You are a music composer. The user wants: '"
  const EnhanceTail := "'. Describe this music in 5 words (e.g. 'Sad, Piano, Slow, Minor, Ambient')."

  const ComposerLead := "\n            You are a music composer. Create a simple monophonic melody for a '"
  const ComposerTail := "' mood.\n            Return ONLY a JSON array of objects, where each object has:\n            - 'freq': float (frequency in Hz, e.g., 261.63 for C4, 440 for A4). Keep between 100 and 800.\n            - 'duration': float (duration in seconds, e.g., 0.25, 0.5, 1.0).\n            \n            Total duration should be around 5-8 seconds.\n            Example output: [{\"freq\": 440, \"duration\": 0.5}, {\"freq\": 523.25, \"duration\": 0.5}]\n            DO NOT include markdown formatting like ```json. Just the raw JSON string.\n            "

  /** The prompt text sent for a request. */
  function RequestText(req: Request): string {
    match req
    case Enhance(p) => EnhanceLead + p + EnhanceTail
    case Compose(p) => ComposerLead + p + ComposerTail
  }

  /** Both prompts quote the user's text verbatim. */
  lemma RequestTextQuotes(req: Request)
    ensures req.Enhance? ==> Contains(RequestText(req), req.userPrompt)
    ensures req.Compose? ==> Contains(RequestText(req), req.mood)
  {
    match req
    case Enhance(p) => ContainsMiddle(EnhanceLead, p, EnhanceTail);
    case Compose(p) => ContainsMiddle(ComposerLead, p, ComposerTail);
  }

  /**
   * The key the server runs with, read from `GOOGLE_API_KEY` at start-up:
   * an unset or empty variable gives none, and a found key is stripped, so
   * a key of only whitespace also leaves the model unused. The handlers'
   * `hasKey` is `ServerKey(env).Some?`.
   */
  function ServerKey(env: Option<string>): (k: Option<string>)
    ensures k.Some? <==> env.Some? && |Strip(env.value)| > 0
    ensures k.Some? ==> k.value == Strip(env.value)
  {
    if env.None? || |env.value| == 0 then None
    else
      var key := Strip(env.value);
      if |key| > 0 then Some(key) else None
  }

  /** The configured key never carries surrounding whitespace. */
  lemma ServerKeyTrimmed(env: Option<string>)
    ensures ServerKey(env).Some? ==> Strip(ServerKey(env).value) == ServerKey(env).value
  {
    if env.Some? {
      StripIdempotent(env.value);
    }
  }

  // ---------------------------------------------------------------------
  // Prompt enhancement
  // ---------------------------------------------------------------------

  /**
   * The prompt reported back to the client: the model's description,
   * stripped, when a key is configured and the model answers with
   * non-empty text; the user's own prompt otherwise.
   */
  function EnhancePrompt(userPrompt: string, hasKey: bool, llm: Llm): (r: string)
    ensures var reply := llm(Enhance(userPrompt));
            if hasKey && reply.Success? && |reply.value| > 0 then r == Strip(reply.value) else r == userPrompt
  {
    if !hasKey then userPrompt
    else
      var reply := llm(Enhance(userPrompt));
      if reply.Success? && |reply.value| > 0 then Strip(reply.value) else userPrompt
  }

  /**
   * The enhanced prompt is the user's prompt or a text without surrounding
   * whitespace; without a key or after a failed call it is the user's prompt.
   */
  lemma EnhancedPromptShape(userPrompt: string, hasKey: bool, llm: Llm)
    ensures var r := EnhancePrompt(userPrompt, hasKey, llm);
            r == userPrompt || Strip(r) == r
    ensures !hasKey ==> EnhancePrompt(userPrompt, hasKey, llm) == userPrompt
    ensures llm(Enhance(userPrompt)).Failure? ==> EnhancePrompt(userPrompt, hasKey, llm) == userPrompt
  {
    var reply := llm(Enhance(userPrompt));
    if hasKey && reply.Success? && |reply.value| > 0 {
      StripIdempotent(reply.value);
    }
  }

  // ---------------------------------------------------------------------
  // Cleaning the composer's reply
  // ---------------------------------------------------------------------

  /** `text.strip()`, then every "```json" removed, then every "```" removed. */
  function CleanReply(text: string): (r: string)
    ensures !Contains(r, "```")
  {
    var once := ReplaceAll(Strip(text), "```json", "");
    RemoveTripleTicks(once);
    NoTripleTickNotContains(ReplaceAll(once, "```", ""));
    ReplaceAll(once, "```", "")
  }

  /** A reply without backticks is only stripped. */
  lemma CleanReplyPlain(text: string)
    requires '`' !in text
    ensures CleanReply(text) == Strip(text)
  {
    var s := Strip(text);
    var a := LeadingSpaces(text);
    forall k | 0 <= k < |s| ensures s[k] != '`' {
      assert s[k] == text[a + k];
    }
    ReplaceAbsent(s, "```json", "");
    ReplaceAbsent(s, "```", "");
  }

  /**
   * Removing an opening marker and then a shorter closing marker unwraps a
   * body that holds neither marker's first character.
   */
  lemma Unfence(open: string, close: string, body: string)
    requires 0 < |close| < |open|
    requires open[0] !in body && close[0] !in body
    ensures ReplaceAll(ReplaceAll(open + body + close, open, ""), close, "") == body
  {
    assert open + body + close == open + (body + close);
    ReplaceAtFront(body + close, open, "");
    ReplaceAfterAbsent(body, close, open, "");
    ReplaceShort(close, open, "");
    assert "" + (body + close) == body + close;
    ReplaceAfterAbsent(body, close, close, "");
    ReplaceAtFront("", close, "");
    assert close + "" == close;
  }

  /** A reply fenced as a json code block is unwrapped to the block's body. */
  lemma CleanReplyFenced(text: string, body: string)
    requires '`' !in body
    requires Strip(text) == "```json" + body + "```"
    ensures CleanReply(text) == body
  {
    Unfence("```json", "```", body);
  }

  // ---------------------------------------------------------------------
  // Melodies
  // ---------------------------------------------------------------------

  /** A note object `{"freq": f, "duration": d}`. */
  function NoteObject(freq: real, duration: real): Json {
    JObj([("freq", JNum(freq)), ("duration", JNum(duration))])
  }

  /** The two-note melody used when no API key is configured. */
  const DefaultMelody: seq<Json> := [NoteObject(440.0, 0.5), NoteObject(523.25, 0.5)]

  /** The random melody starts an octave lower for sad prompts. */
  function BaseFrequency(prompt: string): (f: real)
    ensures f == 220.0 || f == 440.0
  {
    if Contains(Lower(prompt), "sad") then 220.0 else 440.0
  }

  const RandomNotes := 10

  /** The `i`-th random note on `base`: half a second at `base * factor(i)`. */
  function RandomNote(base: real, factor: nat -> real, i: nat): Json {
    NoteObject(base * factor(i), 0.5)
  }

  /**
   * The random melody: ten half-second notes whose frequencies are the base
   * frequency scaled by `factor(i)`, the i-th random semitone factor
   * `2 ** (k / 12)`.
   */
  function RandomMelody(prompt: string, factor: nat -> real): (m: seq<Json>)
    ensures |m| == RandomNotes
    ensures forall i :: 0 <= i < |m| ==> m[i] == RandomNote(BaseFrequency(prompt), factor, i)
  {
    seq(RandomNotes, i requires 0 <= i < RandomNotes => RandomNote(BaseFrequency(prompt), factor, i))
  }

  /** `len(v)` is defined for strings, arrays and objects. */
  predicate Sized(v: Json) {
    v.JStr? || v.JArr? || v.JObj?
  }

  /** The member names of an object, repeats included, in document order. */
  function MemberNames(fields: seq<(string, Json)>): (r: seq<string>)
    ensures |r| == |fields| && forall i :: 0 <= i < |r| ==> r[i] == fields[i].0
  {
    seq(|fields|, i requires 0 <= i < |fields| => fields[i].0)
  }

  /**
   * `for note in v`: an array's items, a string's characters, and an
   * object's keys, which are its distinct member names in the order they
   * first occur (the decoder builds a dict, so a repeated name is one key).
   */
  function Iterate(v: Json): (r: seq<Json>)
    requires Sized(v)
    ensures v.JArr? ==> r == v.items
    ensures v.JObj? ==> var keys := InsertionDict.FirstSeen(MemberNames(v.fields));
                        |r| == |keys| && forall i :: 0 <= i < |r| ==> r[i] == JStr(keys[i])
    ensures v.JStr? ==> |r| == |v.s| && forall i :: 0 <= i < |r| ==> r[i] == JStr([v.s[i]])
  {
    match v
    case JArr(items) => items
    case JObj(fields) =>
      var keys := InsertionDict.FirstSeen(MemberNames(fields));
      seq(|keys|, i requires 0 <= i < |keys| => JStr(keys[i]))
    case JStr(s) => seq(|s|, i requires 0 <= i < |s| => JStr([s[i]]))
  }

  /**
   * Iterating an object yields every member name exactly once, as a string,
   * in the order of first occurrence.
   */
  lemma IterateObject(fields: seq<(string, Json)>)
    ensures var r := Iterate(JObj(fields));
            && (forall i :: 0 <= i < |r| ==> r[i].JStr? && r[i].s in MemberNames(fields))
            && (forall j :: 0 <= j < |fields| ==> JStr(fields[j].0) in r)
            && (forall i, k :: 0 <= i < k < |r| ==> r[i] != r[k])
            && (forall i, k :: 0 <= i < k < |r| ==>
                  InsertionDict.FirstIndex(MemberNames(fields), r[i].s)
                  < InsertionDict.FirstIndex(MemberNames(fields), r[k].s))
  {
    var names := MemberNames(fields);
    var keys := InsertionDict.FirstSeen(names);
    var r := Iterate(JObj(fields));
    InsertionDict.FirstSeenKeys(names);
    assert forall i :: 0 <= i < |r| ==> r[i] == JStr(keys[i]);
    forall j | 0 <= j < |fields| ensures JStr(fields[j].0) in r {
      assert names[j] in keys;
      assert r[InsertionDict.FirstIndex(keys, names[j])] == JStr(fields[j].0);
    }
    forall i, k | 0 <= i < k < |r|
      ensures r[i] != r[k]
      ensures InsertionDict.FirstIndex(names, r[i].s) < InsertionDict.FirstIndex(names, r[k].s)
    {
      assert r[i].s == keys[i] && r[k].s == keys[k];
    }
  }

  datatype Origin = Default | Composed | Random

  /** The notes the synthesizer loops over, and where they came from. */
  datatype Melody = Melody(origin: Origin, notes: seq<Json>)

  /**
   * The melody for a prompt. Without a key it is the default melody. With
   * a key the composer is asked; any exception before the reply is known to
   * have a length (the call, an unparsable reply, a value without `len`)
   * switches to the random melody.
   */
  function ComposeMelody(prompt: string, hasKey: bool, llm: Llm, parse: string -> Option<Json>, factor: nat -> real)
    : (m: Melody)
    ensures !hasKey <==> m.origin == Default
    ensures m.origin == Default ==> m.notes == DefaultMelody
    ensures m.origin == Random ==> m.notes == RandomMelody(prompt, factor)
    ensures m.origin == Composed <==>
              && hasKey
              && llm(Compose(prompt)).Success?
              && parse(CleanReply(llm(Compose(prompt)).value)).Some?
              && Sized(parse(CleanReply(llm(Compose(prompt)).value)).value)
    ensures m.origin == Composed ==>
              m.notes == Iterate(parse(CleanReply(llm(Compose(prompt)).value)).value)
  {
    if !hasKey then Melody(Default, DefaultMelody)
    else
      var reply := llm(Compose(prompt));
      if reply.Failure? then Melody(Random, RandomMelody(prompt, factor))
      else
        var parsed := parse(CleanReply(reply.value));
        if parsed.None? || !Sized(parsed.value) then Melody(Random, RandomMelody(prompt, factor))
        else Melody(Composed, Iterate(parsed.value))
  }

  /** "sad" anywhere in the prompt, in any ASCII casing, selects the lower base. */
  lemma SadPromptIsLower(a: string, w: string, b: string)
    requires Lower(w) == "sad"
    ensures BaseFrequency(a + w + b) == 220.0
  {
    var p := a + w + b;
    assert p[|a|..|a| + 3] == w;
    LowerSlice(p, |a|, |a| + 3);
    assert OccursAt(Lower(p), "sad", |a|);
  }

  /** The three characters of `p` at `i` spell "sad" in some ASCII casing. */
  predicate SpellsSadAt(p: string, i: int) {
    0 <= i && i + 3 <= |p| && Lower(p[i..i + 3]) == "sad"
  }

  /** A prompt with no three letters spelling "sad" in some casing keeps the 440 Hz base. */
  lemma SadPromptOnlyIfPresent(p: string)
    requires forall i :: !SpellsSadAt(p, i)
    ensures BaseFrequency(p) == 440.0
  {
    forall k: nat | k <= |Lower(p)| ensures !OccursAt(Lower(p), "sad", k) {
      if k + 3 <= |p| {
        LowerSlice(p, k, k + 3);
        assert !SpellsSadAt(p, k);
      }
    }
  }

  // ---------------------------------------------------------------------
  // Notes
  // ---------------------------------------------------------------------

  const SampleRate := 44100
  const MaxNoteSeconds := 2.0
  const DefaultFreq := 440.0
  const DefaultSeconds := 0.5

  /**
   * `int(44100 * seconds)`: the whole samples in `seconds` of audio, zero
   * for a duration just below zero and negative below one sample's worth.
   */
  function SampleCount(seconds: real): (n: int)
    ensures 0.0 <= seconds ==> 0 <= n && n as real <= SampleRate as real * seconds < n as real + 1.0
    ensures seconds < 0.0 ==> (n < 0 <==> SampleRate as real * seconds <= -1.0)
    ensures seconds < 0.0 ==> n as real - 1.0 < SampleRate as real * seconds <= n as real
    ensures seconds <= MaxNoteSeconds ==> n <= SampleRate * 2
  {
    Trunc(SampleRate as real * seconds)
  }

  /** `obj.get(key)` on a decoded object: a repeated member keeps its last value. */
  function Lookup(fields: seq<(string, Json)>, key: string): (r: Option<Json>)
    ensures r.None? <==> forall i :: 0 <= i < |fields| ==> fields[i].0 != key
    ensures r.Some? ==> exists i :: 0 <= i < |fields| && fields[i] == (key, r.value)
                                    && forall j :: i < j < |fields| ==> fields[j].0 != key
  {
    if |fields| == 0 then None
    else if fields[|fields| - 1].0 == key then Some(fields[|fields| - 1].1)
    else Lookup(fields[..|fields| - 1], key)
  }

  /** A key no member carries is absent. */
  lemma {:induction false} LookupAbsent(fields: seq<(string, Json)>, key: string)
    requires forall i :: 0 <= i < |fields| ==> fields[i].0 != key
    ensures Lookup(fields, key) == None
    decreases |fields|
  {
    if |fields| > 0 {
      LookupAbsent(fields[..|fields| - 1], key);
    }
  }

  /** `obj.get(key, default)`. */
  function FieldOr(fields: seq<(string, Json)>, key: string, default: real): Json {
    match Lookup(fields, key)
    case Some(v) => v
    case None => JNum(default)
  }

  /**
   * Python's `float(v)`: numbers and booleans convert, a string converts
   * when `parseFloat` accepts it, anything else raises.
   */
  function ToFloat(v: Json, parseFloat: string -> Option<real>): (r: Result<real, string>)
    ensures v.JNum? ==> r == Success(v.x)
    ensures v.JBool? ==> r == Success(if v.b then 1.0 else 0.0)
    ensures v.JStr? ==> (r.Success? <==> parseFloat(v.s).Some?)
    ensures v.JStr? && r.Success? ==> r.value == parseFloat(v.s).value
    ensures v.JNull? || v.JArr? || v.JObj? ==> r.Failure?
  {
    match v
    case JNum(x) => Success(x)
    case JBool(b) => Success(if b then 1.0 else 0.0)
    case JStr(s) =>
      (match parseFloat(s)
       case Some(x) => Success(x)
       case None => Failure("ValueError: could not convert string to float"))
    case _ => Failure("TypeError: float() argument must be a string or a real number")
  }

  /** Lengths of the attack, decay, sustain and release segments of a note. */
  datatype Envelope = Envelope(attack: nat, decay: nat, sustain: nat, release: nat)

  /**
   * A tenth of the samples for attack and for decay, a fifth for release,
   * the remainder held at sustain level.
   */
  function EnvelopeOf(total: nat): (e: Envelope)
    ensures e.attack + e.decay + e.sustain + e.release == total
    ensures e.decay == e.attack
    ensures 10 * e.attack <= total < 10 * (e.attack + 1)
    ensures 5 * e.release <= total < 5 * (e.release + 1)
    ensures 10 * e.sustain >= 6 * total
  {
    var a := total / 10;
    var r := total / 5;
    Envelope(a, a, total - a - a - r, r)
  }

  /** A synthesized note: frequency, effective duration, sample count and segments. */
  datatype Tone = Tone(freq: real, seconds: real, samples: nat, envelope: Envelope)

  function EnvelopeLength(e: Envelope): nat {
    e.attack + e.decay + e.sustain + e.release
  }

  const NoGet := "AttributeError: object has no attribute 'get'"
  const NegativeCount := "ValueError: Number of samples must be non-negative."

  /** `min(seconds, 2.0)`: the played duration of a note. */
  function Capped(seconds: real): (c: real)
    ensures c <= MaxNoteSeconds && c <= seconds
    ensures c == seconds || c == MaxNoteSeconds
  {
    if MaxNoteSeconds < seconds then MaxNoteSeconds else seconds
  }

  /**
   * One iteration of the synthesizer loop: read `freq` (default 440) and
   * `duration` (default 0.5), cap the duration at two seconds, and take
   * `int(44100 * duration)` samples, which `linspace` rejects when negative.
   */
  function RenderNote(note: Json, parseFloat: string -> Option<real>): (r: Result<Tone, string>)
    ensures !note.JObj? ==> r == Failure(NoGet)
    ensures r.Success? ==> r.value.seconds <= MaxNoteSeconds
    ensures r.Success? ==> r.value.samples == SampleCount(r.value.seconds)
    ensures r.Success? ==> r.value.samples <= SampleRate * 2
    // The envelope covers the wave exactly, so it is never resized.
    ensures r.Success? ==> EnvelopeLength(r.value.envelope) == r.value.samples
  {
    if !note.JObj? then Failure(NoGet)
    else
      var freq := ToFloat(FieldOr(note.fields, "freq", DefaultFreq), parseFloat);
      if freq.Failure? then Failure(freq.error)
      else
        var given := ToFloat(FieldOr(note.fields, "duration", DefaultSeconds), parseFloat);
        if given.Failure? then Failure(given.error)
        else
          var seconds := Capped(given.value);
          var n := SampleCount(seconds);
          if n < 0 then Failure(NegativeCount)
          else Success(Tone(freq.value, seconds, n, EnvelopeOf(n)))
  }

  /**
   * How a note object is read: `freq` (default 440) first, whose error
   * wins, then `duration` (default 0.5); the note plays the frequency for
   * `min(duration, 2.0)` seconds unless that is a negative sample count.
   */
  lemma RenderNoteReads(fields: seq<(string, Json)>, parseFloat: string -> Option<real>)
    ensures var r := RenderNote(JObj(fields), parseFloat);
            var freq := ToFloat(FieldOr(fields, "freq", DefaultFreq), parseFloat);
            var given := ToFloat(FieldOr(fields, "duration", DefaultSeconds), parseFloat);
            && (freq.Failure? ==> r == Failure(freq.error))
            && (freq.Success? && given.Failure? ==> r == Failure(given.error))
            && (r.Success? <==> freq.Success? && given.Success? && 0 <= SampleCount(Capped(given.value)))
            && (r.Success? ==> r.value.freq == freq.value && r.value.seconds == Capped(given.value))
            && (r.Failure? && freq.Success? && given.Success? ==> r == Failure(NegativeCount))
  {
  }

  /** Half a second is 22050 samples. */
  lemma HalfSecondSamples()
    ensures Capped(DefaultSeconds) == DefaultSeconds
    ensures SampleCount(DefaultSeconds) == 22050
  {
    assert SampleRate as real * DefaultSeconds == 22050.0;
  }

  /** A note object whose members read as numbers renders with that frequency and capped duration. */
  lemma RenderNoteNumbers(fields: seq<(string, Json)>, freq: real, duration: real, parseFloat: string -> Option<real>)
    requires FieldOr(fields, "freq", DefaultFreq) == JNum(freq)
    requires FieldOr(fields, "duration", DefaultSeconds) == JNum(duration)
    ensures var n := SampleCount(Capped(duration));
            var r := RenderNote(JObj(fields), parseFloat);
            && (r.Success? <==> 0 <= n)
            && (r.Success? ==> r.value == Tone(freq, Capped(duration), n, EnvelopeOf(n)))
  {
  }

  /** A note object with numeric members renders with its own frequency and capped duration. */
  lemma RenderNoteObject(freq: real, duration: real, parseFloat: string -> Option<real>)
    ensures var seconds := Capped(duration);
            var r := RenderNote(NoteObject(freq, duration), parseFloat);
            && (r.Success? <==> 0 <= SampleCount(seconds))
            && (r.Success? ==> r.value.freq == freq && r.value.seconds == seconds)
  {
    var fields := NoteObject(freq, duration).fields;
    assert Lookup(fields, "freq") == Some(JNum(freq));
    assert Lookup(fields, "duration") == Some(JNum(duration));
  }

  /** A note object without `freq` and `duration` plays 440 Hz for half a second. */
  lemma RenderNoteDefaults(fields: seq<(string, Json)>, parseFloat: string -> Option<real>)
    requires forall i :: 0 <= i < |fields| ==> fields[i].0 != "freq" && fields[i].0 != "duration"
    ensures RenderNote(JObj(fields), parseFloat) == Success(Tone(DefaultFreq, DefaultSeconds, 22050, EnvelopeOf(22050)))
  {
    assert Lookup(fields, "freq").None?;
    assert Lookup(fields, "duration").None?;
    assert SampleRate as real * DefaultSeconds == 22050.0;
  }

  /**
   * A note object with a numeric `freq` member anywhere (the last one wins)
   * and no `duration` member plays that frequency for half a second.
   */
  lemma RenderNoteMissingDuration(fields: seq<(string, Json)>, freq: real, parseFloat: string -> Option<real>)
    requires Lookup(fields, "freq") == Some(JNum(freq))
    requires forall i :: 0 <= i < |fields| ==> fields[i].0 != "duration"
    ensures RenderNote(JObj(fields), parseFloat) == Success(Tone(freq, DefaultSeconds, 22050, EnvelopeOf(22050)))
  {
    LookupAbsent(fields, "duration");
    RenderNoteFreqOnly(fields, freq, parseFloat);
  }

  lemma RenderNoteFreqOnly(fields: seq<(string, Json)>, freq: real, parseFloat: string -> Option<real>)
    requires Lookup(fields, "freq") == Some(JNum(freq))
    requires Lookup(fields, "duration") == None
    ensures RenderNote(JObj(fields), parseFloat) == Success(Tone(freq, DefaultSeconds, 22050, EnvelopeOf(22050)))
  {
    RenderNoteNumbers(fields, freq, DefaultSeconds, parseFloat);
    HalfSecondSamples();
  }

  /** A duration of two seconds or more is played for exactly two seconds. */
  lemma RenderNoteCapped(freq: real, duration: real, parseFloat: string -> Option<real>)
    requires duration >= MaxNoteSeconds
    ensures RenderNote(NoteObject(freq, duration), parseFloat)
            == Success(Tone(freq, MaxNoteSeconds, 88200, EnvelopeOf(88200)))
  {
    RenderNoteObject(freq, duration, parseFloat);
    assert SampleRate as real * MaxNoteSeconds == 88200.0;
  }

  // ---------------------------------------------------------------------
  // The synthesizer loop
  // ---------------------------------------------------------------------

  /** The loop over the melody; the first failing note aborts the request. */
  function RenderAll(notes: seq<Json>, parseFloat: string -> Option<real>): (r: Result<seq<Tone>, string>)
    ensures r.Success? <==> forall i :: 0 <= i < |notes| ==> RenderNote(notes[i], parseFloat).Success?
    ensures r.Success? ==> |r.value| == |notes|
                           && forall i :: 0 <= i < |notes| ==> RenderNote(notes[i], parseFloat) == Success(r.value[i])
    ensures r.Failure? ==> exists i :: 0 <= i < |notes| && RenderNote(notes[i], parseFloat) == Failure(r.error)
                                       && forall j :: 0 <= j < i ==> RenderNote(notes[j], parseFloat).Success?
  {
    if |notes| == 0 then Success([])
    else
      var first := RenderNote(notes[0], parseFloat);
      if first.Failure? then Failure(first.error)
      else
        var rest := RenderAll(notes[1..], parseFloat);
        assert forall i :: 1 <= i < |notes| ==> notes[i] == notes[1..][i - 1];
        if rest.Failure? then Failure(rest.error)
        else Success([first.value] + rest.value)
  }

  /** Number of samples written to the WAV file. */
  function TotalSamples(tones: seq<Tone>): nat {
    if |tones| == 0 then 0 else tones[0].samples + TotalSamples(tones[1..])
  }

  /** The frequency member of a note object, 0 for anything else. */
  function NoteFreq(note: Json): real {
    if note.JObj? && |note.fields| > 0 && note.fields[0].1.JNum? then note.fields[0].1.x else 0.0
  }

  predicate HalfSecondNote(note: Json) {
    note == NoteObject(NoteFreq(note), 0.5)
  }

  /** Half-second note objects all render, to 22050 samples each. */
  lemma {:induction false} HalfSecondNotes(notes: seq<Json>, parseFloat: string -> Option<real>)
    requires forall i :: 0 <= i < |notes| ==> HalfSecondNote(notes[i])
    ensures RenderAll(notes, parseFloat).Success?
    ensures TotalSamples(RenderAll(notes, parseFloat).value) == 22050 * |notes|
    decreases |notes|
  {
    if |notes| > 0 {
      RenderNoteObject(NoteFreq(notes[0]), 0.5, parseFloat);
      assert SampleCount(0.5) == 22050 by {
        assert SampleRate as real * 0.5 == 22050.0;
      }
      HalfSecondNotes(notes[1..], parseFloat);
      var tones := RenderAll(notes, parseFloat).value;
      assert tones[1..] == RenderAll(notes[1..], parseFloat).value;
    }
  }

  /** The default melody is one second of audio. */
  lemma DefaultMelodyLength(parseFloat: string -> Option<real>)
    ensures RenderAll(DefaultMelody, parseFloat).Success?
    ensures TotalSamples(RenderAll(DefaultMelody, parseFloat).value) == SampleRate
  {
    assert HalfSecondNote(DefaultMelody[0]) && HalfSecondNote(DefaultMelody[1]);
    HalfSecondNotes(DefaultMelody, parseFloat);
  }

  /** The random melody is five seconds of audio, whatever the random draws. */
  lemma RandomMelodyLength(prompt: string, factor: nat -> real, parseFloat: string -> Option<real>)
    ensures RenderAll(RandomMelody(prompt, factor), parseFloat).Success?
    ensures TotalSamples(RenderAll(RandomMelody(prompt, factor), parseFloat).value) == 5 * SampleRate
  {
    var m := RandomMelody(prompt, factor);
    forall i | 0 <= i < |m| ensures HalfSecondNote(m[i]) {
      assert NoteFreq(m[i]) == BaseFrequency(prompt) * factor(i);
    }
    HalfSecondNotes(m, parseFloat);
  }

  // ---------------------------------------------------------------------
  // The /generate endpoint
  // ---------------------------------------------------------------------

  /** The JSON body of a successful response, with the audio the WAV file holds. */
  datatype Generated = Generated(message: string, audioUrl: string, tones: seq<Tone>, sampleRate: nat)

  datatype HttpError = HttpError(status: nat, detail: string)

  const ServerError := 500
  const UrlPrefix := "/static/generated/"
  const WavSuffix := ".wav"

  /**
   * POST /generate on the fallback synthesizer: the prompt is enhanced for
   * the message, the melody is composed from the user's original prompt,
   * the notes are rendered into `static/generated/<fileId>.wav`, and a
   * failing note becomes HTTP 500.
   */
  function GenerateMusic(userPrompt: string, hasKey: bool, llm: Llm, parse: string -> Option<Json>,
                         parseFloat: string -> Option<real>, factor: nat -> real, fileId: string)
    : (r: Result<Generated, HttpError>)
    ensures var melody := ComposeMelody(userPrompt, hasKey, llm, parse, factor);
            r.Success? <==> RenderAll(melody.notes, parseFloat).Success?
    ensures r.Success? ==>
              && r.value.message == "Generated music for: '" + EnhancePrompt(userPrompt, hasKey, llm) + "'"
              && IsPrefix(UrlPrefix, r.value.audioUrl)
              && r.value.audioUrl[|UrlPrefix|..] == fileId + WavSuffix
              && r.value.sampleRate == SampleRate
              && r.value.tones == RenderAll(ComposeMelody(userPrompt, hasKey, llm, parse, factor).notes, parseFloat).value
    ensures r.Failure? ==>
              && r.error.status == ServerError
              && r.error.detail == "Server Error: "
                   + RenderAll(ComposeMelody(userPrompt, hasKey, llm, parse, factor).notes, parseFloat).error
  {
    var enhanced := EnhancePrompt(userPrompt, hasKey, llm);
    var melody := ComposeMelody(userPrompt, hasKey, llm, parse, factor);
    var audio := RenderAll(melody.notes, parseFloat);
    if audio.Failure? then Failure(HttpError(ServerError, "Server Error: " + audio.error))
    else Success(Generated("Generated music for: '" + enhanced + "'", UrlPrefix + fileId + WavSuffix,
                           audio.value, SampleRate))
  }

  /**
   * Without a key the request always succeeds, echoes the user's prompt and
   * writes the one-second default melody.
   */
  lemma GenerateWithoutKey(userPrompt: string, llm: Llm, parse: string -> Option<Json>,
                           parseFloat: string -> Option<real>, factor: nat -> real, fileId: string)
    ensures var r := GenerateMusic(userPrompt, false, llm, parse, parseFloat, factor, fileId);
            && r.Success?
            && r.value.message == "Generated music for: '" + userPrompt + "'"
            && TotalSamples(r.value.tones) == SampleRate
  {
    DefaultMelodyLength(parseFloat);
  }

  /**
   * When the composer fails, the request still succeeds with five seconds
   * of random melody.
   */
  lemma GenerateWhenComposerFails(userPrompt: string, llm: Llm, parse: string -> Option<Json>,
                                  parseFloat: string -> Option<real>, factor: nat -> real, fileId: string)
    requires llm(Compose(userPrompt)).Failure?
    ensures var r := GenerateMusic(userPrompt, true, llm, parse, parseFloat, factor, fileId);
            && r.Success?
            && TotalSamples(r.value.tones) == 5 * SampleRate
  {
    RandomMelodyLength(userPrompt, factor, parseFloat);
  }
}
