# AI audio tour agent and music generator, modelled in Dafny

This project models two small Python applications from the AI-Agents
repository and proves properties of the model.

**The audio tour agent.** `TourManager.generate_tour` is a three-stage
language-model pipeline:

1. A planner writes a time-allocation plan.
2. One specialist per known interest (Architecture, History, Culinary,
   Culture) researches its topic, given the plan. The replies are collected
   in a Python dict.
3. An orchestrator merges the plan and the dict into one narrative.

The Streamlit page around it does the following:

- reads the four interest checkboxes;
- refuses to run without a key, a location or an interest;
- keeps the tour and the audio path in session state;
- derives the download file names, the audio path and the image URL from
  the location;
- picks the speech engine, voice and rate for the audio.

**The music generator.** `POST /generate` works in four steps:

1. It asks a model for a five-word description of the user's prompt.
2. It asks a composer model for a JSON melody. Without a key it uses a
   two-note default melody. When the composer fails it uses ten random
   notes.
3. It renders every note: it caps the duration at two seconds and computes
   the sample count and the ADSR (attack, decay, sustain, release) segment
   lengths. The first failing note turns the request into HTTP 500.
4. It returns the message and the URL of the WAV file.

**How the model treats the outside world.**

- Every language-model call goes through an oracle:
  - in the tour pipeline, a function from (call number, role and prompt) to
    reply-or-exception;
  - in the music server, a function from the request to reply-or-exception.
- Every call the tour pipeline issues is recorded in a trace. The
  pipeline's contract pins down the trace and the result completely.
- Python dict behaviour is modelled exactly by an association list (module
  `InsertionDict`): insertion order is kept and a re-assigned key keeps its
  place but takes the new value.
- `str.replace`, `str.strip`, `str.lower`, `str.split(" (")[0]`, `str(n)`
  and `int()` truncation are written out in module `Text`. The rate format
  `f"{p:+d}%"` is in module `TourApp`.

Modules:

- `Wrappers`: `Option` and `Result`.
- `Text`: the string operations listed above.
- `Agents`: the specialist table.
- `InsertionDict`: the dict model.
- `TourPrompts`: the three prompts, built over their fixed passages. The
  source's passages are copied exactly into `SourceWording`, and
  `SourcePrompts` builds the prompts over them. The pipeline and the
  prompt lemmas are proved for any wording, so they hold for the
  source's in particular.
- `TourManager`: the pipeline.
- `TourApp`: the page logic.
- `MusicServer`: the generator.

## Model

| member | source | states |
|---|---|---|
| TourManager.GenerateTour | ai_audio_tour_agent/manager.py:18-140 | The planner is called first with the planning prompt, and every call but the last succeeded. The run fails exactly when the last call raised, with that call's exception. Call i (1 ≤ i ≤ number of known interests) is the research call for the i-th known interest, carrying the plan the planner returned. Whenever a call follows the specialists (known+2 calls, whether or not it raises), that call is the orchestrator's, given the dict built from the known interests and their replies. On success there are exactly known+2 calls and the orchestrator's reply is the tour. |
| TourManager.GenerateSourceTour | ai_audio_tour_agent/manager.py:18-140 | The run the page makes, with the source's prompt texts: everything `GenerateTour` states, for `SourcePrompts`. |
| TourManager.TourRunReachesMerge | ai_audio_tour_agent/manager.py:97-140 | In a run that makes all known+2 calls, every call before the last succeeded, and the last is the orchestrator's call on the dict of specialist replies. |
| TourManager.SpecialistReplyAt | ai_audio_tour_agent/manager.py:89-90 | The k-th collected specialist reply is the reply to call k+1, the k-th research call. |
| TourManager.OrchestratorPromptBlock | ai_audio_tour_agent/manager.py:62-129 | In a run that reaches the orchestrator, with any prompt texts whose merge prompt has the source's layout (the source's own texts among them), the orchestrator's prompt contains the plan. Its blocks follow the order in which the interests were first selected, each distinct interest once. Block j is the header of the j-th such interest followed by the reply to the last research call made for it. It sits at its offset and ends where block j+1 starts. |
| TourManager.ResearchAll | ai_audio_tour_agent/manager.py:62-95 | The specialist loop issues one research call per interest that has a specialist, in request order, and stops at the first exception. On success all calls succeeded and the dict maps the researched interests to their replies. On failure only the last call failed. |
| TourManager.KnownInterests | ai_audio_tour_agent/manager.py:65-66 | The filter never yields more interests than were requested. Which interests it keeps, and how often, is stated by KnownInterestsCount. |
| TourManager.KnownInterestsCount | ai_audio_tour_agent/manager.py:65-66 | An interest is researched as often as it occurs in the request when it has a specialist, and never otherwise. |
| TourManager.KnownInterestsAllKnown | ai_audio_tour_agent/manager.py:63-66 | When every requested interest has a specialist, exactly the requested interests are researched, in order. |
| TourManager.KnownInterestsPrefix | ai_audio_tour_agent/manager.py:65-66 | Filtering a prefix of the request gives a prefix of the filtered request. This is why the loop's partial trace is a prefix of the full one. |
| TourManager.LoopResearched | ai_audio_tour_agent/manager.py:89-90 | A successful research call appends one call to the trace and stores its reply in the dict under the interest. |
| TourManager.LoopFailed | ai_audio_tour_agent/manager.py:89-90 | A raising research call ends the loop with that call last, and every earlier call succeeded. |
| InsertionDict.Put | ai_audio_tour_agent/manager.py:90 | A new key is appended to the key order and an existing key keeps its place. The key maps to the new value and every other key is unchanged. |
| InsertionDict.FromPairsKeySet | ai_audio_tour_agent/manager.py:62-90 | A key is in the dict exactly when it was assigned at least once. |
| InsertionDict.FromPairsKeysDistinct | ai_audio_tour_agent/manager.py:62-90 | Each key appears once in the dict, however often it was assigned. |
| InsertionDict.FromPairsKeyOrder | ai_audio_tour_agent/manager.py:90-114 | The dict iterates its keys in the order of their first assignment. |
| InsertionDict.FromPairsValues | ai_audio_tour_agent/manager.py:90 | After a run of assignments every key maps to the value of its last assignment, and unassigned keys are absent. |
| InsertionDict.FromPairsItems | ai_audio_tour_agent/manager.py:62-114 | `.items()` after the assignments yields each distinct key once, in first-assignment order, paired with the value of that key's last assignment. |
| InsertionDict.FromPairsFirstSeen | ai_audio_tour_agent/manager.py:90-114 | Whatever the values, the keys of the built dict are the assigned keys with repeats dropped, each kept where it first occurs. |
| InsertionDict.FirstSeenKeys | ai_music_generator_agent/main.py:131-146 | Dropping repeats keeps every element once and loses none, and keeps the order of first occurrence. |
| InsertionDict.FromPairsDistinct | ai_audio_tour_agent/manager.py:90 | With distinct keys, the dict lists exactly the assignments in order. |
| InsertionDict.PutNewKey | ai_audio_tour_agent/manager.py:90 | Assigning a key not yet present appends that entry at the end. |
| TourPrompts.PlanningPromptMentions | ai_audio_tour_agent/manager.py:42-53 | Whatever the fixed wording, the planning prompt contains the location, the duration and the comma-joined interests. |
| TourPrompts.ResearchPromptMentions | ai_audio_tour_agent/manager.py:73-87 | Whatever the fixed wording, a research prompt contains the lower-cased interest, the location, the duration and the plan text. |
| TourPrompts.MergePromptLayout | ai_audio_tour_agent/manager.py:101-129 | The merge prompt contains the plan and every dict entry's block. Each block starts where the previous entry's block ends, so the blocks appear in the dict's iteration order. |
| TourPrompts.MergePromptItems | ai_audio_tour_agent/manager.py:62-129 | For the dict built by a run of assignments, the merge prompt contains the plan and one block per distinct key, in first-assignment order. Each block carries the value of its key's last assignment and ends where the next starts. |
| TourPrompts.BlockShape | ai_audio_tour_agent/manager.py:115 | A section is the header line `--- interest ---` between newlines, then the content at a fixed offset, then a final newline. Its length is the two texts' lengths plus 11. |
| TourPrompts.BlocksSplit | ai_audio_tour_agent/manager.py:114-115 | The concatenated blocks split around any entry into the earlier blocks, that entry's block and the later blocks. |
| TourPrompts.BlocksAppend | ai_audio_tour_agent/manager.py:114-115 | The blocks of two consecutive runs of entries are the two runs' blocks concatenated. |
| TourApp.SelectedInterestsSpec | ai_audio_tour_agent/ai_audio_tour_agent.py:150-165 | An interest is in the list exactly when its checkbox is ticked. The list keeps checkbox order, has no duplicates, and every member has a specialist. |
| TourApp.SelectedMembership | ai_audio_tour_agent/ai_audio_tour_agent.py:150-165 | Over distinct options, an option is selected exactly when its box is ticked. |
| TourApp.SelectedOrder | ai_audio_tour_agent/ai_audio_tour_agent.py:150-165 | Selected options appear in the order they are laid out. |
| TourApp.OnGenerateTour | ai_audio_tour_agent/ai_audio_tour_agent.py:119-207 | There are three guards: missing key, then missing location, then no interest. The manager is called exactly when all three pass, with the source's prompt texts and the selected interests, and the whole run is the one `TourManager.GenerateTour` describes: planner, one specialist per interest, orchestrator, fail-fast. Without a call the session is unchanged. On success the tour is stored and the audio path is reset. On failure the session is unchanged and the error is the raising call's exception. Session consistency is preserved. |
| TourApp.FileStemHasNoSpace | ai_audio_tour_agent/ai_audio_tour_agent.py:291 | The file-name stem contains no space. |
| TourApp.FileStemIdempotent | ai_audio_tour_agent/ai_audio_tour_agent.py:291 | Replacing spaces by underscores a second time changes nothing. |
| TourApp.TextFileName | ai_audio_tour_agent/ai_audio_tour_agent.py:291 | The text download name is the location with spaces turned into underscores, followed by `_tour.txt`, and it contains no space. |
| TourApp.AudioFileName | ai_audio_tour_agent/ai_audio_tour_agent.py:306 | The audio file name is the location with spaces turned into underscores, followed by `_tour.mp3`, and it contains no space. |
| TourApp.FileNamesShareStem | ai_audio_tour_agent/ai_audio_tour_agent.py:291-306 | Both names start with the same stem, and the text name of a location equals the text name of its stem. |
| TourApp.AudioPath | ai_audio_tour_agent/ai_audio_tour_agent.py:302-307 | The audio path is `audio_tours/` followed by the file name. A location starting with `/` makes `os.path.join` return the file name alone. The path never contains a space. |
| TourApp.VoiceId | ai_audio_tour_agent/ai_audio_tour_agent.py:315 | The voice id is a prefix of the label that holds no " (", and it stops exactly at the label's first " (" when there is one. |
| TourApp.VoiceIdOfLabel | ai_audio_tour_agent/ai_audio_tour_agent.py:315 | For a voice id without spaces, splitting the label `id (Gender)` at the first " (" gives back the id. |
| TourApp.EdgeVoiceIdExamples | ai_audio_tour_agent/ai_audio_tour_agent.py:254-265 | The first and last entries of the voice list give the ids `en-US-AriaNeural` and `en-IN-PrabhatNeural`. |
| TourApp.ChooseSynthesis | ai_audio_tour_agent/ai_audio_tour_agent.py:309-336 | Edge TTS is used exactly when the engine label contains "Edge TTS". It gets the voice id and the rate string formatted from the truncated percent offset, which reads back as that offset. Otherwise gTTS is used, slow exactly below 0.9x. |
| TourApp.RatePercent | ai_audio_tour_agent/ai_audio_tour_agent.py:318 | The offset is `(speed - 1) * 100` truncated toward zero: rounded down from 1.0x upward, rounded up below 1.0x. |
| TourApp.RateText | ai_audio_tour_agent/ai_audio_tour_agent.py:319 | The rate string is a sign (`-` exactly for a negative offset, otherwise `+`), then decimal digits without a leading zero, then `%`. |
| TourApp.RateTextRoundTrip | ai_audio_tour_agent/ai_audio_tour_agent.py:318-319 | The signed percent string reads back as the offset it was formatted from. |
| TourApp.RatePercentRange | ai_audio_tour_agent/ai_audio_tour_agent.py:273-280 | Over the slider's range 0.5 to 2.0 the offset lies between -50 and +100, and 1.0x gives `+0%`. |
| TourApp.RatePercentMonotone | ai_audio_tour_agent/ai_audio_tour_agent.py:318 | A faster speed never gives a smaller offset. |
| TourApp.EngineOptionsSelect | ai_audio_tour_agent/ai_audio_tour_agent.py:244-251 | The first engine option selects Edge TTS and the second selects gTTS. |
| TourApp.SlowIsDownwardClosed | ai_audio_tour_agent/ai_audio_tour_agent.py:335 | If gTTS is slow at some speed, it is slow at every lower speed. |
| TourApp.AudioJob | ai_audio_tour_agent/ai_audio_tour_agent.py:210-309 | The audio section exists exactly when a non-empty tour is stored. The speech job speaks that tour to the audio path, with the engine, voice and rate that `ChooseSynthesis` picks. |
| TourApp.AfterAudio | ai_audio_tour_agent/ai_audio_tour_agent.py:339-344 | A successful synthesis records the audio path. A failed one leaves the session unchanged. The tour is never touched. |
| TourApp.AudioKeepsConsistent | ai_audio_tour_agent/ai_audio_tour_agent.py:298-345 | An audio path is only ever stored next to a stored tour. |
| TourApp.ImageUrl | ai_audio_tour_agent/ai_audio_tour_agent.py:224-226 | The image URL starts with the Pollinations endpoint and contains no space. |
| TourApp.ImageUrlDecodes | ai_audio_tour_agent/ai_audio_tour_agent.py:226 | Decoding `%20` in the URL's path gives back the image prompt, when the location and main interest contain no `%`. |
| TourApp.ImagePromptMentions | ai_audio_tour_agent/ai_audio_tour_agent.py:224-225 | The image prompt names the location and the first selected interest, or "travel" when none is selected. |
| Text.ReplaceCharPointwise | ai_audio_tour_agent/ai_audio_tour_agent.py:291 | Replacing one character by another keeps the length and maps each position independently. |
| Text.SpaceEncodingRoundTrip | ai_audio_tour_agent/ai_audio_tour_agent.py:226 | Encoding spaces as `%20` and decoding back is the identity on text without `%`. |
| Text.BeforeFirst | ai_audio_tour_agent/ai_audio_tour_agent.py:315 | `split(sep)[0]` is the prefix before the first occurrence of the separator, or the whole text when there is none. |
| Text.Strip | ai_music_generator_agent/main.py:32 | `strip()` removes exactly the leading and trailing whitespace. The result's ends are not whitespace. |
| Text.StripUnique | ai_music_generator_agent/main.py:32 | Any slice with non-whitespace ends and only whitespace around it is the stripped text. |
| Text.StripIdempotent | ai_music_generator_agent/main.py:32 | Stripping twice is stripping once. |
| Text.RemoveTripleTicks | ai_music_generator_agent/main.py:130 | After removing every "```" in one pass, no "```" remains. |
| Text.NatToString | ai_audio_tour_agent/ai_audio_tour_agent.py:319 | The decimal text of a number is non-empty, all digits, and starts with `0` only for zero. |
| Text.NatToStringRoundTrip | ai_audio_tour_agent/ai_audio_tour_agent.py:319 | The decimal text of a number reads back as that number. |
| Text.Trunc | ai_music_generator_agent/main.py:81 | `int()` truncates toward zero. |
| MusicServer.ServerKey | ai_music_generator_agent/main.py:27-34 | A key is configured exactly when the variable is set and not blank once stripped. The key is the stripped value. |
| MusicServer.ServerKeyTrimmed | ai_music_generator_agent/main.py:32 | The configured key has no surrounding whitespace. |
| MusicServer.RequestTextQuotes | ai_music_generator_agent/main.py:165-175 | The enhancement prompt and the composer prompt both quote the user's text verbatim. |
| MusicServer.EnhancePrompt | ai_music_generator_agent/main.py:164-175 | With a key and a non-empty reply, the message uses the stripped reply. Otherwise, including after an exception, it uses the user's prompt. |
| MusicServer.EnhancedPromptShape | ai_music_generator_agent/main.py:164-175 | The enhanced prompt is the user's prompt or a text without surrounding whitespace. Without a key, or after a failed call, it is the user's prompt. |
| MusicServer.Iterate | ai_music_generator_agent/main.py:131-146 | `for` over a decoded value yields an array's items, a string's characters as strings, and an object's distinct member names in first-occurrence order. |
| MusicServer.IterateObject | ai_music_generator_agent/main.py:131-146 | Iterating an object yields each member name exactly once, as a string, in the order the names first occur. |
| MusicServer.CleanReply | ai_music_generator_agent/main.py:128-130 | The cleaned composer reply never contains "```". |
| MusicServer.CleanReplyPlain | ai_music_generator_agent/main.py:128-130 | A reply without backticks is only stripped. |
| MusicServer.CleanReplyFenced | ai_music_generator_agent/main.py:128-130 | A reply fenced as "```json" … "```" around backtick-free JSON gives back exactly that JSON. |
| MusicServer.ComposeMelody | ai_music_generator_agent/main.py:107-142 | The default melody is used exactly without a key. The composed melody is used exactly when the call succeeds, the cleaned reply parses and the value has a length, and it is then the values `for` iterates over. In every other case the random melody is used. |
| MusicServer.BaseFrequency | ai_music_generator_agent/main.py:137 | The random melody's base is 220 Hz or 440 Hz. |
| MusicServer.SadPromptIsLower | ai_music_generator_agent/main.py:137 | Any three characters that lower-case to "sad", anywhere in the prompt, select the 220 Hz base. |
| MusicServer.SadPromptOnlyIfPresent | ai_music_generator_agent/main.py:137 | A prompt in which no three consecutive characters lower-case to "sad" keeps the 440 Hz base. |
| MusicServer.RandomMelody | ai_music_generator_agent/main.py:136-142 | The random melody has ten notes. Note i is an object with `freq` equal to the base times the i-th random factor and `duration` 0.5. |
| MusicServer.SampleCount | ai_music_generator_agent/main.py:81 | The sample count is the whole number of samples in the duration. It is truncated toward zero on both sides: rounded down for a non-negative duration, rounded up for a negative one. It is negative exactly when the duration is at least one sample below zero, and at most 88200 for a capped note. |
| MusicServer.Lookup | ai_music_generator_agent/main.py:147-148 | `get` finds a key exactly when it is present, and then returns the value of its last occurrence. |
| MusicServer.ToFloat | ai_music_generator_agent/main.py:147-148 | A number converts to itself and a boolean to 1 or 0. A string converts exactly when the string parser accepts it, to the parsed value. `None`, lists and objects raise. |
| MusicServer.EnvelopeOf | ai_music_generator_agent/main.py:88-103 | The four ADSR segments add up to the wave's length, so the resize branch never fires. Attack and decay are a tenth, release a fifth, and sustain at least six tenths. |
| MusicServer.RenderNote | ai_music_generator_agent/main.py:146-151 | A non-object raises on `get`. A rendered note plays for at most 2 s. Its sample count is that of its duration and at most 88200, and its envelope covers the wave exactly. |
| MusicServer.RenderNoteReads | ai_music_generator_agent/main.py:147-151 | For an object, `freq` (default 440) is converted first and its error wins, then `duration` (default 0.5). The note renders exactly when both convert and `min(duration, 2)` gives a non-negative sample count, and otherwise fails with the negative-count error. A rendered note plays the converted frequency for `min(duration, 2)` seconds. |
| MusicServer.Capped | ai_music_generator_agent/main.py:150 | `min(duration, 2.0)`: never above either argument, and equal to one of them. |
| MusicServer.RenderNoteNumbers | ai_music_generator_agent/main.py:147-151 | When both members read as numbers, wherever they sit in the object, the note renders exactly when the capped duration has a non-negative sample count, with that frequency and capped duration. |
| MusicServer.RenderNoteObject | ai_music_generator_agent/main.py:147-150 | A `{"freq": f, "duration": d}` note renders exactly when `min(d, 2)` has a non-negative sample count, and then plays f for `min(d, 2)` seconds. |
| MusicServer.RenderNoteMissingDuration | ai_music_generator_agent/main.py:147-148 | An object with a numeric `freq` (the last one wins) and no `duration`, with any other members in any order, plays that frequency for half a second, 22050 samples. |
| MusicServer.RenderNoteDefaults | ai_music_generator_agent/main.py:147-148 | An object without `freq` or `duration` plays 440 Hz for half a second, 22050 samples. |
| MusicServer.RenderNoteCapped | ai_music_generator_agent/main.py:150 | A duration of 2 s or more plays for exactly 2 s, 88200 samples. |
| MusicServer.RenderAll | ai_music_generator_agent/main.py:146-153 | Rendering succeeds exactly when every note renders, with one tone per note. Otherwise it fails with the error of a failing note. |
| MusicServer.HalfSecondNotes | ai_music_generator_agent/main.py:146-153 | A melody of numeric half-second notes renders to 22050 samples per note. |
| MusicServer.DefaultMelodyLength | ai_music_generator_agent/main.py:111 | The default melody renders to exactly one second of audio. |
| MusicServer.RandomMelodyLength | ai_music_generator_agent/main.py:133-142 | The random melody renders to exactly five seconds, whatever the random draws. |
| MusicServer.GenerateMusic | ai_music_generator_agent/main.py:157-210 | The request succeeds exactly when every note of the chosen melody renders. It then reports the enhanced prompt, the URL `/static/generated/<id>.wav` and 44100 Hz audio. Otherwise it is HTTP 500 with `Server Error: ` and the note's error. |
| MusicServer.GenerateWithoutKey | ai_music_generator_agent/main.py:164-204 | Without a key the request always succeeds, echoes the user's prompt and writes one second of audio. |
| MusicServer.GenerateWhenComposerFails | ai_music_generator_agent/main.py:133-142 | When the composer call raises, the request still succeeds with five seconds of random melody. |

### Where the code differs from what one might expect

The model follows the code in each of these cases:

- The manager accepts an empty interest list and runs planner and
  orchestrator without specialists. Only the page's guard rejects it.
- An empty reply from an agent is not an error anywhere. The narrative can
  be empty, and then the page shows nothing: `if st.session_state.tour_content`
  is false for `""`.
- Exceptions are re-raised unchanged. The failing stage is visible from the
  trace: the call index and its role.
- Interests are a list. A repeated ticked interest cannot occur on the
  page, but the manager researches a repeated interest again. The dict
  keeps the first position and the last reply.
- `GOOGLE_API_KEY` is read twice (`getenv(A) or getenv(A)`). No other
  variable is consulted.

## Left out

- Rendering, spinners, messages and download widgets (Streamlit), and the
  speech engines, file writes, `os.makedirs` and `os.path.exists` (the
  audio player's condition). These are I/O. The audio job is modelled as a
  request plus its outcome.
- The agents' instructions and model configuration (`agent.py`), the
  printer and `.env` loading. These are external services and output. The
  model uses the specialist table only.
- The page's tour-duration slider (ai_audio_tour_agent.py:136-143) has a
  default of 15 outside its 1 to 2 range. Streamlit is believed to reject
  such a default with an exception when it draws the slider. That would stop
  the page before the button is reached. This is not verified here. The
  model takes the duration as an input and does not model the widget.
- `TourApp.RatePercent`: uses exact real arithmetic, while `(speech_rate - 1.0) * 100` is computed in binary floating point. For example, 0.9x gives -10 here but -9 in IEEE doubles.
- `MusicServer.SampleCount`: `44100 * duration` is an exact real product, not a rounded double. For durations that are multiples of 0.5 s the two agree.
- `MusicServer.EnvelopeOf`: writes `int(0.1 * n)` and `int(0.2 * n)` as `n / 10` and `n / 5`. The two agree in IEEE doubles because the doubles 0.1 and 0.2 lie slightly above 1/10 and 1/5, so the rounded product never falls below an integer quotient.
- Sample values (`sin`, harmonics, envelope levels), `np.resize`, float32 conversion and the WAV encoding. This is floating-point signal data; a note is described by its sample count and segment lengths.
- `2 ** (random.randint(0, 12) / 12)` is the `factor` parameter of the random melody, `json.loads` the `parse` parameter, `float()` of a string the `parseFloat` parameter, and `uuid4()` the `fileId` parameter. These are randomness and foreign parsers.
- `TourApp.AudioPath`: models POSIX `os.path.join`, which joins with `/`. On Windows the separator is `\` and the path is `audio_tours\<name>`.
- `MusicServer.ToFloat`: numbers are exact reals, so `NaN`, `Infinity` and `-Infinity` do not exist in the model, although `json.loads` and `float()` accept them. In the source, a `NaN` duration survives `min`, and `int()` then raises at main.py:81, giving HTTP 500. A `-Infinity` duration makes `int()` raise `OverflowError`, also HTTP 500. An `Infinity` duration is capped at two seconds. `float()` of a JSON integer beyond the double range raises `OverflowError` (main.py:147-148), giving HTTP 500 (main.py:210). The model converts it to a `Success`, and a huge duration is capped at 2 s. `MusicServer.RenderNote` therefore covers values within the double range only.
- `Text.Lower`: maps ASCII letters only; Python's `str.lower` also folds non-ASCII letters.
- The MusicGen branch of `generate_music` and the start-up hook. `USE_FALLBACK` is always true (main.py:51), so this code is dead.
- The exact wording of Python exception messages. The model uses fixed texts.
- A reply whose `.text` raises (no candidates) is modelled as the oracle's exception.
