/** The helpers of `murphy/src/lib/tts.ts`: the voice table and its accent
    filter, the text handed to speech synthesis, the duration estimate, and
    the decisions `generateAudioFromText` takes around its one request. */
module Tts {
  import opened Wrappers
  import opened Seqs
  import opened Strings
  import opened Podcast

  // ---------------------------------------------------------------- voices

  /** A voice: its id, the label shown for it (`label`) and its accent. */
  datatype VoiceOption = VoiceOption(value: string, displayLabel: string, accent: string)

  const AmericanVoices: seq<VoiceOption> := [
    VoiceOption("en-US-terrell", "Terrell (US Male)", "American"),
    VoiceOption("en-US-lisa", "Lisa (US Female)", "American"),
    VoiceOption("en-US-marcus", "Marcus (US Male)", "American"),
    VoiceOption("en-US-sarah", "Sarah (US Female)", "American")
  ]

  const BritishVoices: seq<VoiceOption> := [
    VoiceOption("en-GB-oliver", "Oliver (UK Male)", "British"),
    VoiceOption("en-GB-emma", "Emma (UK Female)", "British")
  ]

  const AustralianVoices: seq<VoiceOption> := [
    VoiceOption("en-AU-jack", "Jack (AU Male)", "Australian"),
    VoiceOption("en-AU-sophie", "Sophie (AU Female)", "Australian")
  ]

  /** `VOICE_OPTIONS`, in table order: four American, two British and two
      Australian voices. */
  const VoiceOptions: seq<VoiceOption> := AmericanVoices + BritishVoices + AustralianVoices

  /** `getVoicesByAccent`: the voices with exactly that accent, in table
      order. */
  function GetVoicesByAccent(accent: string): (r: seq<VoiceOption>)
    ensures forall v :: v in r <==> v in VoiceOptions && v.accent == accent
  {
    Filter(AccentIs(accent), VoiceOptions)
  }

  /** The test `voice => voice.accent === accent`. */
  function AccentIs(accent: string): VoiceOption -> bool {
    (v: VoiceOption) => v.accent == accent
  }

  /** Filtering a block of voices that share one accent keeps the whole
      block or none of it. */
  lemma FilterBlock(accent: string, block: seq<VoiceOption>, blockAccent: string)
    requires forall i :: 0 <= i < |block| ==> block[i].accent == blockAccent
    ensures Filter(AccentIs(accent), block) == if accent == blockAccent then block else []
  {
    if accent == blockAccent {
      FilterAll(AccentIs(accent), block);
    } else {
      FilterNone(AccentIs(accent), block);
    }
  }

  /** Filtering three concatenated blocks filters each block. */
  lemma FilterThreeParts(p: VoiceOption -> bool, a: seq<VoiceOption>, b: seq<VoiceOption>, c: seq<VoiceOption>)
    ensures Filter(p, a + b + c) == Filter(p, a) + Filter(p, b) + Filter(p, c)
  {
    FilterAppend(p, a + b, c);
    FilterAppend(p, a, b);
  }

  /** A table of three blocks with three distinct accents: the filter for
      an accent keeps the block of that accent, or nothing. */
  lemma FilterThreeBlocks(accent: string, a: seq<VoiceOption>, b: seq<VoiceOption>, c: seq<VoiceOption>,
                          accentA: string, accentB: string, accentC: string)
    requires accentA != accentB && accentB != accentC && accentA != accentC
    requires forall i :: 0 <= i < |a| ==> a[i].accent == accentA
    requires forall i :: 0 <= i < |b| ==> b[i].accent == accentB
    requires forall i :: 0 <= i < |c| ==> c[i].accent == accentC
    ensures Filter(AccentIs(accent), a + b + c) ==
      if accent == accentA then a else if accent == accentB then b else if accent == accentC then c else []
  {
    var p := AccentIs(accent);
    FilterThreeParts(p, a, b, c);
    FilterBlock(accent, a, accentA);
    FilterBlock(accent, b, accentB);
    FilterBlock(accent, c, accentC);
    OneOfThree(a, b, c);
  }

  /** Three blocks with at most one of them kept. */
  lemma OneOfThree(a: seq<VoiceOption>, b: seq<VoiceOption>, c: seq<VoiceOption>)
    ensures a + [] + [] == a && [] + b + [] == b && [] + [] + c == c
  {
  }

  /** Each accent of the table selects its own block, in table order; any
      other accent, including a different spelling or case, selects
      nothing. */
  lemma VoicesByAccentBlocks(accent: string)
    ensures GetVoicesByAccent(accent) ==
      if accent == "American" then AmericanVoices
      else if accent == "British" then BritishVoices
      else if accent == "Australian" then AustralianVoices
      else []
  {
    FilterThreeBlocks(accent, AmericanVoices, BritishVoices, AustralianVoices, "American", "British", "Australian");
  }

  // ------------------------------------------------------------ TTS text

  /** `createTTSContent`: the template literal opening with a line feed,
      then title, blank line, description, blank line, content, and a line
      feed with two spaces, trimmed. */
  function CreateTTSContent(podcast: PodcastContent): string {
    Trim("\n" + podcast.title + "\n\n" + podcast.description + "\n\n" + podcast.content + "\n  ")
  }

  /** The template's own padding never reaches the result: it is the trimmed
      title, description and content joined by blank lines. */
  lemma {:induction false} CreateTTSContentIsTrimmedJoin(podcast: PodcastContent)
    ensures CreateTTSContent(podcast) ==
      Trim(podcast.title + "\n\n" + podcast.description + "\n\n" + podcast.content)
  {
    var body := podcast.title + "\n\n" + podcast.description + "\n\n" + podcast.content;
    assert "\n" + podcast.title + "\n\n" + podcast.description + "\n\n" + podcast.content + "\n  "
      == "\n" + body + "\n  ";
    TrimOfPadded("\n", body, "\n  ");
  }

  // ------------------------------------------------------ duration estimate

  /** The pieces of `text.split(/\s+/)`: never fewer than one. */
  function WordCount(text: string): (n: nat)
    ensures n >= 1
  {
    |SplitOnWhitespace(text)|
  }

  /** `Math.ceil(words / 150)`. */
  function MinutesFor(words: nat): nat {
    (words + 149) / 150
  }

  /** The minutes are the least whole number of 150-word minutes that hold
      the words. */
  lemma MinutesIsCeiling(words: nat)
    ensures MinutesFor(words) * 150 >= words
    ensures MinutesFor(words) == 0 || (MinutesFor(words) - 1) * 150 < words
  {
  }

  /** More words never take fewer minutes. */
  lemma MinutesMonotone(a: nat, b: nat)
    requires a <= b
    ensures MinutesFor(a) <= MinutesFor(b)
  {
  }

  const LessThanOneMinute: string := "Less than 1 minute"

  /** The three-way label of `estimateAudioDuration`. */
  function DurationLabel(minutes: nat): string {
    if minutes < 1 then LessThanOneMinute
    else if minutes == 1 then "1 minute"
    else NatToString(minutes) + " minutes"
  }

  /** `estimateAudioDuration`. */
  function EstimateAudioDuration(text: string): string {
    DurationLabel(MinutesFor(WordCount(text)))
  }

  /** Every text gets a label in whole minutes: "1 minute" up to 150 words,
      "{minutes} minutes" beyond; "Less than 1 minute" cannot be returned,
      because splitting always gives at least one piece. */
  lemma EstimateInWholeMinutes(text: string)
    ensures EstimateAudioDuration(text) != LessThanOneMinute
    ensures EstimateAudioDuration(text) == "1 minute" <==> WordCount(text) <= 150
    ensures WordCount(text) > 150 ==>
      EstimateAudioDuration(text) == NatToString(MinutesFor(WordCount(text))) + " minutes"
  {
    var m := MinutesFor(WordCount(text));
    if m > 1 {
      var shown := NatToString(m) + " minutes";
      assert IsDigit(shown[0]);
      assert shown != LessThanOneMinute by {
        assert !IsDigit(LessThanOneMinute[0]);
      }
      assert shown != "1 minute" by {
        assert |shown| >= 9;
      }
    }
  }

  /** The boundary of the first minute. */
  lemma FirstMinuteBoundary()
    ensures DurationLabel(MinutesFor(150)) == "1 minute"
    ensures DurationLabel(MinutesFor(151)) == "2 minutes"
  {
    assert MinutesFor(151) == 2;
    assert NatToString(2) == "2";
  }

  /** A text of `k` words separated by single spaces counts `k` words. */
  lemma WordCountOfWords(words: seq<string>)
    requires |words| >= 1
    requires forall k :: 0 <= k < |words| ==> |words[k]| > 0 && NoWhitespace(words[k])
    ensures WordCount(Join(words, ' ')) == |words|
  {
    SplitOnWhitespaceJoin(words);
  }

  // ------------------------------------------------- generateAudioFromText

  datatype TtsOptions = TtsOptions(text: string, voiceId: Option<string>)

  datatype TtsResponse = TtsResponse(audioFile: string, success: bool, error: Option<string>)

  /** The body posted to the speech service. */
  datatype TtsRequest = TtsRequest(text: string, voiceId: string)

  /** The voice the request always names. */
  const FixedVoice: string := "en-US-terrell"

  const MockAudio: string := "data:audio/mp3;base64,mock-audio-data"

  /** The error response of the service, when the thrown error has one. */
  datatype ErrorReply = ErrorReply(status: nat, message: Option<string>)

  /** What `axios.post` gives back: the `audioFile` of the reply body, or
      the thrown error's `response`, whether it has a `request`, and its
      `code`. */
  datatype PostOutcome =
    | Replied(audioFile: Option<string>)
    | Threw(response: Option<ErrorReply>, hasRequest: bool, code: Option<string>)

  // The long messages are written in two pieces so that their first
  // characters are visible to the verifier.
  const NetworkErrorMessage: string := "Network error" + " - please check your connection"
  const TimeoutMessage: string := "Request timeout" + " - audio generation took too long"
  const DefaultErrorMessage: string := "Failed to generate audio"

  /** The message chosen in the `catch` block, testing `response`, then
      `request`, then `code === 'ECONNABORTED'`. */
  function ErrorMessage(response: Option<ErrorReply>, hasRequest: bool, code: Option<string>): string {
    if response.Some? then
      var message := response.value.message;
      "API Error: " + NatToString(response.value.status) + " - " +
        (if message.Some? && message.value != "" then message.value else "Unknown error")
    else if hasRequest then NetworkErrorMessage
    else if code == Some("ECONNABORTED") then TimeoutMessage
    else DefaultErrorMessage
  }

  /** Whether a value is truthy in JavaScript: present and not empty. */
  predicate Present(s: Option<string>) {
    s.Some? && s.value != ""
  }

  /** `generateAudioFromText`, given the public API key variable and the
      outcome of posting a request. */
  function GenerateAudioFromText(options: TtsOptions, apiKey: Option<string>, post: TtsRequest -> PostOutcome): TtsResponse {
    if |Trim(options.text)| == 0 then TtsResponse("", false, Some("Text content is required"))
    else if !Present(apiKey) then TtsResponse(MockAudio, true, None)
    else
      match post(TtsRequest(options.text, FixedVoice))
      case Replied(audioFile) =>
        if Present(audioFile) then TtsResponse(audioFile.value, true, None)
        else TtsResponse("", false, Some("Invalid response from MURF API"))
      case Threw(response, hasRequest, code) =>
        TtsResponse("", false, Some(ErrorMessage(response, hasRequest, code)))
  }

  /** Text that is empty or only white space is refused before the key is
      looked at and before anything is posted. */
  lemma BlankTextRefused(options: TtsOptions, apiKey: Option<string>, post: TtsRequest -> PostOutcome)
    requires AllWhitespace(options.text)
    ensures GenerateAudioFromText(options, apiKey, post) == TtsResponse("", false, Some("Text content is required"))
  {
    TrimEmptyIff(options.text);
  }

  /** Without a key, any text with a visible character gets the mock audio. */
  lemma MissingKeyGivesMock(options: TtsOptions, apiKey: Option<string>, post: TtsRequest -> PostOutcome)
    requires !AllWhitespace(options.text) && !Present(apiKey)
    ensures GenerateAudioFromText(options, apiKey, post) == TtsResponse(MockAudio, true, None)
  {
    TrimEmptyIff(options.text);
  }

  /** The requested voice is ignored: the response does not depend on
      `voiceId`. */
  lemma VoiceIdIgnored(text: string, voice1: Option<string>, voice2: Option<string>,
                       apiKey: Option<string>, post: TtsRequest -> PostOutcome)
    ensures GenerateAudioFromText(TtsOptions(text, voice1), apiKey, post) ==
      GenerateAudioFromText(TtsOptions(text, voice2), apiKey, post)
  {
  }

  /** The only request ever posted is the text under the fixed voice
      `en-US-terrell`: any service that answers that one request alike
      gives the same response. */
  lemma OnlyFixedVoicePosted(options: TtsOptions, apiKey: Option<string>,
                             post: TtsRequest -> PostOutcome, other: TtsRequest -> PostOutcome)
    requires other(TtsRequest(options.text, FixedVoice)) == post(TtsRequest(options.text, FixedVoice))
    ensures GenerateAudioFromText(options, apiKey, other) == GenerateAudioFromText(options, apiKey, post)
  {
  }

  /** Every response either succeeds with a non-empty audio file and no
      error, or fails with an empty audio file and an error message. */
  lemma ResponseShape(options: TtsOptions, apiKey: Option<string>, post: TtsRequest -> PostOutcome)
    ensures var r := GenerateAudioFromText(options, apiKey, post);
      (r.success <==> r.error.None?) && (r.success ==> r.audioFile != "") && (!r.success ==> r.audioFile == "")
  {
  }

  /** An error with a response is reported as an API error with its status,
      whatever else it carries; no other error is. After `API Error:
      <status> - ` comes the service's message, or "Unknown error" when it
      has none or an empty one. */
  lemma ApiErrorFirst(response: Option<ErrorReply>, hasRequest: bool, code: Option<string>)
    ensures StartsWith(ErrorMessage(response, hasRequest, code), "API Error: ") <==> response.Some?
    ensures response.Some? ==>
      StartsWith(ErrorMessage(response, hasRequest, code), "API Error: " + NatToString(response.value.status) + " - ")
    ensures response.Some? ==>
      var head := "API Error: " + NatToString(response.value.status) + " - ";
      var m := ErrorMessage(response, hasRequest, code);
      |m| >= |head| &&
      m[|head|..] == if Present(response.value.message) then response.value.message.value else "Unknown error"
  {
    var m := ErrorMessage(response, hasRequest, code);
    if response.Some? {
      var head := "API Error: " + NatToString(response.value.status) + " - ";
      var message := response.value.message;
      assert m == head + (if message.Some? && message.value != "" then message.value else "Unknown error");
      assert m[..|head|] == head;
      assert m[|head|..] == if Present(message) then message.value else "Unknown error";
      assert head[..11] == "API Error: ";
    } else {
      assert NetworkErrorMessage[0] == 'N' && TimeoutMessage[0] == 'R' && DefaultErrorMessage[0] == 'F';
    }
  }

  /** A timeout is reported as such only when the error has neither a
      response nor a request. */
  lemma TimeoutOnlyWithoutResponseOrRequest(response: Option<ErrorReply>, hasRequest: bool, code: Option<string>)
    ensures ErrorMessage(response, hasRequest, code) == TimeoutMessage <==>
      response.None? && !hasRequest && code == Some("ECONNABORTED")
  {
    if response.Some? {
      ApiErrorFirst(response, hasRequest, code);
      assert TimeoutMessage[0] == 'R';
    } else {
      assert |NetworkErrorMessage| != |TimeoutMessage| && |DefaultErrorMessage| != |TimeoutMessage|;
    }
  }
}
