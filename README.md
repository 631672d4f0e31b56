# murfy: a Dafny model of the podcast audio core

murfy turns a podcast script into audio. A script is a text whose lines
start with a speaker's name and a colon. The model covers six parts of the
repository:

- **Script parsing** (`murphy/src/murphy/contents.ts`). A JavaScript `Map`
  is built from speaker name to voice id. The script is normalised: runs of
  spaces collapsed, split on line feeds, lines trimmed, empty lines dropped.
  Each line is then matched against the map's keys in iteration order, and
  one `{ voiceId: text }` entry is emitted per matched line.
- **Audio assembly** (`generateAudio`, same file):
  - one speech request per entry, each clip saved as `part<i>.mp3`;
  - failed entries dropped;
  - an ffmpeg concat manifest written;
  - ffmpeg run, then best-effort deletion of the clips and the manifest.

  The voice map and the file system are classes whose methods update them
  in place. `generateAudio`, its fan-out and its cleanup loop are methods
  proved against specification functions.
- **TTS helpers** (`murphy/src/lib/tts.ts`):
  - the voice table and its accent filter;
  - the text handed to speech synthesis;
  - the duration estimate;
  - `generateAudioFromText` with its error classification.
- **Theme enhancement** (`murphy/src/lib/gemini.ts`): the theme table, the
  unsupported-theme error, and the per-theme templates for title,
  description and body.
- **The `POST /api/generate-audio` handler**
  (`murphy/src/app/api/generate-audio/route.ts`): the ordered checks, and
  how the success and failure responses are shaped.
- **The podcast document** (`murphy/src/lib/firebase.ts`) built by
  `addPodcast`, with its `urls` record projected onto seven languages.

Files:

| file | module |
|---|---|
| `wrappers.dfy` | `Wrappers` |
| `seqs.dfy` | `Seqs` |
| `strings.dfy` | `Strings` |
| `podcast.dfy` | `Podcast` |
| `contents.dfy` | `Contents` |
| `assembly.dfy` | `Assembly` |
| `tts.dfy` | `Tts` |
| `gemini.dfy` | `Gemini` |
| `route.dfy` | `GenerateAudioRoute` |
| `firebase.dfy` | `Firebase` |

`Seqs` and `Strings` are library-level helpers:

- `filter(Boolean)`;
- `trim`, and the collapsing of runs of spaces;
- `split` and `join`;
- rendering a number inside a template string;
- ASCII `toLowerCase`.

Parameters stand for what the code reaches outside itself:

- the speech service, the audio download and `execFile` are functions;
- `os.tmpdir()`, `Date.now()` and `path.resolve` are arguments;
- the request body, the environment variables, `fs.readFileSync` and
  base64 encoding are arguments.

Points where the code does less than a reader might expect, modelled as
the code has them:

- Temporary files are not namespaced by a job id. Clips are always
  `<tmpdir>/part<i>.mp3`, and the output is always `final.mp3`.
- There is no guard against zero surviving clips. An empty manifest is
  written and ffmpeg is still run.
- Cleanup happens only after ffmpeg succeeds. A failing ffmpeg leaves the
  clips and the manifest behind (`Assembly.ExecFailureDeletesNothing`).
- A repeated speaker name keeps its first position in the map. It takes
  the voice of its last occurrence, not its first
  (`Contents.VoiceTableLastWins`).
- `generatePodcastAudio` stops after parsing and returns nothing. So the
  route, as written, can never answer 200
  (`GenerateAudioRoute.UnfinishedGeneratorNeverSucceeds`).

## Model

| member | source | states |
|---|---|---|
| Contents.VoiceMap.constructor | murphy/src/murphy/contents.ts:14 | a new map has no keys and no entries |
| Contents.VoiceMap.Set | murphy/src/murphy/contents.ts:16 | `Map.set`: the entry for the name becomes the voice, all other entries unchanged; a new key goes to the end of the iteration order, a known key keeps its place |
| Contents.BuildVoiceMap | murphy/src/murphy/contents.ts:14-17 | the loop over `names` leaves keys in `InsertionOrder(names)` and entries `VoiceTable(names, speakers)`, with `undefined` for a missing speaker |
| Contents.InsertionOrderIsFirstOccurrences | murphy/src/murphy/contents.ts:14-17 | the map's iteration order is the names at their first occurrences, in order, without duplicates, and holds exactly the given names |
| Contents.VoiceTableLastWins | murphy/src/murphy/contents.ts:15-16 | every name is a key, and each name takes the speaker given with its last occurrence |
| Contents.DistinctNamesKeepOrderAndVoices | murphy/src/murphy/contents.ts:14-17 | with distinct names, iteration order is the names' order and `names[i]` maps to `speakers[i]` |
| Contents.FirstMatch | murphy/src/murphy/contents.ts:30-31 | the index found is the first name, in iteration order, that prefixes the line with a colon; none is found only when no name does |
| Contents.FirstMatchFinds | murphy/src/murphy/contents.ts:30-31 | a line that some name prefixes with a colon has a match |
| Contents.ParseLine | murphy/src/murphy/contents.ts:30-36 | one line's entry: the first matching name's voice with the trimmed text after its colon, or nothing when no name matches (stated by `ParseLineAt` and `UnmatchedLineEmitsNothing`) |
| Contents.ParseLineAt | murphy/src/murphy/contents.ts:31-35 | the entry of a line whose first match is `names[j]`: that name's voice, and the trimmed text after the colon |
| Contents.ParseLinesSingle | murphy/src/murphy/contents.ts:29-38 | one line contributes its entry, or nothing |
| Contents.ParseEachAppend | murphy/src/murphy/contents.ts:29 | the per-line results of a split script are those of its parts |
| Contents.ParseLinesAppend | murphy/src/murphy/contents.ts:29-38 | the entries of two concatenated line lists are the entries of each, in order |
| Contents.ParseLinesSnoc | murphy/src/murphy/contents.ts:29-38 | extending the processed lines by one line appends that line's entry, if any |
| Contents.ParseLinesCount | murphy/src/murphy/contents.ts:29-38 | at most one entry per line, and exactly one per line when every line matches a name |
| Contents.UnmatchedLineEmitsNothing | murphy/src/murphy/contents.ts:29-38 | a line that no name prefixes is dropped silently and can be removed without changing the result |
| Contents.ScriptLines | murphy/src/murphy/contents.ts:24-25 | the script with runs of spaces collapsed, split on line feeds, each line trimmed and empty lines dropped (its lines are stated by `ScriptLinesNormalised`) |
| Contents.ParseScript | murphy/src/murphy/contents.ts:23-41 | what `parsePodcastContent` returns: never more entries than the script has non-empty lines |
| Contents.TrimEachNormalised | murphy/src/murphy/contents.ts:25 | trimming single-spaced pieces gives trimmed, single-spaced lines |
| Contents.ScriptLinesNormalised | murphy/src/murphy/contents.ts:24-25 | every normalised line is non-empty, trimmed, and has no two spaces in a row |
| Contents.ParseLineSingleSpaced | murphy/src/murphy/contents.ts:33 | the text of an entry of a single-spaced line is single-spaced |
| Contents.ParseLinesSingleSpaced | murphy/src/murphy/contents.ts:29-38 | all entries of single-spaced lines have single-spaced texts |
| Contents.ParsedTextsSingleSpaced | murphy/src/murphy/contents.ts:23-41 | no emitted text has two spaces in a row |
| Contents.ColonFreeMatchUnique | murphy/src/murphy/contents.ts:31 | two names without a colon cannot both prefix one line with a colon unless they are equal |
| Contents.ParseLineOrderFree | murphy/src/murphy/contents.ts:30-36 | with colon-free names, a line's entry does not depend on the map's iteration order |
| Contents.ParseScriptOrderFree | murphy/src/murphy/contents.ts:23-41 | with colon-free names, the parse of a script does not depend on the map's iteration order |
| Contents.ParsedVoicesFromMap | murphy/src/murphy/contents.ts:30-34 | when the names are the map's keys, the name a line matches always has an entry, so every parsed voice is one of the map's values (the `!` of `voiceMap.get(name)!` holds) |
| Contents.ParsePodcastContent | murphy/src/murphy/contents.ts:23-41 | for a well-formed map, `parsePodcastContent` returns `ParseScript` of the script under the map's keys and entries, and every entry's voice is a value of the map |
| Contents.EmitEntries | murphy/src/murphy/contents.ts:27-40 | the nested loops (first matching name, then `break`) emit exactly `ParseLines` of the normalised lines |
| Contents.GeneratePodcastAudio | murphy/src/murphy/contents.ts:8-21 | the reachable part of `generatePodcastAudio`: the script parsed with the map built from `names` and `speakers` |
| Assembly.FileSystem.constructor | murphy/src/murphy/contents.ts:68 | the file system starts with the given files, the paths where writing throws and the paths where unlinking throws |
| Assembly.FileSystem.WriteFile | murphy/src/murphy/contents.ts:68 | `writeFileSync` succeeds exactly on a writable path, and then creates or overwrites that one file |
| Assembly.FileSystem.Unlink | murphy/src/murphy/contents.ts:108 | `unlinkSync` succeeds exactly on an existing file outside the unremovable paths, independently of whether the file could be written, and then removes only that file |
| Assembly.ClipPath | murphy/src/murphy/contents.ts:67 | a clip path lies under `<tmpdir>/part` and ends in `.mp3` |
| Assembly.ClipPathInjective | murphy/src/murphy/contents.ts:67 | distinct indices get distinct `part<i>.mp3` files |
| Assembly.ManifestIsNotClip | murphy/src/murphy/contents.ts:82 | the `ffmpeg_inputs_<now>.txt` manifest never collides with a clip file |
| Assembly.ClipResults | murphy/src/murphy/contents.ts:44-77 | the array `Promise.all` yields: one result per conversation entry, by index |
| Assembly.Saved | murphy/src/murphy/contents.ts:44-75 | the files after the fan-out: no file that was there is removed |
| Assembly.SavedClips | murphy/src/murphy/contents.ts:44-75 | after the fan-out, each successful index's clip file holds that index's downloaded bytes |
| Assembly.SavedOthersUnchanged | murphy/src/murphy/contents.ts:44-75 | the fan-out touches no file other than its clips |
| Assembly.SavedFailedClipsKept | murphy/src/murphy/contents.ts:44-75 | a failed task's `part<i>.mp3` keeps whatever was there before: a stale clip keeps its old bytes, and no clip appears where there was none |
| Assembly.Survivors | murphy/src/murphy/contents.ts:77 | `filter(Boolean)` keeps exactly the present paths, and never more entries than there are results |
| Assembly.SurvivorsAreSucceededClips | murphy/src/murphy/contents.ts:71-77 | a clip is listed exactly when its entry's request, download and write all succeeded |
| Assembly.SurvivorsDistinct | murphy/src/murphy/contents.ts:67-77 | no clip is listed twice |
| Assembly.SurvivorsInIndexOrder | murphy/src/murphy/contents.ts:44-77 | listed clips are in ascending index order, independent of timing |
| Assembly.SaveClips | murphy/src/murphy/contents.ts:44-75 | the fan-out returns the result for each index, and leaves the files `Saved` describes |
| Assembly.ManifestText | murphy/src/murphy/contents.ts:85 | the manifest text, `file '<resolved path>'` lines joined by line feeds (stated by `ManifestShape`) |
| Assembly.ManifestShape | murphy/src/murphy/contents.ts:85 | the manifest is empty for no clips and otherwise ends in a quote; splitting it on line feeds gives back one `file '<path>'` line per clip |
| Assembly.JoinEndsWithLast | murphy/src/murphy/contents.ts:85 | joined lines end with the last character of the last line |
| Assembly.Unlinked | murphy/src/murphy/contents.ts:106-120 | the files after best-effort deletion: no file is created |
| Assembly.UnlinkedRemovesExactly | murphy/src/murphy/contents.ts:106-120 | best-effort cleanup removes exactly the listed, removable files and leaves every other file's contents as they were |
| Assembly.AssembleResult | murphy/src/murphy/contents.ts:79-128 | the promise's outcome and file state on every branch (stated per branch by the four lemmas below, and equal to what `Assemble` does) |
| Assembly.ManifestWriteFailureChangesNothing | murphy/src/murphy/contents.ts:79-127 | when the manifest cannot be written, the promise rejects with that failure and no file changes |
| Assembly.MissingBinaryKeepsManifest | murphy/src/murphy/contents.ts:85-92 | without an ffmpeg binary, or with the empty path, the promise rejects with `ffmpeg binary not found.`, and the files are exactly the old ones plus the written manifest |
| Assembly.ExecFailureDeletesNothing | murphy/src/murphy/contents.ts:94-101 | when ffmpeg fails, the promise rejects with its error, and the files are exactly the old ones plus the written manifest |
| Assembly.SuccessCleansUp | murphy/src/murphy/contents.ts:103-122 | after ffmpeg succeeds, the promise resolves to `final.mp3`; the manifest and each listed clip are gone exactly when their `unlinkSync` does not throw, what stays keeps its contents, and unlisted files are untouched |
| Assembly.Assemble | murphy/src/murphy/contents.ts:79-128 | writing the manifest, checking for the binary, running ffmpeg and the cleanup loop give exactly `AssembleResult`'s outcome and files |
| Assembly.GenerateAudio | murphy/src/murphy/contents.ts:43-129 | `generateAudio` as a whole: the fan-out, the survivor list, then the assembly promise |
| Assembly.GeneratedClipsRemoved | murphy/src/murphy/contents.ts:44-122 | after a successful run, a clip that was written is gone exactly when its `unlinkSync` does not throw, and one that stays holds its downloaded bytes |
| Assembly.FailedClipsUntouched | murphy/src/murphy/contents.ts:44-122 | after a successful run, the clip path of a failed task is exactly as it was before the call |
| Tts.GetVoicesByAccent | murphy/src/lib/tts.ts:117-119 | the result holds exactly the table's voices with that accent |
| Tts.FilterBlock | murphy/src/lib/tts.ts:118 | filtering a block of voices with one accent keeps all of it or none of it |
| Tts.FilterThreeParts | murphy/src/lib/tts.ts:118 | filtering the concatenated table filters each accent block |
| Tts.FilterThreeBlocks | murphy/src/lib/tts.ts:15-24 | in a table of three blocks with distinct accents, an accent selects its own block or nothing |
| Tts.VoicesByAccentBlocks | murphy/src/lib/tts.ts:15-24 | `American` gives the four US voices, `British` the two UK ones, `Australian` the two AU ones, in table order; any other accent (including other case) gives none |
| Tts.CreateTTSContent | murphy/src/lib/tts.ts:122-130 | the template literal around title, description and content, trimmed (stated by `CreateTTSContentIsTrimmedJoin`) |
| Tts.CreateTTSContentIsTrimmedJoin | murphy/src/lib/tts.ts:122-130 | the template's padding never survives: the result is the trimmed title, description and content joined by blank lines |
| Tts.WordCount | murphy/src/lib/tts.ts:135 | `split(/\s+/)` always yields at least one piece |
| Tts.MinutesIsCeiling | murphy/src/lib/tts.ts:136 | the minutes are the least whole number of 150-word minutes that hold the words |
| Tts.MinutesMonotone | murphy/src/lib/tts.ts:136 | more words never take fewer minutes |
| Tts.EstimateAudioDuration | murphy/src/lib/tts.ts:133-145 | the label for `Math.ceil(words / 150)` minutes (stated by `EstimateInWholeMinutes` and `FirstMinuteBoundary`) |
| Tts.EstimateInWholeMinutes | murphy/src/lib/tts.ts:133-145 | `Less than 1 minute` is unreachable; `1 minute` is returned exactly up to 150 words; otherwise `<minutes> minutes` |
| Tts.FirstMinuteBoundary | murphy/src/lib/tts.ts:136-143 | 150 words give `1 minute`, 151 give `2 minutes` |
| Tts.WordCountOfWords | murphy/src/lib/tts.ts:135 | k non-empty words separated by single spaces count k words |
| Tts.GenerateAudioFromText | murphy/src/lib/tts.ts:26-114 | `generateAudioFromText` given the key and the service's answer: blank text refused, mock audio without a key, else the reply's audio file or a failure (stated by the lemmas below) |
| Tts.BlankTextRefused | murphy/src/lib/tts.ts:30-37 | empty or blank text is refused with `Text content is required`, before the key is looked at and before anything is posted |
| Tts.MissingKeyGivesMock | murphy/src/lib/tts.ts:40-46 | without a key, any non-blank text gets the mock audio with success |
| Tts.VoiceIdIgnored | murphy/src/lib/tts.ts:51-54 | the requested `voiceId` never changes the response |
| Tts.OnlyFixedVoicePosted | murphy/src/lib/tts.ts:51-54 | the only request ever posted is the text under `en-US-terrell`: two services that answer that request alike give the same response |
| Tts.ResponseShape | murphy/src/lib/tts.ts:26-114 | a response succeeds exactly when it has no error; success carries a non-empty audio file, failure an empty one |
| Tts.ErrorMessage | murphy/src/lib/tts.ts:94-106 | the `catch` block's message, testing `response`, `request`, then the timeout code (stated by `ApiErrorFirst` and `TimeoutOnlyWithoutResponseOrRequest`) |
| Tts.ApiErrorFirst | murphy/src/lib/tts.ts:94-99 | a message starts with `API Error: ` exactly when the error has a response; it is then `API Error: <status> - ` followed by the service's message, or `Unknown error` when that is missing or empty |
| Tts.TimeoutOnlyWithoutResponseOrRequest | murphy/src/lib/tts.ts:100-106 | the timeout message is chosen exactly for an `ECONNABORTED` error that has neither a response nor a request |
| Strings.SplitOnWhitespaceJoin | murphy/src/lib/tts.ts:135 | splitting single-spaced words on white space gives the words back |
| Strings.TrimIdempotent | murphy/src/murphy/contents.ts:25 | trimming twice is trimming once |
| Strings.CollapseIdempotent | murphy/src/murphy/contents.ts:24 | collapsing runs of spaces twice is collapsing once |
| Strings.JoinSplit | murphy/src/murphy/contents.ts:25 | joining the pieces of a split gives the text back |
| Gemini.ThemeOf | murphy/src/lib/gemini.ts:63 | the `themePrompts[theme]` lookup: a theme it finds has exactly the looked-up key |
| Gemini.ThemeLookup | murphy/src/lib/gemini.ts:17-50 | a theme is found exactly for the eight keys, and the theme found has that key |
| Gemini.FillRecoverable | murphy/src/lib/gemini.ts:81-117 | what fills a template's hole can be read back from the result |
| Gemini.FillInjective | murphy/src/lib/gemini.ts:81-117 | one template filled with different holes gives different texts |
| Gemini.EnhanceContentWithGemini | murphy/src/lib/gemini.ts:54-78 | refuses an unknown theme, otherwise enhances title, description and content (stated by `EnhanceContentThemeCheck`) |
| Gemini.EnhanceContentThemeCheck | murphy/src/lib/gemini.ts:54-78 | enhancement succeeds exactly for the eight themes; any other throws `Theme "<theme>" not supported`; on success the three parts are enhanced |
| Gemini.EnhanceTitle | murphy/src/lib/gemini.ts:81-94 | the theme's title template filled with the title, or the title for another theme (stated by `EnhanceTitleWraps`) |
| Gemini.EnhanceTitleWraps | murphy/src/lib/gemini.ts:81-94 | for a theme of the table, the result has the template's length plus the title's, starts with the text before the hole, ends with the text after it, and holds the title between; for any other theme it is the title |
| Gemini.EnhanceTitleInjective | murphy/src/lib/gemini.ts:81-94 | distinct titles stay distinct under any one theme |
| Gemini.EnhanceDescription | murphy/src/lib/gemini.ts:97-117 | the theme's description template filled with the lower-cased description, or the description for another theme (stated by `EnhanceDescriptionLowercases`) |
| Gemini.EnhanceDescriptionLowercases | murphy/src/lib/gemini.ts:97-117 | for a theme of the table, the result has the template's length plus the description's, starts and ends with the template's text and holds the lower-cased description between, so the description's case does not matter; for any other theme it is the description |
| Gemini.FramedParts | murphy/src/lib/gemini.ts:166 | where prefix, lead-in, content, closing and suffix sit in the concatenation |
| Gemini.EnhanceMainContent | murphy/src/lib/gemini.ts:120-167 | the style prefix, the theme's lead-in, the content, the closing and the theme suffix (stated by `EnhanceMainContentShape`) |
| Gemini.EnhanceMainContentShape | murphy/src/lib/gemini.ts:120-167 | the body opens with `[Enhanced for <style or theme> style]` and closes with the suffix naming the theme; it is the content inside a template depending on the theme alone, and the bare content for a theme without a case |
| Gemini.EnhanceMainContentInjective | murphy/src/lib/gemini.ts:120-167 | distinct contents stay distinct under any one theme |
| GenerateAudioRoute.StripTrailingSlashes | murphy/src/app/api/generate-audio/route.ts:55 | the result is the path minus a run of trailing slashes, and does not itself end in a slash |
| GenerateAudioRoute.Basename | murphy/src/app/api/generate-audio/route.ts:55 | `path.basename`: the base name never holds a slash |
| GenerateAudioRoute.BasenameIsLastSegment | murphy/src/app/api/generate-audio/route.ts:55 | the file name has no slash, and taking the base name again changes nothing |
| GenerateAudioRoute.BasenameOfJoin | murphy/src/app/api/generate-audio/route.ts:55 | the base name of `<dir>/<name>` is `name` |
| GenerateAudioRoute.BasenameIgnoresTrailingSlash | murphy/src/app/api/generate-audio/route.ts:55 | a trailing slash does not change the base name |
| GenerateAudioRoute.Validate | murphy/src/app/api/generate-audio/route.ts:10-30 | a failed check answers 400 or 500 with an error and no details |
| GenerateAudioRoute.Generate | murphy/src/app/api/generate-audio/route.ts:35-66 | past validation the answer is 200 or 500, and 200 exactly when it carries the audio |
| GenerateAudioRoute.Post | murphy/src/app/api/generate-audio/route.ts:6-67 | every answer of `POST` has status 200, 400 or 500 |
| GenerateAudioRoute.ValidationOrder | murphy/src/app/api/generate-audio/route.ts:11-30 | checks run in order: a falsy field gives the missing-fields 400 whatever else holds; then differing lengths give the length 400; then a missing key gives 500; the request passes exactly when all three pass |
| GenerateAudioRoute.ArraysAgainstChecks | murphy/src/app/api/generate-audio/route.ts:11-23 | two arrays pass exactly when their lengths are equal; empty arrays pass the presence check |
| GenerateAudioRoute.ValidationFailureSkipsGeneration | murphy/src/app/api/generate-audio/route.ts:11-36 | when validation answers, the response does not depend on generation, reading or encoding |
| GenerateAudioRoute.SuccessResponse | murphy/src/app/api/generate-audio/route.ts:36-56 | a readable generated file gives 200 with `success: true`, the base64 audio, `audio/mpeg`, and the path's base name |
| GenerateAudioRoute.ResponseKinds | murphy/src/app/api/generate-audio/route.ts:6-67 | every response is a 200 success, one of the three validation answers, or the `catch` block's 500; the status is 200 exactly for the audio response |
| GenerateAudioRoute.ThrownErrorDetails | murphy/src/app/api/generate-audio/route.ts:58-66 | a throw from generation or the file read gives 500 `Failed to generate audio`, with the error's message, or `Unknown error` for a non-error |
| GenerateAudioRoute.UnparsedBody | murphy/src/app/api/generate-audio/route.ts:8 | a body that does not parse gives the `catch` block's 500 |
| GenerateAudioRoute.UnfinishedGeneratorNeverSucceeds | murphy/src/app/api/generate-audio/route.ts:36-39 | with a generator that returns nothing, a valid request gets the 500 carrying the `TypeError` of reading an undefined path |
| Firebase.NormalizeUrls | murphy/src/lib/firebase.ts:27-35 | the stored record has exactly the seven language keys; each takes the input URL when present and non-empty, and `""` otherwise |
| Firebase.NormalizeUrlsDropsOthers | murphy/src/lib/firebase.ts:27-35 | input keys outside the seven languages are dropped |
| Firebase.NormalizeUrlsReadsLanguagesOnly | murphy/src/lib/firebase.ts:27-35 | inputs that agree on the seven languages give the same record |
| Firebase.NormalizeUrlsIdempotent | murphy/src/lib/firebase.ts:28-34 | normalising twice is normalising once |
| Firebase.NormalizeUrlsFixedPoints | murphy/src/lib/firebase.ts:27-35 | a record is unchanged exactly when it already has the seven languages and no other key |
| Firebase.AddPodcast | murphy/src/lib/firebase.ts:20-37 | the write handed to `addDoc` (stated by `AddPodcastDocument`) |
| Firebase.AddPodcastDocument | murphy/src/lib/firebase.ts:20-37 | the document has exactly six fields: description, idea, podcastId and podcastTextContent copied verbatim, the user under `user-id`, and the normalised `urls` |

## Left out

- Network calls are parameters. This covers the speech service, the audio
  download and the Gemini API. Headers, URLs and the 30-second timeout are
  not modelled.
- `execFile` is a parameter that returns an error or nothing. Whether
  ffmpeg actually writes `final.mp3` is not modelled.
- `Promise.all` concurrency is modelled as a sequential loop over the
  indices. Each task touches only its own clip file, so results are keyed
  by index, not by timing.
- `fs` failures are modelled as two fixed sets of paths, one where
  writing fails and one where unlinking fails. Failures that depend on
  timing or disk space are not.
- `path.join` normalisation is not modelled. A path is `<tmpdir>/<name>`
  with the tmpdir taken as given.
- `os.tmpdir()` and `Date.now()` are arguments, and so is `path.resolve`.
- Logging (`console.*`) has no effect on results and is left out.
- Unicode semantics of `trim`, `/\s+/` and `toLowerCase` are not modelled.
  White space is ASCII space and tab through carriage return. Lower-casing
  is ASCII.
- The Gemini `setTimeout` delay is left out.
- The commented-out real Gemini integration is not active code and is
  left out.
- The Firestore `addDoc` write, its error handling and app initialisation
  are external calls and are left out. The model stops at the document
  handed to `addDoc`.
- The route's `fs.unlinkSync` of the output file is left out. Its failure
  is swallowed, so it cannot change the response.
- `console.log` of request data in the route is left out.
- Base64 encoding is an argument of the route, not a model of
  `Buffer.toString('base64')`.
- Gemini.ThemeOf: a theme named after an inherited `Object.prototype`
  member (such as `constructor` or `toString`) passes the JavaScript
  lookup, but is treated as unknown here. The prototype chain is not
  modelled.
- JSON numbers in the request body are integers, so fractional
  numbers are not represented. Truthiness and length comparison are exact
  for integers.
- GenerateAudioRoute.Length: the `length` of an object is compared by
  strict equality as a JSON value. Two object or array lengths are never
  identical, as for distinct objects of one parse.
- Conversations are taken as single-entry objects `{ [voice]: text }`,
  the only form `parsePodcastContent` produces. So the `TypeError` that
  `Object.entries(dialogue)[0]` destructuring throws for `{}`, the
  rejection of `generateAudio` it causes and the clips such a run leaves
  behind are not modelled. The choice of the first key of an object with
  several keys is not modelled either.
- GenerateAudioRoute.Length: the length of a string counts code points,
  where JavaScript counts UTF-16 code units. A string with characters
  outside the Basic Multilingual Plane can compare differently against an
  array here than in the route.
- Assembly.Survivors: `filter(Boolean)` also drops the empty string. The
  model keeps `Some("")`. No clip path is empty, since every one ends in
  `.mp3`, so the survivor list of `generateAudio` is the same.
- The exact `TypeError` messages the runtime
  gives for destructuring a null body and for reading an undefined path
  are parameters.
- Tts.GenerateAudioFromText: the error message for an `API Error` renders
  the status as a natural number. The template renders `undefined` when
  `response` is present but holds `undefined`, and that case is not
  modelled.
