# Lumiere AR glasses: session handler and video script, modelled in Dafny

Lumiere makes everyday objects talk through smart glasses. When the wearer
says the wake word "awaken", the app takes a photo and sends it to an object
detector. Each newly detected object gets a generated persona and a voice id,
picked round-robin from a configured list. After a wake cycle that found
objects, each final utterance without the wake word is answered by the object
the reply names, in that object's voice, or else in the voice of the first
object registered. A failed reply request gets an apology, and once awake with no object
registered the app says it sees nothing to talk to. An utterance with the wake
word starts a new wake cycle. A separate script turns a starter
frame into a short clip. It submits an image-to-video task, polls the task
until it finishes, and downloads the result.

The model covers two pieces of decision logic:

- `Session` (with `Text` and `Registry`) models the transcription handler
  registered by `onSession`:
  - the closure state `awakened`, `objects` (an insertion-ordered map) and
    `nextVoiceIndex` becomes the fields of the class `LumiereSession`;
  - the handler becomes `OnTranscription`, which dispatches to the wake branch
    and the conversational branch;
  - the utterances passed to `speak` are appended to `spoken`.
- `VideoGen` models the script:
  - the media type of the data URI, and the pass-through of `http` sources;
  - the checks of the submit and download responses, and the selection of the
    API key;
  - the polling loop, as a `while` loop over the finite sequence of answers the
    server would give;
  - the whole run of `main`.

Every remote call is an input to the model:

- the photo;
- the detector's answer;
- the persona and chat completions;
- the JSON parse of the reply;
- the file read;
- the submit, poll and download responses.

The detection loop is proved against `RegisterAll`, a fold over the labels.
Properties of that fold are proved as lemmas:

- the keys are the distinct labels in first-seen order;
- the k-th key carries voice `list[k mod len]`, or `''` when the list is empty;
- a repeated label changes nothing.

The polling loop is proved against `FirstDecisive`: the outcome is the verdict
of the first response that is not ok or is terminal. The number of polls is
that response's index plus one, and the log holds one record per poll, in order.

## Model

| member | source | states |
|---|---|---|
| `Text.CleanText` | src/index.ts:39 | the cleaned utterance has no upper-case letter, none of `. , ! ? ; :`, no white space at either end, and is no longer than the input |
| `Text.RemovePunct` | src/index.ts:39 | a character survives exactly when it was in the input and is not one of `. , ! ? ; :` |
| `Text.ToLower` | src/index.ts:39 | lower-casing keeps the length and maps each character on its own, leaving no upper-case letter |
| `Text.ToLowerAppend` | src/index.ts:39 | lower-casing a concatenation lower-cases each part |
| `Text.RemovePunctAppend` | src/index.ts:39 | deleting punctuation from a concatenation deletes it from each part, keeping everything else in order |
| `Text.RemovePunctChar` | src/index.ts:39 | a single character is deleted exactly when it is one of `. , ! ? ; :` and kept otherwise |
| `Text.RemovePunctKeeps` | src/index.ts:39 | text without punctuation passes through unchanged |
| `Text.CleanTextOfClean` | src/index.ts:39 | an utterance that is already lower-case, punctuation-free and trimmed is left exactly as it is |
| `Text.TrimKeepsInner` | src/index.ts:39-44 | a word with no white space at its ends that occurs in a text still occurs after trimming |
| `Text.IsSpace` | src/index.ts:79 | the characters `trim` strips; none of them is punctuation or an upper-case letter |
| `Text.TrimStart` | src/index.ts:79 | the leading cut keeps no more than the input, starts with a non-space and keeps the input's last character |
| `Text.TrimEnd` | src/index.ts:79 | the trailing cut keeps no more than the input, ends with a non-space and keeps the input's first character |
| `Text.Trim` | src/index.ts:79 | the result has no white space at either end and is no longer than the input |
| `Text.TrimStartSlice` | src/index.ts:79 | the leading cut removes only white space and keeps a suffix of the input |
| `Text.TrimEndSlice` | src/index.ts:79 | the trailing cut removes only white space and keeps a prefix of the input |
| `Text.TrimSlice` | src/index.ts:79 | what trimming keeps is a slice of the input with only white space around it |
| `Text.TrimChars` | src/index.ts:39 | trimming adds no character |
| `Text.TrimOfTrimmed` | src/index.ts:79-80 | trimming an already trimmed text changes nothing |
| `Text.TrimPadded` | src/index.ts:79-80 | trimming removes exactly the white space added around an already trimmed text |
| `Text.Join` | src/index.ts:139 | `parts.join(sep)` puts a separator between consecutive parts, so the result is at least one character per separator long; `Split` inverts it (`Text.SplitJoin`) |
| `Text.Split` | src/index.ts:80 | splitting gives at least one piece, no piece holds the separator, and joining the pieces restores the input |
| `Text.SplitJoin` | src/index.ts:80 | splitting a join of separator-free pieces gives the pieces back |
| `Text.ParseList` | src/index.ts:80 | every parsed label is non-empty, trimmed and free of commas |
| `Text.TrimPiece` | src/index.ts:80 | the piece trimmed is kept, as the one label, exactly when it is non-empty, and dropped otherwise; a kept label is trimmed and has no character foreign to the piece |
| `Text.TrimNonEmpty` | src/index.ts:80 | the kept labels are no more than the pieces, each non-empty and trimmed, and hold no character absent from every piece |
| `Text.TrimNonEmptyKeeps` | src/index.ts:80 | non-empty trimmed labels pass through trim-and-drop-empties unchanged |
| `Text.TrimNonEmptyAppend` | src/index.ts:80 | trim-and-drop-empties distributes over concatenation of piece lists |
| `Text.ParseJoin` | src/index.ts:80 | parsing the comma-join of non-empty trimmed comma-free labels gives those labels back |
| `Text.ParseJoinTrailingComma` | src/index.ts:78-80 | a trailing comma adds nothing to the parse |
| `Text.ParseDetectorExample` | src/index.ts:78 | "soda can,water bottle,sunglasses," parses to its three labels |
| `Text.TrimNonEmptyTrimmed` | src/index.ts:80 | pieces that each trim to a non-empty label are kept as those labels, in order |
| `Text.ParseJoinPadded` | src/index.ts:80 | white space around the labels of a comma-joined list and a trailing comma do not change the parse |
| `Text.ParseSpacedList` | src/index.ts:80 | "a, b, a," parses to `[a, b, a]`: spaces are dropped, repetitions are kept for the registry to handle |
| `Text.StartsWith` | gen.js:189 | `startsWith`: the text begins with the prefix, so the prefix is never longer than the text |
| `Text.EndsWith` | gen.js:27 | `endsWith`: the text ends with the suffix, so the suffix is never longer than the text |
| `Text.Contains` | src/index.ts:44 | the wake test holds exactly when the word occurs at some offset of the cleaned text |
| `Registry.Empty` | src/index.ts:32 | `{}`: a valid registry with no key and no entry |
| `Registry.Objects.Insert` | src/index.ts:115 | assigning a new key appends it to the key order and keeps the keys distinct and equal to the map's domain |
| `Registry.VoiceFor` | src/index.ts:88 | the voice is `''` for an empty list and the cursor's entry while the cursor is inside the list |
| `Registry.VoiceForCycles` | src/index.ts:88 | the voice assignment repeats with the period of the list length |
| `Registry.VoiceForEmptyIff` | src/index.ts:88 | with non-empty ids the voice is `''` exactly when the list is empty |
| `Registry.PersonaFor` | src/index.ts:91-113 | a failed persona request gives `''`; a reply gives its trimmed content |
| `Registry.RegisterAllSnoc` | src/index.ts:84-116 | one more label is one more turn of the loop body |
| `Registry.FirstOccurrencesSpec` | src/index.ts:84-85 | the first-seen order of the labels holds no repetition and the same labels |
| `Registry.PersonaPrompt` | src/index.ts:103 | the persona request quotes the label between the fixed opening and the fixed closing text |
| `Registry.Step` | src/index.ts:85-115 | one turn of the detection loop keeps the registry's keys distinct and equal to its domain |
| `Registry.RegisterAll` | src/index.ts:84-116 | the registry after the detection loop has distinct keys equal to its domain |
| `Registry.FirstOccurrencesOfDistinct` | src/index.ts:84-85 | a label list without repetitions is its own first-seen order |
| `Registry.StepNew` | src/index.ts:85-115 | registering an unseen label appends it and it gets the voice at the old key count |
| `Registry.RegisterAllSpec` | src/index.ts:84-116 | after the loop the keys are the distinct labels in first-seen order; the k-th key has its persona and voice `VoiceFor(list, k)` |
| `Registry.RegisterAllSkipsKnown` | src/index.ts:85 | a label already seen leaves the registry unchanged |
| `Registry.ReplyVoice` | src/index.ts:169 | the reply voice is the named object's, else the first registered object's |
| `Registry.ReplyVoiceAfterDetection` | src/index.ts:169-172 | after a detection, a reply naming a detected object uses the voice it got at its first-seen position, any other name the first voice |
| `Registry.SummaryLines` | src/index.ts:137-139 | one summary line per registered object |
| `Registry.SummaryList` | src/index.ts:137-139 | the summary is empty exactly when nothing is registered |
| `Registry.ConversationPrompt` | src/index.ts:153 | the system prompt holds the summary between the fixed introduction and the fixed JSON instructions |
| `Registry.SummaryListLines` | src/index.ts:137-139 | the summary splits back into one `name: persona` line per object, in key order |
| `Session.ParseVoiceIds` | src/index.ts:10 | the configured voice ids, or none when unset, are non-empty, trimmed and comma-free |
| `Session.PhotoDataUrl` | src/index.ts:56 | the detector input starts with `data:`, names the MIME type at offset 5 and ends with the base64 payload |
| `Session.Look` | src/index.ts:52-80 | no photo gives `NoPhoto`; with a photo, a failed detector call gives `DetectorDown` and a body gives `Detected` of the parsed list of the trimmed body; detected labels are non-empty and trimmed |
| `Session.WakeReport` | src/index.ts:58-125 | the "nothing found" line is spoken exactly when detection gave no label, "We are ready!" exactly when it gave some; a failed photo gives "Hmm, I couldn't see anything." and a failed detector "Sorry, my eyes aren't working right now." |
| `Session.ParsedReply` | src/index.ts:164-167 | an unparseable reply becomes object `''` with the raw content as the response; a parsed one is used as it is |
| `Session.LumiereSession.constructor` | src/index.ts:31-33 | a new session is asleep, with an empty registry, cursor 0 and nothing spoken |
| `Session.LumiereSession.Speak` | src/index.ts:49 | each `speak` call appends its text and voice to what was said, and changes nothing else |
| `Session.LumiereSession.OnTranscription` | src/index.ts:35-179 | a partial transcript changes nothing; the wake word resets and refills the registry and speaks two lines; anything else leaves the state alone and speaks `Answer` |
| `Session.LumiereSession.OnWake` | src/index.ts:44-127 | awake; registry = `RegisterAll` of the detected labels, or empty after a photo or detector failure; speaks the wake line then the report |
| `Session.LumiereSession.RegisterDetected` | src/index.ts:84-116 | the loop leaves the registry equal to `RegisterAll` of the labels, with the cursor equal to the key count |
| `Session.LumiereSession.RegisterAndReport` | src/index.ts:84-122 | after a detection, the registry is `RegisterAll` of the labels, and one line is spoken: "nothing found" for no label, "We are ready!" otherwise |
| `Session.LumiereSession.OnConversation` | src/index.ts:131-178 | appends exactly what `Answer` says |
| `Session.Answer` | src/index.ts:131-177 | silence while asleep; the fixed line with an empty registry; otherwise one utterance: the apology without a voice when the request fails, else the reply's text in the named object's voice or, for any other name, the first registered object's |
| `Session.AnswerAfterDetection` | src/index.ts:84-177 | after a detection of `labels`, the answer is the apology on a failed request, else the reply's text in the voice of the named object's first-seen position, or the first voice for any other name |
| `Session.WakeThenAsk` | src/index.ts:35-179 | a fresh session woken with a photo in which objects are detected and then asked a question says the wake line, "We are ready!", then the answer `AnswerAfterDetection` describes |
| `Session.WakeInTranscript` | src/index.ts:39-44 | the wake word in the raw transcript, in any letter case and with any punctuation in it, takes the wake branch whatever surrounds it |
| `Session.IsWake` | src/index.ts:44 | `cleanedText.includes(WAKE_WORD)`; it holds only for text at least as long as the wake word |
| `Session.WakeAnywhere` | src/index.ts:44 | the wake word anywhere in the cleaned text selects the wake branch |
| `Session.RepeatedLabelScenario` | src/index.ts:84-116 | labels `[a, b, a]` register `a` then `b` with the first two voices |
| `Session.RepeatedLabelSteps` | src/index.ts:85-115 | the loop turns for `a`, `b`, `a` register two keys with the first two voices and leave the third turn without effect |
| `VideoGen.Truthy` | gen.js:78 | only a present, non-empty string is truthy |
| `VideoGen.OrElse` | gen.js:78 | `message || fallback`: a non-empty message wins, and the result is never empty when the fallback is not |
| `VideoGen.MediaType` | gen.js:27 | `png` exactly when the lower-cased path ends with `.png`, otherwise `jpeg` |
| `VideoGen.DataUri` | gen.js:28 | the URI starts with `data:image/`, holds the media type at offset 11 and ends with the payload |
| `VideoGen.ToDataUri` | gen.js:23-33 | a read file becomes `data:image/<type>;base64,<payload>`; a read error becomes the script's read-failure error |
| `VideoGen.ParseDataUri` | gen.js:28 | a parsed URI rebuilds to itself |
| `VideoGen.DataUriRoundTrip` | gen.js:27-28 | the data URI gives back the media type and the whole payload |
| `VideoGen.MediaTypeIgnoresCase` | gen.js:27 | the letter case of the path does not change the media type |
| `VideoGen.StarterFrameIsJpeg` | gen.js:16 | the configured starter frame is read from disk and sent as `jpeg` |
| `VideoGen.ImageSource` | gen.js:189-191 | a source starting with `http` is used unchanged without reading; any other is converted |
| `VideoGen.Request` | gen.js:35-42 | the request carries the image, the seed, the prompt and the fixed model, duration and ratio |
| `VideoGen.StartVideoGeneration` | gen.js:76-81 | ok gives the task id; not ok gives the server's message if non-empty, else the fixed fallback |
| `VideoGen.Inspect` | gen.js:118-138 | a failed request is an error before any status is read; `SUCCEEDED` needs a non-empty output and yields its first URL; `FAILED` is an error; any other status keeps polling |
| `VideoGen.FirstDecisive` | gen.js:86-139 | the first response that stops the loop, with every earlier one pending; none exactly when all are pending |
| `VideoGen.DecidedByPrefix` | gen.js:86-139 | answers after the first decisive one do not change the outcome |
| `VideoGen.PendingPrefixDelays` | gen.js:135-138 | pending answers before a decisive one only shift its position |
| `VideoGen.Records` | gen.js:107-115 | the log after n polls holds record j+1 of response j, for each poll in order |
| `VideoGen.PollForCompletion` | gen.js:83-140 | polls stop at the first decisive response with its verdict, after index+1 polls, logging one record per poll |
| `VideoGen.FirstDecisiveAt` | gen.js:118-138 | a decisive response after only pending ones is the first decisive response |
| `VideoGen.DownloadVideo` | gen.js:148-154 | an ok download gives the body; otherwise the error names the status text |
| `VideoGen.SelectApiKey` | gen.js:180-185 | the secret wins when non-empty, then the key; with neither the run fails with the missing-key message |
| `VideoGen.Workflow` | gen.js:165-200 | every failure of the run carries a non-empty message; the run is left waiting only when no given poll answer stops the loop |
| `VideoGen.Run` | gen.js:165-200 | the run ends as `Workflow` says: first failing step's error, still polling, or the downloaded clip |
| `VideoGen.MissingKeyFailsFirst` | gen.js:180-185 | without a usable key the run fails with the missing-key message whatever else would happen |
| `VideoGen.CompletedRun` | gen.js:189-200 | a completed run saved the bytes downloaded from the first URL of an ok `SUCCEEDED` answer |

## Left out

- Network, SDK and file I/O are not modelled; their results are inputs:
  - `fetch`;
  - the Mentra SDK (`AppServer`, the camera, `speak`);
  - `fs` reads, writes and `stat`;
  - `dotenv`.
- Console logging and the diagnostic JSON files (`start_generation_response.json`, `polling_responses.json`, `error_log.json`) are left out. `process.exit(1)` is left out too. The poll log is kept as a sequence of records holding the poll number and the response.
- The 2-second `setTimeout` sleep is left out. The unbounded wait becomes a finite sequence of responses. When every given response is pending, `PollForCompletion` returns `None` and `Run` returns `StillPolling`, where the script would keep waiting.
- Base64 encoding is left out: payloads are opaque strings.
- `Math.random`, `Date` and the floating-point timings are left out. The seed is an input below 10^9.
- `JSON.parse` of the chat reply is an abstract `parse`. JSON values that are not objects, or that miss `object` or `response`, are not modelled.
- Two JavaScript object quirks are not modelled: prototype keys such as `constructor` that make `objects[obj]` truthy, and integer-like keys that reorder `Object.keys`. The registry is a plain insertion-ordered map.
- Overlapping asynchronous handlers racing on the shared state are not modelled. Events are handled one at a time.
- The Roboflow detector's own behaviour is not modelled. A non-ok status or a thrown request is `detect` returning `None`.
- `chat` returns `None` only when the request throws or its body is not JSON. The handler does not check the status of the reply request, so an error body with JSON gives `Some("")`.
- The text of the prompt (`PROMPT_TEXT`) is an input of `Run`, not the literal.
- The submit id is not checked by the script. A missing id only changes the polled URL. The model takes it as a string and gives the poll responses directly.
- A `char` is a Unicode scalar value, while JavaScript strings are UTF-16 code units. A character outside the Basic Multilingual Plane is one `char` here but two units in the source, and lone surrogates cannot be expressed.
- Exceptions thrown inside the script's steps are not modelled. The script reads both the submit and the poll response with `response.json()` before it looks at `ok` (gen.js:64, gen.js:101). `fetch`, `arrayBuffer` and the diagnostic `writeFile` calls can also throw (gen.js:55, 70, 95, 117, 145, 152, 154). In each such case the run ends with that exception's own message. `SubmitResponse` and `PollResponse` are always parsed records, so `StartVideoGeneration`, `Inspect`, `Workflow` and `Run` state their error messages only for requests that returned a JSON body and writes that succeeded.
- `Text.CleanText`: lower-cases only `A`–`Z`. Other letters that `toLowerCase` would change are left as they are, because Unicode case mapping is not modelled.
- `VideoGen.MediaType`: compares the path after the same ASCII-only lower-casing.
