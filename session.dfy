/**
 * One conversational session of the glasses app: the closure state of
 * `onSession` (`awakened`, `objects`, `nextVoiceIndex`) and the handler it
 * registers for transcription events. Every remote call is an input: the photo
 * the camera returned, the detector, the persona generator, the chat reply and
 * the JSON parse of that reply. What the handler says is appended to `spoken`.
 */
module Session {
  import opened Wrappers
  import opened Text
  import opened Registry

  const WAKE_WORD := "awaken"

  const AWAKENING := "Awakening. Hold on while I have a look."
  const CANT_SEE := "Hmm, I couldn't see anything."
  const EYES_BROKEN := "Sorry, my eyes aren't working right now."
  const NOTHING_FOUND := "I didn't find any interesting objects."
  const READY := "We are ready!"
  const NOTHING_TO_TALK := "I don't see anything to talk to yet."
  const DISTRACTED := "Sorry, I got distracted."

  /** A call to `session.audio.speak`, with the voice id when the handler passes one. */
  datatype Utterance = Utterance(text: string, voiceId: Option<string>)

  /** What `session.camera.requestPhoto()` returned: its MIME type and the base64 text of its buffer. */
  datatype Photo = Photo(mimeType: string, base64: string)

  /** The `{object, response}` shape the conversational reply is asked to take. */
  datatype Reply = Reply(target: string, response: string)

  /** The outcome of capturing and detecting, as far as the wake branch distinguishes it. */
  datatype Sighting = NoPhoto | DetectorDown | Detected(labels: seq<string>)

  /**
   * `ELEVENLABS_VOICE_IDS`: the setting, or `""` when it is unset, parsed as a
   * comma-separated list; every id is non-empty and trimmed.
   */
  function ParseVoiceIds(setting: Option<string>): (ids: seq<string>)
    ensures forall i :: 0 <= i < |ids| ==> ids[i] != "" && IsTrimmed(ids[i]) && ',' !in ids[i]
  {
    ParseList(setting.GetOr(""))
  }

  /** The image reference sent to the detector: `data:${mimeType};base64,${base64}`. */
  function PhotoDataUrl(photo: Photo): (url: string)
    ensures StartsWith(url, "data:") && EndsWith(url, photo.base64)
    ensures OccursAt(url, photo.mimeType, 5)
  {
    "data:" + photo.mimeType + ";base64," + photo.base64
  }

  /**
   * Capture then detect: `detect` stands for the detector request on the data
   * URL and gives its body text, or `None` when the request throws
   * or answers with a non-ok status.
   */
  function Look(photo: Option<Photo>, detect: string -> Option<string>): (s: Sighting)
    ensures photo.None? <==> s.NoPhoto?
    ensures photo.Some? ==> (detect(PhotoDataUrl(photo.value)).None? <==> s.DetectorDown?)
    ensures photo.Some? && detect(PhotoDataUrl(photo.value)).Some? ==>
      s == Detected(ParseList(Trim(detect(PhotoDataUrl(photo.value)).value)))
    ensures s.Detected? ==> forall i :: 0 <= i < |s.labels| ==> s.labels[i] != "" && IsTrimmed(s.labels[i])
  {
    match photo
    case None => NoPhoto
    case Some(p) =>
      match detect(PhotoDataUrl(p))
      case None => DetectorDown
      case Some(body) => Detected(ParseList(Trim(body)))
  }

  /** The second thing the wake branch says: an apology for a failure, or whether anything was found. */
  function WakeReport(s: Sighting): (text: string)
    ensures text == NOTHING_FOUND <==> s.Detected? && s.labels == []
    ensures text == READY <==> s.Detected? && s.labels != []
    ensures s.NoPhoto? ==> text == CANT_SEE
    ensures s.DetectorDown? ==> text == EYES_BROKEN
  {
    match s
    case NoPhoto => CANT_SEE
    case DetectorDown => EYES_BROKEN
    case Detected(labels) => if labels == [] then NOTHING_FOUND else READY
  }

  /**
   * `JSON.parse(content)`, falling back to `{object: '', response: content}`
   * when `parse` (the parser) rejects the text.
   */
  function ParsedReply(parse: string -> Option<Reply>, content: string): (r: Reply)
    ensures parse(content).None? ==> r.target == "" && r.response == content
    ensures parse(content).Some? ==> r == parse(content).value
  {
    match parse(content)
    case None => Reply("", content)
    case Some(reply) => reply
  }

  /** `cleanedText.includes(WAKE_WORD)`. */
  predicate IsWake(cleaned: string)
    ensures IsWake(cleaned) ==> |cleaned| >= |WAKE_WORD|
  {
    Contains(cleaned, WAKE_WORD)
  }

  class LumiereSession {
    const voiceIds: seq<string>
    var awakened: bool
    var objects: Objects
    var nextVoiceIndex: nat
    /** Everything passed to `session.audio.speak`, oldest first. */
    var spoken: seq<Utterance>

    /** The registry and the cursor are reset together and grow together: the cursor counts the keys. */
    ghost predicate Valid()
      reads this
    {
      && objects.Valid()
      && nextVoiceIndex == |objects.keys|
      && forall i :: 0 <= i < |voiceIds| ==> voiceIds[i] != ""
    }

    /** `onSession`: a fresh session, asleep, with an empty registry. */
    constructor (voiceSetting: Option<string>)
      ensures Valid()
      ensures voiceIds == ParseVoiceIds(voiceSetting)
      ensures !awakened && objects == Empty() && nextVoiceIndex == 0 && spoken == []
    {
      voiceIds := ParseVoiceIds(voiceSetting);
      awakened := false;
      objects := Empty();
      nextVoiceIndex := 0;
      spoken := [];
      new;
      assert Empty().Valid();
      assert forall i :: 0 <= i < |voiceIds| ==> voiceIds[i] != "";
    }

    method Speak(text: string, voiceId: Option<string>)
      modifies this`spoken
      ensures spoken == old(spoken) + [Utterance(text, voiceId)]
    {
      spoken := spoken + [Utterance(text, voiceId)];
    }

    /**
     * The transcription handler. `generate` stands for the persona request
     * (see `PersonaFor`); `chat` for the conversational request, taking the
     * system prompt and the user text and giving the first choice's content
     * (`''` when absent), or `None` when the request or its JSON body fails.
     */
    method OnTranscription(
      isFinal: bool,
      text: string,
      photo: Option<Photo>,
      detect: string -> Option<string>,
      generate: string -> Option<string>,
      chat: (string, string) -> Option<string>,
      parse: string -> Option<Reply>)
      requires Valid()
      modifies this
      ensures Valid()
      // A partial transcription changes nothing.
      ensures !isFinal ==>
        awakened == old(awakened) && objects == old(objects) && spoken == old(spoken)
      // The wake word resets the registry, then fills it from what was detected.
      ensures isFinal && IsWake(CleanText(text)) ==>
        && awakened
        && objects == (match Look(photo, detect)
                       case Detected(labels) => RegisterAll(voiceIds, generate, labels)
                       case _ => Empty())
        && spoken == old(spoken) + [Utterance(AWAKENING, None), Utterance(WakeReport(Look(photo, detect)), None)]
      // Any other final utterance leaves the state alone and may get a reply.
      ensures isFinal && !IsWake(CleanText(text)) ==>
        && awakened == old(awakened) && objects == old(objects)
        && spoken == old(spoken) + Answer(old(awakened), old(objects), CleanText(text), chat, parse)
    {
      if !isFinal {
        return;
      }
      var cleanedText := CleanText(text);
      if Contains(cleanedText, WAKE_WORD) {
        OnWake(photo, detect, generate);
        return;
      }
      OnConversation(cleanedText, chat, parse);
    }

    /** The wake-word branch: reset, acknowledge, capture, detect, register each new label, report. */
    method OnWake(photo: Option<Photo>, detect: string -> Option<string>, generate: string -> Option<string>)
      requires Valid()
      modifies this
      ensures Valid()
      ensures awakened
      ensures objects == (match Look(photo, detect)
                          case Detected(labels) => RegisterAll(voiceIds, generate, labels)
                          case _ => Empty())
      ensures spoken == old(spoken) + [Utterance(AWAKENING, None), Utterance(WakeReport(Look(photo, detect)), None)]
    {
      ghost var sight := Look(photo, detect);
      awakened := true;
      objects := Empty();
      nextVoiceIndex := 0;
      Speak(AWAKENING, None);

      if photo.None? {
        assert WakeReport(sight) == CANT_SEE;
        Speak(CANT_SEE, None);
        return;
      }
      var dataUrl := PhotoDataUrl(photo.value);

      var body := detect(dataUrl);
      if body.None? {
        assert WakeReport(sight) == EYES_BROKEN;
        Speak(EYES_BROKEN, None);
        return;
      }
      var detectedObjects := ParseList(Trim(body.value));
      assert sight == Detected(detectedObjects);
      RegisterAndReport(detectedObjects, generate);
    }

    /** After a detection: register each new label, then say whether anything was found. */
    method RegisterAndReport(detectedObjects: seq<string>, generate: string -> Option<string>)
      requires Valid() && objects == Empty()
      modifies this`objects, this`nextVoiceIndex, this`spoken
      ensures Valid()
      ensures objects == RegisterAll(voiceIds, generate, detectedObjects)
      ensures spoken == old(spoken) + [Utterance(WakeReport(Detected(detectedObjects)), None)]
    {
      RegisterDetected(detectedObjects, generate);
      var report := if |detectedObjects| == 0 then NOTHING_FOUND else READY;
      Speak(report, None);
    }

    /**
     * The detection loop: each label not yet registered gets the next voice of
     * the round robin and a persona; a label already registered is skipped.
     */
    method RegisterDetected(detectedObjects: seq<string>, generate: string -> Option<string>)
      requires Valid() && objects == Empty()
      modifies this`objects, this`nextVoiceIndex
      ensures Valid()
      ensures objects == RegisterAll(voiceIds, generate, detectedObjects)
    {
      for i := 0 to |detectedObjects|
        invariant objects == RegisterAll(voiceIds, generate, detectedObjects[..i])
        invariant nextVoiceIndex == |objects.keys|
      {
        var obj := detectedObjects[i];
        assert detectedObjects[..i + 1] == detectedObjects[..i] + [obj];
        RegisterAllSnoc(voiceIds, generate, detectedObjects[..i], obj);
        if obj in objects.entries {
          continue;
        }
        var voiceId := VoiceFor(voiceIds, nextVoiceIndex);
        nextVoiceIndex := nextVoiceIndex + 1;
        var persona := PersonaFor(generate, obj);
        objects := objects.Insert(obj, ObjectInfo(persona, voiceId));
      }
      assert detectedObjects[..|detectedObjects|] == detectedObjects;
    }

    /** The conversational branch: only an awakened session with a non-empty registry asks for a reply. */
    method OnConversation(cleanedText: string, chat: (string, string) -> Option<string>, parse: string -> Option<Reply>)
      requires Valid()
      modifies this`spoken
      ensures spoken == old(spoken) + Answer(awakened, objects, cleanedText, chat, parse)
    {
      ghost var said := Answer(awakened, objects, cleanedText, chat, parse);
      if awakened {
        if |objects.keys| == 0 {
          assert said == [Utterance(NOTHING_TO_TALK, None)];
          Speak(NOTHING_TO_TALK, None);
        } else {
          var summaryList := SummaryList(objects);
          var content := chat(ConversationPrompt(summaryList), cleanedText);
          if content.None? {
            assert said == [Utterance(DISTRACTED, None)];
            Speak(DISTRACTED, None);
          } else {
            var parsed := ParsedReply(parse, content.value);
            var chosen := ReplyVoice(objects, parsed.target);
            assert said == [Utterance(parsed.response, Some(chosen))];
            Speak(parsed.response, Some(chosen));
          }
        }
      }
      assert awakened == old(awakened) && objects == old(objects);
      assert spoken == old(spoken) + said;
    }
  }

  /**
   * What the conversational branch says: nothing while asleep; the fixed line
   * with an empty registry; otherwise one reply, an apology if the request
   * failed, else the reply's text in the voice of the object it names (or of
   * the first registered object).
   */
  function Answer(
    awakened: bool,
    objects: Objects,
    cleanedText: string,
    chat: (string, string) -> Option<string>,
    parse: string -> Option<Reply>): (said: seq<Utterance>)
    requires objects.Valid()
    ensures !awakened ==> said == []
    ensures awakened && objects.keys == [] ==> said == [Utterance(NOTHING_TO_TALK, None)]
    ensures awakened && objects.keys != [] ==> |said| == 1
    // A failed request gets the apology, without a voice.
    ensures awakened && objects.keys != [] && chat(ConversationPrompt(SummaryList(objects)), cleanedText).None? ==>
      said == [Utterance(DISTRACTED, None)]
    // Otherwise the reply's text, in the named object's voice or else the first registered object's.
    ensures awakened && objects.keys != [] && chat(ConversationPrompt(SummaryList(objects)), cleanedText).Some? ==>
      var parsed := ParsedReply(parse, chat(ConversationPrompt(SummaryList(objects)), cleanedText).value);
      var owner := if parsed.target in objects.keys then parsed.target else objects.keys[0];
      said == [Utterance(parsed.response, Some(objects.entries[owner].voiceId))]
  {
    if !awakened then []
    else if objects.keys == [] then [Utterance(NOTHING_TO_TALK, None)]
    else
      match chat(ConversationPrompt(SummaryList(objects)), cleanedText)
      case None => [Utterance(DISTRACTED, None)]
      case Some(content) =>
        var parsed := ParsedReply(parse, content);
        [Utterance(parsed.response, Some(ReplyVoice(objects, parsed.target)))]
  }

  /** The wake word is found anywhere in the cleaned utterance, whatever text surrounds it. */
  lemma WakeAnywhere(before: string, after: string)
    ensures IsWake(before + WAKE_WORD + after)
  {
    var s := before + WAKE_WORD + after;
    assert s[|before|..|before| + |WAKE_WORD|] == WAKE_WORD;
    assert OccursAt(s, WAKE_WORD, |before|);
  }

  /**
   * The wake word is found anywhere in the raw transcript, whatever its
   * letter case and whatever punctuation it carries: any `w` that lower-cases
   * and loses its punctuation to "awaken" ("Awaken!", "AWA.KEN") takes the
   * wake branch, whatever text surrounds it.
   */
  lemma WakeInTranscript(before: string, w: string, after: string)
    requires RemovePunct(ToLower(w)) == WAKE_WORD
    ensures IsWake(CleanText(before + w + after))
  {
    ToLowerAppend(before + w, after);
    ToLowerAppend(before, w);
    RemovePunctAppend(ToLower(before) + ToLower(w), ToLower(after));
    RemovePunctAppend(ToLower(before), ToLower(w));
    var p, q := RemovePunct(ToLower(before)), RemovePunct(ToLower(after));
    var stripped := p + WAKE_WORD + q;
    assert RemovePunct(ToLower(before + w + after)) == stripped;
    assert stripped[|p|..|p| + |WAKE_WORD|] == WAKE_WORD;
    TrimKeepsInner(stripped, WAKE_WORD, |p|);
  }

  /**
   * The conversational answer after a wake cycle that detected `labels`: the
   * apology when the request fails, else the reply's text in the voice the
   * named object got at its first-seen position among the labels, or in the
   * first voice when the reply names no detected object.
   */
  predicate AnsweredInVoice(
    said: seq<Utterance>, voices: seq<string>, labels: seq<string>, content: Option<string>, parse: string -> Option<Reply>)
  {
    && |said| == 1
    && (content.None? ==> said[0] == Utterance(DISTRACTED, None))
    && (content.Some? ==>
          var parsed := ParsedReply(parse, content.value);
          && said[0].text == parsed.response
          && (parsed.target in labels ==>
                exists k :: 0 <= k < |FirstOccurrences(labels)| && FirstOccurrences(labels)[k] == parsed.target
                        && said[0].voiceId == Some(VoiceFor(voices, k)))
          && (parsed.target !in labels ==> said[0].voiceId == Some(VoiceFor(voices, 0))))
  }

  /** What an awake session with the registry of `labels` answers. */
  lemma AnswerAfterDetection(
    voices: seq<string>, generate: string -> Option<string>, labels: seq<string>, cleanedText: string,
    chat: (string, string) -> Option<string>, parse: string -> Option<Reply>)
    requires labels != []
    ensures var reg := RegisterAll(voices, generate, labels);
      AnsweredInVoice(Answer(true, reg, cleanedText, chat, parse), voices, labels,
                      chat(ConversationPrompt(SummaryList(reg)), cleanedText), parse)
  {
    var reg := RegisterAll(voices, generate, labels);
    RegisterAllSpec(voices, generate, labels);
    ReplyVoiceAfterDetection(voices, generate, labels, "");
    var content := chat(ConversationPrompt(SummaryList(reg)), cleanedText);
    if content.Some? {
      ReplyVoiceAfterDetection(voices, generate, labels, ParsedReply(parse, content.value).target);
    }
  }

  /**
   * A fresh session woken with a photo in which objects are detected, then
   * asked a question: it says the wake line and "We are ready!", then answers
   * as `AnsweredInVoice` says.
   */
  method WakeThenAsk(
    voiceSetting: Option<string>, wakeText: string, photo: Photo, question: string,
    detect: string -> Option<string>, generate: string -> Option<string>,
    chat: (string, string) -> Option<string>, parse: string -> Option<Reply>)
    returns (said: seq<Utterance>)
    requires IsWake(CleanText(wakeText)) && !IsWake(CleanText(question))
    requires Look(Some(photo), detect).Detected? && Look(Some(photo), detect).labels != []
    ensures |said| == 3 && said[0] == Utterance(AWAKENING, None) && said[1] == Utterance(READY, None)
    ensures var labels := Look(Some(photo), detect).labels;
      var voices := ParseVoiceIds(voiceSetting);
      var reg := RegisterAll(voices, generate, labels);
      AnsweredInVoice(said[2..], voices, labels, chat(ConversationPrompt(SummaryList(reg)), CleanText(question)), parse)
  {
    ghost var labels := Look(Some(photo), detect).labels;
    ghost var voices := ParseVoiceIds(voiceSetting);
    ghost var reg := RegisterAll(voices, generate, labels);
    var session := new LumiereSession(voiceSetting);
    session.OnTranscription(true, wakeText, Some(photo), detect, generate, chat, parse);
    assert WakeReport(Look(Some(photo), detect)) == READY;
    assert session.awakened && session.objects == reg;
    assert session.spoken == [Utterance(AWAKENING, None), Utterance(READY, None)];
    session.OnTranscription(true, question, None, detect, generate, chat, parse);
    said := session.spoken;
    AnswerAfterDetection(voices, generate, labels, CleanText(question), chat, parse);
    assert said[2..] == Answer(true, reg, CleanText(question), chat, parse);
  }

  /**
   * A detection that names one object twice ("soda can, water bottle, soda
   * can,") registers exactly the two objects, in order, with the first two
   * voices of the configured list: the repeated label neither gets an entry of
   * its own nor advances the cursor.
   */
  lemma RepeatedLabelScenario(voices: seq<string>, generate: string -> Option<string>, a: string, b: string)
    requires |voices| >= 2 && a != b
    ensures var r := RegisterAll(voices, generate, [a, b, a]);
      && r.keys == [a, b]
      && r.entries[a].voiceId == voices[0]
      && r.entries[b].voiceId == voices[1]
  {
    var r1 := Step(voices, generate, Empty(), a);
    var r2 := Step(voices, generate, r1, b);
    RepeatedLabelSteps(voices, generate, a, b);
    RegisterAllSnoc(voices, generate, [], a);
    assert [] + [a] == [a];
    RegisterAllSnoc(voices, generate, [a], b);
    assert [a] + [b] == [a, b];
    RegisterAllSnoc(voices, generate, [a, b], a);
    assert [a, b] + [a] == [a, b, a];
  }

  /** The three loop turns of `RepeatedLabelScenario`, one `Step` each. */
  lemma RepeatedLabelSteps(voices: seq<string>, generate: string -> Option<string>, a: string, b: string)
    requires |voices| >= 2 && a != b
    ensures var r1 := Step(voices, generate, Empty(), a);
      var r2 := Step(voices, generate, r1, b);
      && Step(voices, generate, r2, a) == r2
      && r2.keys == [a, b]
      && r2.entries[a].voiceId == voices[0]
      && r2.entries[b].voiceId == voices[1]
  {
    var r1 := Step(voices, generate, Empty(), a);
    assert r1.keys == [a] && r1.entries[a].voiceId == voices[0];
    var r2 := Step(voices, generate, r1, b);
    assert r2.keys == [a, b] && r2.entries[a] == r1.entries[a] && r2.entries[b].voiceId == voices[1];
    assert a in r2.entries;
  }
}
