/**
 * The per-session registry of detected objects (a plain JavaScript object
 * `Record<string, ObjectInfo>`, which keeps its keys in insertion order), the
 * round-robin choice of a voice id for each newly seen label, and the prompts
 * built from the registry.
 */
module Registry {
  import opened Wrappers
  import opened Text

  datatype ObjectInfo = ObjectInfo(persona: string, voiceId: string)

  predicate NoDup(s: seq<string>) {
    forall i, j :: 0 <= i < j < |s| ==> s[i] != s[j]
  }

  /** The registry: `keys` is `Object.keys(objects)`, `entries` the values by key. */
  datatype Objects = Objects(keys: seq<string>, entries: map<string, ObjectInfo>) {

    ghost predicate Valid() {
      NoDup(keys) && forall k :: k in entries <==> k in keys
    }

    /** `objects[k] = v` for a key not yet present: the key goes last. */
    function Insert(k: string, v: ObjectInfo): (r: Objects)
      requires Valid() && k !in entries
      ensures r.Valid()
      ensures r.keys == keys + [k] && r.entries == entries[k := v]
    {
      Objects(keys + [k], entries[k := v])
    }
  }

  /** `{}` */
  function Empty(): (r: Objects)
    ensures r.Valid() && r.keys == [] && r.entries == map[]
  {
    Objects([], map[])
  }

  /**
   * `ELEVENLABS_VOICE_IDS[cursor % ELEVENLABS_VOICE_IDS.length] || ''`: with an
   * empty list the index is NaN and the lookup gives `undefined`, hence `''`.
   */
  function VoiceFor(voices: seq<string>, cursor: nat): (v: string)
    ensures |voices| == 0 ==> v == ""
    ensures cursor < |voices| ==> v == voices[cursor]
  {
    if |voices| == 0 then "" else voices[cursor % |voices|]
  }

  lemma MulOutside(k: int, n: int)
    requires n > 0
    ensures k >= 1 ==> k * n >= n
    ensures k <= -1 ==> k * n <= -n
  {
    if k >= 1 {
      assert k * n == (k - 1) * n + n && (k - 1) * n >= 0;
    } else if k <= -1 {
      assert k * n == (k + 1) * n - n && (k + 1) * n <= 0;
    }
  }

  /** The assignment is round-robin: the cursor and the cursor one full lap later get the same voice. */
  lemma VoiceForCycles(voices: seq<string>, cursor: nat)
    ensures VoiceFor(voices, cursor + |voices|) == VoiceFor(voices, cursor)
  {
    if |voices| > 0 {
      var n := |voices|;
      var q, r := cursor / n, cursor % n;
      var q', r' := (cursor + n) / n, (cursor + n) % n;
      assert (q + 1 - q') * n == r' - r;
      MulOutside(q + 1 - q', n);
    }
  }

  /** With a list of non-empty ids, as the parse of the setting yields, the voice is `''` exactly when the list is empty. */
  lemma VoiceForEmptyIff(voices: seq<string>, cursor: nat)
    requires forall i :: 0 <= i < |voices| ==> voices[i] != ""
    ensures VoiceFor(voices, cursor) == "" <==> |voices| == 0
  {
    if |voices| > 0 {
      assert 0 <= cursor % |voices| < |voices|;
    }
  }

  /** The user prompt of the persona request for label `obj`. */
  function PersonaPrompt(obj: string): (prompt: string)
    ensures StartsWith(prompt, PERSONA_HEAD) && EndsWith(prompt, PERSONA_TAIL)
    ensures OccursAt(prompt, obj, |PERSONA_HEAD|)
  {
    PERSONA_HEAD + obj + PERSONA_TAIL
  }

  const PERSONA_HEAD := "Give me a persona for a \""
  const PERSONA_TAIL := "\" and detail the tone in which the object would speak (ex. shakespearean, hip/hop/modern style, etc)."

  /**
   * The persona stored for `obj`: `generate` stands for the chat-completion
   * call, giving the first choice's message content, or `None` when the call
   * throws or the content is missing; the content is trimmed, and a failure gives `''`.
   */
  function PersonaFor(generate: string -> Option<string>, obj: string): (persona: string)
    ensures IsTrimmed(persona)
    ensures generate(PersonaPrompt(obj)).None? ==> persona == ""
    ensures generate(PersonaPrompt(obj)).Some? ==> persona == Trim(generate(PersonaPrompt(obj)).value)
  {
    match generate(PersonaPrompt(obj))
    case None => ""
    case Some(content) => Trim(content)
  }

  /**
   * One turn of the detection loop: a label already present is skipped;
   * otherwise it is registered with the next voice (the cursor always equals
   * the number of keys) and its persona.
   */
  function Step(voices: seq<string>, generate: string -> Option<string>, reg: Objects, obj: string): (r: Objects)
    requires reg.Valid()
    ensures r.Valid()
  {
    if obj in reg.entries then reg
    else reg.Insert(obj, ObjectInfo(PersonaFor(generate, obj), VoiceFor(voices, |reg.keys|)))
  }

  /** The registry after the detection loop has run over `labels`, starting from the reset state. */
  function RegisterAll(voices: seq<string>, generate: string -> Option<string>, labels: seq<string>): (r: Objects)
    ensures r.Valid()
    decreases |labels|
  {
    if labels == [] then Empty()
    else Step(voices, generate, RegisterAll(voices, generate, labels[..|labels| - 1]), labels[|labels| - 1])
  }

  /** Running the loop one label further is one more `Step`. */
  lemma RegisterAllSnoc(voices: seq<string>, generate: string -> Option<string>, labels: seq<string>, obj: string)
    ensures RegisterAll(voices, generate, labels + [obj])
         == Step(voices, generate, RegisterAll(voices, generate, labels), obj)
  {
    var s := labels + [obj];
    assert s[..|s| - 1] == labels;
  }

  /** The distinct elements of `s`, each where it first occurs. */
  function FirstOccurrences(s: seq<string>): seq<string>
    decreases |s|
  {
    if s == [] then []
    else
      var prefix := s[..|s| - 1];
      FirstOccurrences(prefix) + (if s[|s| - 1] in prefix then [] else [s[|s| - 1]])
  }

  lemma {:induction false} FirstOccurrencesSpec(s: seq<string>)
    ensures NoDup(FirstOccurrences(s))
    ensures forall x :: x in FirstOccurrences(s) <==> x in s
    decreases |s|
  {
    if s != [] {
      var prefix, x := s[..|s| - 1], s[|s| - 1];
      FirstOccurrencesSpec(prefix);
      assert s == prefix + [x];
    }
  }

  /** A list without repetitions is its own first-occurrence list. */
  lemma {:induction false} FirstOccurrencesOfDistinct(s: seq<string>)
    requires NoDup(s)
    ensures FirstOccurrences(s) == s
    decreases |s|
  {
    if s != [] {
      var prefix, x := s[..|s| - 1], s[|s| - 1];
      assert x !in prefix by {
        forall i | 0 <= i < |prefix| ensures prefix[i] != x {
          assert s[i] != s[|s| - 1];
        }
      }
      FirstOccurrencesOfDistinct(prefix);
      assert s == prefix + [x];
    }
  }

  /** The k-th key of `r` holds its generated persona and the k-th voice of the round-robin. */
  ghost predicate RoundRobinEntries(r: Objects, voices: seq<string>, generate: string -> Option<string>) {
    forall k :: 0 <= k < |r.keys| ==>
      r.keys[k] in r.entries
      && r.entries[r.keys[k]] == ObjectInfo(PersonaFor(generate, r.keys[k]), VoiceFor(voices, k))
  }

  /** Registering a new label appends it and keeps the round-robin assignment of every entry. */
  lemma StepNew(voices: seq<string>, generate: string -> Option<string>, before: Objects, x: string)
    requires before.Valid() && x !in before.entries
    requires RoundRobinEntries(before, voices, generate)
    ensures Step(voices, generate, before, x).keys == before.keys + [x]
    ensures RoundRobinEntries(Step(voices, generate, before, x), voices, generate)
  {
    var r := Step(voices, generate, before, x);
    var info := ObjectInfo(PersonaFor(generate, x), VoiceFor(voices, |before.keys|));
    assert r.keys == before.keys + [x] && r.entries == before.entries[x := info];
    forall k | 0 <= k < |r.keys|
      ensures r.keys[k] in r.entries
      ensures r.entries[r.keys[k]] == ObjectInfo(PersonaFor(generate, r.keys[k]), VoiceFor(voices, k))
    {
      if k < |before.keys| {
        assert r.keys[k] == before.keys[k] && before.keys[k] != x;
        assert r.entries[r.keys[k]] == before.entries[before.keys[k]];
      } else {
        assert k == |before.keys| && r.keys[k] == x;
      }
    }
  }

  /**
   * After the detection loop over `labels`, the registry keys are the distinct
   * labels in first-seen order, and the k-th key carries the k-th voice of the
   * round-robin and its generated persona.
   */
  lemma {:induction false} RegisterAllSpec(voices: seq<string>, generate: string -> Option<string>, labels: seq<string>)
    ensures RegisterAll(voices, generate, labels).keys == FirstOccurrences(labels)
    ensures RoundRobinEntries(RegisterAll(voices, generate, labels), voices, generate)
    decreases |labels|
  {
    if labels != [] {
      var prefix, x := labels[..|labels| - 1], labels[|labels| - 1];
      var before := RegisterAll(voices, generate, prefix);
      RegisterAllSpec(voices, generate, prefix);
      FirstOccurrencesSpec(prefix);
      assert x in before.entries <==> x in prefix;
      assert RegisterAll(voices, generate, labels) == Step(voices, generate, before, x);
      assert FirstOccurrences(labels) == FirstOccurrences(prefix) + (if x in prefix then [] else [x]);
      if x in prefix {
        assert FirstOccurrences(prefix) + [] == FirstOccurrences(prefix);
      } else {
        StepNew(voices, generate, before, x);
      }
    }
  }

  /** A label seen again in the same detection result leaves the registry as it was. */
  lemma RegisterAllSkipsKnown(voices: seq<string>, generate: string -> Option<string>, labels: seq<string>, x: string)
    requires x in labels
    ensures RegisterAll(voices, generate, labels + [x]) == RegisterAll(voices, generate, labels)
  {
    var s := labels + [x];
    assert s[..|s| - 1] == labels;
    RegisterAllSpec(voices, generate, labels);
    FirstOccurrencesSpec(labels);
  }

  /**
   * The reply voice: `(objects[name] || Object.values(objects)[0]).voiceId`,
   * the named object's voice, else the first registered object's.
   */
  function ReplyVoice(reg: Objects, name: string): (voice: string)
    requires reg.Valid() && reg.keys != []
    ensures name in reg.keys ==> voice == reg.entries[name].voiceId
    ensures name !in reg.keys ==> voice == reg.entries[reg.keys[0]].voiceId
  {
    if name in reg.entries then reg.entries[name].voiceId else reg.entries[reg.keys[0]].voiceId
  }

  /**
   * After a wake cycle that detected `labels`, a reply naming a detected object
   * speaks in the voice that object got from the round-robin at its first-seen
   * position; a reply naming anything else speaks in the first voice.
   */
  lemma ReplyVoiceAfterDetection(voices: seq<string>, generate: string -> Option<string>, labels: seq<string>, name: string)
    requires labels != []
    ensures RegisterAll(voices, generate, labels).keys != []
    ensures var r := RegisterAll(voices, generate, labels);
      name in labels ==> exists k :: 0 <= k < |r.keys| && r.keys[k] == name && ReplyVoice(r, name) == VoiceFor(voices, k)
    ensures var r := RegisterAll(voices, generate, labels);
      name !in labels ==> ReplyVoice(r, name) == VoiceFor(voices, 0)
  {
    var r := RegisterAll(voices, generate, labels);
    RegisterAllSpec(voices, generate, labels);
    FirstOccurrencesSpec(labels);
    assert labels[0] in r.keys;
    if name in labels {
      var k :| 0 <= k < |r.keys| && r.keys[k] == name;
      assert ReplyVoice(r, name) == VoiceFor(voices, k);
    }
  }

  /** The lines of `summaryList`: `${name}: ${info.persona}` for each entry, in key order. */
  function SummaryLines(reg: Objects): (lines: seq<string>)
    requires reg.Valid()
    ensures |lines| == |reg.keys|
  {
    seq(|reg.keys|, k requires 0 <= k < |reg.keys| => reg.keys[k] + ": " + reg.entries[reg.keys[k]].persona)
  }

  /** `summaryList`: the lines joined with `'\n'`. */
  function SummaryList(reg: Objects): (summary: string)
    requires reg.Valid()
    ensures summary == "" <==> reg.keys == []
  {
    Join(SummaryLines(reg), '\n')
  }

  /**
   * The summary can be read back line by line: when no label and no persona
   * holds a line break, splitting it on `'\n'` gives one line per registered
   * object, in key order, naming the object and its persona.
   */
  lemma SummaryListLines(reg: Objects)
    requires reg.Valid() && reg.keys != []
    requires forall k :: k in reg.entries ==> '\n' !in k && '\n' !in reg.entries[k].persona
    ensures var lines := Split(SummaryList(reg), '\n');
      |lines| == |reg.keys|
      && forall k :: 0 <= k < |lines| ==> lines[k] == reg.keys[k] + ": " + reg.entries[reg.keys[k]].persona
  {
    var lines := SummaryLines(reg);
    forall k | 0 <= k < |lines| ensures '\n' !in lines[k] {
      var name := reg.keys[k];
      assert name in reg.entries;
      assert lines[k] == name + ": " + reg.entries[name].persona;
    }
    SplitJoin(lines, '\n');
  }

  /** The system prompt of the conversational request, built around the summary. */
  function ConversationPrompt(summary: string): (prompt: string)
    ensures StartsWith(prompt, PROMPT_HEAD) && EndsWith(prompt, PROMPT_TAIL)
    ensures OccursAt(prompt, summary, |PROMPT_HEAD|)
  {
    PROMPT_HEAD + summary + PROMPT_TAIL
  }

  const PROMPT_HEAD := "You are Lumiere, an assistant that makes objects talk.\nHere is the list of objects you can embody with their personas:\n\n"
  const PROMPT_TAIL := "\n\nWhen the user speaks, pick the single most likely object they are addressing and respond as that object in first person, staying in character. Return your answer STRICTLY as JSON: {\"object\":\"<object name>\", \"response\":\"<what the object says>\"}"
}
