/**
 * Character cards: the registry of professor personas keyed by card id, the
 * system prompt built from a card, and the display settings (name, icon,
 * embed colour) derived from it.
 *
 * A card mirrors the JSON object read from a character file. Optional text
 * fields use the empty string for "missing", since the code treats the two
 * alike (both are falsy); fields whose presence matters on its own (`name`
 * and `title` are interpolated even when missing, an empty `traits` array is
 * still truthy) are `Option`s.
 */
module CharacterCards {
  import opened Wrappers
  import opened JsText

  datatype Personality = Personality(traits: Option<seq<string>>, speakingStyle: string, quirks: seq<string>)

  /** `years_teaching` and `years_experience` are numbers; 0 stands for missing. */
  datatype Backstory = Backstory(education: string, specialization: string, yearsTeaching: int, yearsExperience: int)

  datatype Approach = Approach(approachMethod: string, preferences: seq<string>)

  datatype Expertise = Expertise(strongestAreas: Option<seq<string>>)

  datatype Guidelines = Guidelines(typicalLength: string, tone: string, structure: string, specialNotes: string)

  /** The `color` field: missing, a string (read as hexadecimal), or a number. */
  datatype Color = NoColor | ColorText(text: string) | ColorNumber(number: int)

  datatype Card = Card(
    id: string,
    name: Option<string>,
    title: Option<string>,
    icon: string,
    color: Color,
    personality: Option<Personality>,
    backstory: Option<Backstory>,
    teachingApproach: Option<Approach>,
    helpingApproach: Option<Approach>,
    expertise: Option<Expertise>,
    guidelines: Option<Guidelines>)

  /** A file of the characters directory: its name and its card, or nothing
   *  when it could not be read or parsed. */
  datatype CharacterFile = CharacterFile(fileName: string, card: Option<Card>)

  // ---------------------------------------------------------------------------
  // Registration
  // ---------------------------------------------------------------------------

  /** A file contributes a card when it is a `.json` file that parsed and
   *  whose card has a non-empty id. */
  predicate Registers(f: CharacterFile)
  {
    EndsWith(f.fileName, ".json") && f.card.Some? && f.card.value.id != ""
  }

  /** The registry after one file. */
  function Register(characters: map<string, Card>, f: CharacterFile): map<string, Card>
  {
    if Registers(f) then characters[f.card.value.id := f.card.value] else characters
  }

  /** The registry after the files, in directory order. */
  function RegisterAll(characters: map<string, Card>, files: seq<CharacterFile>): map<string, Card>
    decreases |files|
  {
    if files == [] then characters
    else Register(RegisterAll(characters, files[..|files| - 1]), files[|files| - 1])
  }

  /** The card of the last registering file with this id, if any. */
  function LastCardWithId(files: seq<CharacterFile>, id: string): (r: Option<Card>)
    ensures r.Some? ==> r.value.id == id
    decreases |files|
  {
    if files == [] then None
    else
      var f := files[|files| - 1];
      if Registers(f) && f.card.value.id == id then f.card
      else LastCardWithId(files[..|files| - 1], id)
  }

  /** A later card with the same id replaces an earlier one; cards without an
   *  id, files that failed to parse and non-`.json` files add nothing. */
  lemma {:induction false} RegisterAllLastWins(characters: map<string, Card>, files: seq<CharacterFile>, id: string)
    ensures LastCardWithId(files, id).Some? ==>
              id in RegisterAll(characters, files) && RegisterAll(characters, files)[id] == LastCardWithId(files, id).value
    ensures LastCardWithId(files, id).None? ==>
              (id in RegisterAll(characters, files) <==> id in characters) &&
              (id in characters ==> RegisterAll(characters, files)[id] == characters[id])
    decreases |files|
  {
    if files != [] {
      RegisterAllLastWins(characters, files[..|files| - 1], id);
    }
  }

  /** No card is ever registered under the empty id. */
  lemma {:induction false} NoEmptyId(characters: map<string, Card>, files: seq<CharacterFile>)
    requires "" !in characters
    ensures "" !in RegisterAll(characters, files)
    decreases |files|
  {
    if files != [] {
      NoEmptyId(characters, files[..|files| - 1]);
    }
  }

  // ---------------------------------------------------------------------------
  // The system prompt
  // ---------------------------------------------------------------------------

  /** The segments of a prompt, in the order they are emitted. */
  datatype SegmentKind =
    | Identity | Traits | SpeakingStyle | Quirks | Background
    | Method | Preferences | MainExpertise
    | Length | Tone | Structure | Notes
  {
    function Rank(): nat {
      match this
      case Identity => 0
      case Traits => 1
      case SpeakingStyle => 2
      case Quirks => 3
      case Background => 4
      case Method => 5
      case Preferences => 6
      case MainExpertise => 7
      case Length => 8
      case Tone => 9
      case Structure => 10
      case Notes => 11
    }
  }

  /** A segment the prompt may contain: its kind, and its text when present. */
  datatype Candidate = Candidate(kind: SegmentKind, text: Option<string>)

  /** A segment the prompt does contain. */
  datatype Segment = Segment(kind: SegmentKind, text: string)

  /** A template-literal rendering of an optional string. */
  function Shown(s: Option<string>): string
  {
    if s.Some? then s.value else "undefined"
  }

  /** The teaching approach, falling back to the helping approach. */
  function ApproachOf(c: Card): (a: Option<Approach>)
    ensures c.teachingApproach.Some? ==> a == c.teachingApproach
    ensures c.teachingApproach.None? ==> a == c.helpingApproach
  {
    if c.teachingApproach.Some? then c.teachingApproach else c.helpingApproach
  }

  /** The years quoted in the background: teaching years, else experience. */
  function Years(bg: Backstory): int
  {
    if bg.yearsTeaching != 0 then bg.yearsTeaching else bg.yearsExperience
  }

  /** The sentences of the background segment. */
  function BackgroundParts(bg: Backstory): seq<string>
  {
    (if bg.education != "" then [bg.education] else [])
    + (if bg.specialization != "" then ["You specialize in " + bg.specialization] else [])
    + (if Years(bg) != 0 then ["You have " + IntToString(Years(bg)) + " years of experience"] else [])
  }

  function IdentityText(c: Card): string
  {
    "You are " + Shown(c.name) + ", a " + Shown(c.title) + "."
  }

  function TraitsText(c: Card): Option<string>
  {
    if c.personality.Some? && c.personality.value.traits.Some?
    then Some("\nYour personality: " + Join(c.personality.value.traits.value, ", ") + ".")
    else None
  }

  function SpeakingStyleText(c: Card): Option<string>
  {
    if c.personality.Some? && c.personality.value.speakingStyle != ""
    then Some("Speaking style: " + c.personality.value.speakingStyle + ".")
    else None
  }

  function QuirksText(c: Card): Option<string>
  {
    if c.personality.Some? && |c.personality.value.quirks| > 0
    then Some("\nYour quirks: " + Join(c.personality.value.quirks, "; ") + ".")
    else None
  }

  function BackgroundText(c: Card): Option<string>
  {
    if c.backstory.Some? && |BackgroundParts(c.backstory.value)| > 0
    then Some("\nBackground: " + Join(BackgroundParts(c.backstory.value), ". ") + ".")
    else None
  }

  function MethodText(c: Card): Option<string>
  {
    if ApproachOf(c).Some? && ApproachOf(c).value.approachMethod != ""
    then Some("\nYour approach: " + ApproachOf(c).value.approachMethod + ".")
    else None
  }

  function PreferencesText(c: Card): Option<string>
  {
    if ApproachOf(c).Some? && |ApproachOf(c).value.preferences| > 0
    then Some("You prefer to: " + Join(Take(ApproachOf(c).value.preferences, 3), "; ") + ".")
    else None
  }

  function ExpertiseText(c: Card): Option<string>
  {
    if c.expertise.Some? && c.expertise.value.strongestAreas.Some?
    then Some("\nYour main expertise: " + Join(Take(c.expertise.value.strongestAreas.value, 4), ", ") + ".")
    else None
  }

  function LengthText(c: Card): Option<string>
  {
    if c.guidelines.Some? && c.guidelines.value.typicalLength != ""
    then Some("\nKeep responses around " + c.guidelines.value.typicalLength + ".")
    else None
  }

  function ToneText(c: Card): Option<string>
  {
    if c.guidelines.Some? && c.guidelines.value.tone != ""
    then Some("Maintain a " + c.guidelines.value.tone + " tone.")
    else None
  }

  function StructureText(c: Card): Option<string>
  {
    if c.guidelines.Some? && c.guidelines.value.structure != ""
    then Some("Response structure: " + c.guidelines.value.structure + ".")
    else None
  }

  function NotesText(c: Card): Option<string>
  {
    if c.guidelines.Some? && c.guidelines.value.specialNotes != ""
    then Some("Important: " + c.guidelines.value.specialNotes)
    else None
  }

  /** Every segment a card may produce, in emission order. */
  function Candidates(c: Card): (cands: seq<Candidate>)
    ensures |cands| == 12
    ensures forall i :: 0 <= i < |cands| ==> cands[i].kind.Rank() == i
  {
    [ Candidate(Identity, Some(IdentityText(c))),
      Candidate(Traits, TraitsText(c)),
      Candidate(SpeakingStyle, SpeakingStyleText(c)),
      Candidate(Quirks, QuirksText(c)),
      Candidate(Background, BackgroundText(c)),
      Candidate(Method, MethodText(c)),
      Candidate(Preferences, PreferencesText(c)),
      Candidate(MainExpertise, ExpertiseText(c)),
      Candidate(Length, LengthText(c)),
      Candidate(Tone, ToneText(c)),
      Candidate(Structure, StructureText(c)),
      Candidate(Notes, NotesText(c)) ]
  }

  /** The present candidates, in order. */
  function Present(cands: seq<Candidate>): seq<Segment>
    decreases |cands|
  {
    if cands == [] then []
    else
      (if cands[0].text.Some? then [Segment(cands[0].kind, cands[0].text.value)] else []) + Present(cands[1..])
  }

  function Segments(c: Card): seq<Segment>
  {
    Present(Candidates(c))
  }

  function Texts(segs: seq<Segment>): (texts: seq<string>)
    ensures |texts| == |segs|
    ensures forall i :: 0 <= i < |segs| ==> texts[i] == segs[i].text
  {
    seq(|segs|, i requires 0 <= i < |segs| => segs[i].text)
  }

  /** The system prompt of a card: its present segments joined with single
   *  spaces. */
  function SystemPrompt(c: Card): string
  {
    Join(Texts(Segments(c)), " ")
  }

  predicate RankedCandidates(cands: seq<Candidate>)
  {
    forall i, j :: 0 <= i < j < |cands| ==> cands[i].kind.Rank() < cands[j].kind.Rank()
  }

  predicate RankedSegments(segs: seq<Segment>)
  {
    forall i, j :: 0 <= i < j < |segs| ==> segs[i].kind.Rank() < segs[j].kind.Rank()
  }

  /** A segment is emitted exactly when it is a present candidate. */
  lemma {:induction false} PresentMembers(cands: seq<Candidate>)
    ensures forall seg :: seg in Present(cands) <==> Candidate(seg.kind, Some(seg.text)) in cands
    decreases |cands|
  {
    if cands != [] {
      PresentMembers(cands[1..]);
      var head := if cands[0].text.Some? then [Segment(cands[0].kind, cands[0].text.value)] else [];
      assert Present(cands) == head + Present(cands[1..]);
      assert forall x :: x in cands <==> x == cands[0] || x in cands[1..];
    }
  }

  /** A segment ranked below every segment of an ordered list can lead it. */
  lemma PrependRanked(seg: Segment, tail: seq<Segment>)
    requires RankedSegments(tail)
    requires forall t :: t in tail ==> seg.kind.Rank() < t.kind.Rank()
    ensures RankedSegments([seg] + tail)
  {
    var all := [seg] + tail;
    forall i, j | 0 <= i < j < |all| ensures all[i].kind.Rank() < all[j].kind.Rank() {
      assert all[j] == tail[j - 1];
      if i > 0 {
        assert all[i] == tail[i - 1];
      }
    }
  }

  /** The candidates after the first are ordered and all rank above it. */
  lemma RestRanked(cands: seq<Candidate>)
    requires cands != [] && RankedCandidates(cands)
    ensures RankedCandidates(cands[1..])
    ensures forall x :: x in cands[1..] ==> cands[0].kind.Rank() < x.kind.Rank()
  {
    var rest := cands[1..];
    forall i, j | 0 <= i < j < |rest| ensures rest[i].kind.Rank() < rest[j].kind.Rank() {
      assert rest[i] == cands[i + 1] && rest[j] == cands[j + 1];
    }
    forall x | x in rest ensures cands[0].kind.Rank() < x.kind.Rank() {
      var j :| 0 <= j < |rest| && rest[j] == x;
      assert cands[j + 1] == x;
    }
  }

  /** Emitting keeps the candidates' order. */
  lemma {:induction false} PresentOrdered(cands: seq<Candidate>)
    requires RankedCandidates(cands)
    ensures RankedSegments(Present(cands))
    decreases |cands|
  {
    if cands != [] {
      var rest := cands[1..];
      RestRanked(cands);
      PresentOrdered(rest);
      var tail := Present(rest);
      if cands[0].text.Some? {
        var seg := Segment(cands[0].kind, cands[0].text.value);
        PresentMembers(rest);
        assert forall t :: t in tail ==> Candidate(t.kind, Some(t.text)) in rest;
        PrependRanked(seg, tail);
        assert Present(cands) == [seg] + tail;
      } else {
        assert Present(cands) == tail;
      }
    }
  }

  /** A candidate of kind `k` sits at position `k.Rank()`. */
  lemma CandidateAt(c: Card, k: SegmentKind, text: Option<string>)
    requires Candidate(k, text) in Candidates(c)
    ensures Candidates(c)[k.Rank()] == Candidate(k, text)
  {
    var i :| 0 <= i < |Candidates(c)| && Candidates(c)[i] == Candidate(k, text);
  }

  /** The prompt's segments appear in the fixed order identity, traits,
   *  speaking style, quirks, background, approach method, preferences,
   *  expertise, length, tone, structure, special notes; a segment appears
   *  exactly when its text is present; and the first is the identity. */
  lemma SegmentsInOrder(c: Card)
    ensures RankedSegments(Segments(c))
    ensures forall seg :: seg in Segments(c) <==> Candidates(c)[seg.kind.Rank()] == Candidate(seg.kind, Some(seg.text))
    ensures |Segments(c)| >= 1 && Segments(c)[0] == Segment(Identity, IdentityText(c))
  {
    var cands := Candidates(c);
    PresentOrdered(cands);
    PresentMembers(cands);
    forall seg ensures seg in Segments(c) <==> cands[seg.kind.Rank()] == Candidate(seg.kind, Some(seg.text)) {
      if seg in Segments(c) {
        CandidateAt(c, seg.kind, Some(seg.text));
      }
    }
    assert Present(cands) == [Segment(Identity, IdentityText(c))] + Present(cands[1..]);
  }

  /** The prompt always begins with `You are {name}, a {title}.` */
  lemma PromptStartsWithIdentity(c: Card)
    ensures "You are " + Shown(c.name) + ", a " + Shown(c.title) + "." <= SystemPrompt(c)
  {
    SegmentsInOrder(c);
    var texts := Texts(Segments(c));
    assert texts[0] == IdentityText(c);
    if |texts| > 1 {
      assert SystemPrompt(c) == texts[0] + " " + Join(texts[1..], " ");
    }
  }

  /** The traits segment is emitted whenever `traits` is present, even empty. */
  lemma TraitsEvenWhenEmpty(c: Card)
    requires c.personality.Some? && c.personality.value.traits == Some([])
    ensures Segment(Traits, "\nYour personality: .") in Segments(c)
  {
    SegmentsInOrder(c);
    assert Join([], ", ") == "";
    assert "\nYour personality: " + "" + "." == "\nYour personality: .";
    assert TraitsText(c) == Some("\nYour personality: .");
    assert Candidates(c)[Traits.Rank()] == Candidate(Traits, Some("\nYour personality: ."));
  }

  /** The quirks segment needs a non-empty list. */
  lemma QuirksNeedEntries(c: Card)
    ensures (exists t :: Segment(Quirks, t) in Segments(c)) <==> c.personality.Some? && |c.personality.value.quirks| > 0
  {
    SegmentsInOrder(c);
    if QuirksText(c).Some? {
      assert Segment(Quirks, QuirksText(c).value) in Segments(c);
    }
  }

  /** The background segment is present exactly when there is a backstory
   *  with an education, a specialization or a non-zero number of years. */
  lemma BackgroundPresence(c: Card)
    ensures (exists t :: Segment(Background, t) in Segments(c)) <==>
            c.backstory.Some? &&
            (c.backstory.value.education != "" || c.backstory.value.specialization != "" ||
             c.backstory.value.yearsTeaching != 0 || c.backstory.value.yearsExperience != 0)
  {
    SegmentsInOrder(c);
    if BackgroundText(c).Some? {
      assert Segment(Background, BackgroundText(c).value) in Segments(c);
    }
  }

  /** Teaching years take precedence over years of experience. */
  lemma YearsPrecedence(bg: Backstory)
    ensures bg.yearsTeaching != 0 ==>
              BackgroundParts(bg)[|BackgroundParts(bg)| - 1] == "You have " + IntToString(bg.yearsTeaching) + " years of experience"
    ensures bg.yearsTeaching == 0 && bg.yearsExperience != 0 ==>
              BackgroundParts(bg)[|BackgroundParts(bg)| - 1] == "You have " + IntToString(bg.yearsExperience) + " years of experience"
    ensures bg.yearsTeaching == 0 && bg.yearsExperience == 0 ==> |BackgroundParts(bg)| <= 2
  {
  }

  /** At most the first three preferences are listed: entries after the
   *  third do not change the prompt. */
  lemma PreferencesCapped(c: Card, d: Card)
    requires c == d.(teachingApproach := c.teachingApproach, helpingApproach := c.helpingApproach)
    requires ApproachOf(c).Some? && ApproachOf(d).Some?
    requires ApproachOf(c).value.approachMethod == ApproachOf(d).value.approachMethod
    requires |ApproachOf(c).value.preferences| >= 3 && |ApproachOf(d).value.preferences| >= 3
    requires ApproachOf(c).value.preferences[..3] == ApproachOf(d).value.preferences[..3]
    ensures SystemPrompt(c) == SystemPrompt(d)
  {
    assert PreferencesText(c) == PreferencesText(d);
    assert Candidates(c) == Candidates(d);
  }

  /** At most the first four expertise areas are listed. */
  lemma ExpertiseCapped(c: Card, d: Card)
    requires c == d.(expertise := c.expertise)
    requires c.expertise.Some? && d.expertise.Some?
    requires c.expertise.value.strongestAreas.Some? && d.expertise.value.strongestAreas.Some?
    requires |c.expertise.value.strongestAreas.value| >= 4 && |d.expertise.value.strongestAreas.value| >= 4
    requires c.expertise.value.strongestAreas.value[..4] == d.expertise.value.strongestAreas.value[..4]
    ensures SystemPrompt(c) == SystemPrompt(d)
  {
    assert ExpertiseText(c) == ExpertiseText(d);
    assert Candidates(c) == Candidates(d);
  }

  /** A helping approach is ignored when there is a teaching approach. */
  lemma TeachingOverHelping(c: Card, d: Card)
    requires c == d.(helpingApproach := c.helpingApproach)
    requires c.teachingApproach.Some?
    ensures SystemPrompt(c) == SystemPrompt(d)
  {
    assert Candidates(c) == Candidates(d);
  }

  // ---------------------------------------------------------------------------
  // Display settings
  // ---------------------------------------------------------------------------

  /** The icon used when a card has none, as the source spells it (three
   *  characters: a mis-decoded emoji). */
  const DefaultIcon: string := "\U{011F}\U{0178}\U{201C}"

  const DefaultColor: int := 0x5865F2

  /** The display settings of a card. `name` is `None` when the card has
   *  neither a name nor a title; `color` is `NaN` when a colour string has no
   *  leading hexadecimal digit. */
  datatype DisplayConfig = DisplayConfig(name: Option<string>, icon: string, color: ParsedInt)

  function DisplayConfigOf(c: Card): (d: DisplayConfig)
    ensures c.name.Some? && c.name.value != "" ==> d.name == c.name
    ensures (c.name.None? || c.name.value == "") ==> d.name == c.title
    ensures d.icon != ""
    ensures c.icon != "" ==> d.icon == c.icon
    ensures c.color.ColorText? ==> d.color == ParseInt(c.color.text, Hex)
    ensures c.color.ColorNumber? && c.color.number != 0 ==> d.color == Int(c.color.number)
    ensures c.color.NoColor? || c.color == ColorNumber(0) ==> d.color == Int(DefaultColor)
  {
    DisplayConfig(
      if c.name.Some? && c.name.value != "" then c.name else c.title,
      if c.icon != "" then c.icon else DefaultIcon,
      match c.color
      case ColorText(s) => ParseInt(s, Hex)
      case ColorNumber(n) => if n != 0 then Int(n) else Int(DefaultColor)
      case NoColor => Int(DefaultColor))
  }

  /** A colour written as hexadecimal digits (as `toString(16)` would) is read
   *  back as that number. */
  lemma HexColorRoundTrip(c: Card, n: nat)
    requires c.color == ColorText(HexString(n))
    ensures DisplayConfigOf(c).color == Int(n)
  {
    HexStringRoundTrip(n);
  }

  /** A CSS-style colour with a leading `#` is not a number. */
  lemma HashColorIsNaN(c: Card)
    requires c.color == ColorText("#5865F2")
    ensures DisplayConfigOf(c).color == NaN
  {
    assert TrimStart("#5865F2") == "#5865F2";
    assert DigitRun("#5865F2", Hexadecimal) == 0;
  }

  // ---------------------------------------------------------------------------
  // The manager
  // ---------------------------------------------------------------------------

  class CharacterCardManager {
    /** The registered cards by id. */
    var characters: map<string, Card>

    /** Starts from an empty registry and loads the cards of the directory's
     *  files, as the constructor's call to `loadCharacters` does. */
    constructor(files: seq<CharacterFile>)
      ensures characters == RegisterAll(map[], files)
    {
      characters := map[];
      new;
      LoadCharacters(files);
    }

    /** `loadCharacters`: registers the cards of the directory's files in
     *  order. A missing directory is an empty listing. */
    method LoadCharacters(files: seq<CharacterFile>)
      modifies this
      ensures characters == RegisterAll(old(characters), files)
    {
      var i := 0;
      while i < |files|
        invariant 0 <= i <= |files|
        invariant characters == RegisterAll(old(characters), files[..i])
      {
        var f := files[i];
        if EndsWith(f.fileName, ".json") && f.card.Some? {
          var card := f.card.value;
          if card.id != "" {
            characters := characters[card.id := card];
          }
        }
        assert files[..i + 1][..i] == files[..i];
        i := i + 1;
      }
      assert files[..i] == files;
    }

    function GetCharacter(id: string): (r: Option<Card>)
      reads this
      ensures r.Some? <==> id in characters
      ensures r.Some? ==> r.value == characters[id]
    {
      if id in characters then Some(characters[id]) else None
    }

    /** `buildSystemPrompt`: nothing for an unknown id, otherwise the prompt
     *  of the registered card. */
    function BuildSystemPrompt(id: string): (r: Option<string>)
      reads this
      ensures r.None? <==> id !in characters
      ensures r.Some? ==> r.value == SystemPrompt(characters[id])
    {
      if id in characters then Some(SystemPrompt(characters[id])) else None
    }

    /** `getDisplayConfig`: nothing for an unknown id, otherwise the display
     *  settings of the registered card. */
    function GetDisplayConfig(id: string): (r: Option<DisplayConfig>)
      reads this
      ensures r.None? <==> id !in characters
      ensures r.Some? ==> r.value == DisplayConfigOf(characters[id])
    {
      if id in characters then Some(DisplayConfigOf(characters[id])) else None
    }
  }
}
