/**
 * The `create-curriculum` command: reads the professor and the number of
 * weeks, asks the chat service for a curriculum as JSON, cuts the JSON object
 * out of the reply, checks that it has a `weeks` list, stores it (which also
 * sets the progress to week 1) and shows a preview of the first three weeks.
 */
module CreateCurriculumCommand {
  import opened Wrappers
  import opened JsText
  import opened Curricula
  import opened CharacterCards
  import opened HandlerCommon

  const DefaultWeeks := 15
  const MinWeeks := 4
  const MaxWeeks := 20

  /** Why creation failed inside the handler's `try` block. */
  datatype Failure = ChatFailed(message: string) | Unparsable | InvalidFormat | SaveFailed
  {
    /** The error message shown after "Failed to create curriculum: ". */
    function Message(): string
    {
      match this
      case ChatFailed(message) => message
      case Unparsable => "Failed to parse curriculum. Please try again."
      case InvalidFormat => "Invalid curriculum format"
      case SaveFailed => "Failed to save curriculum"
    }
  }

  /** The confirmation embed. `preview` lists the first three weeks and ends
   *  with a "...and more" line when there are more. */
  datatype Created = Created(color: ParsedInt, icon: string, title: string, description: string, duration: int,
                             currentWeek: int, professor: Option<string>, preview: string)

  datatype Outcome =
    | NotInGuild
    | Usage
    | WeeksOutOfRange
    | NotConfigured
    | UnknownProfessor(professorId: string)
    | Failed(failure: Failure)
    | Shown(created: Created)

  /** The number of weeks asked for: the slash option or `parseInt` of the
   *  second word (`NaN` when there is none), with 15 for a falsy value. */
  function WeekCount(inv: Invocation): (n: int)
    ensures n != 0
    ensures inv.Slash? ==> n == (if inv.number.Some? && inv.number.value != 0 then inv.number.value else DefaultWeeks)
  {
    match inv
    case Slash(_, number) => if number.Some? && number.value != 0 then number.value else DefaultWeeks
    case Prefix(args) =>
      var parsed := if |args| > 1 then ParseInt(args[1], Auto) else NaN;
      if parsed.Truthy() then parsed.value else DefaultWeeks
  }

  /** A written count is read back; without one the course has 15 weeks. */
  lemma WeekCountReadsNumber(p: string, n: int)
    requires n != 0
    ensures WeekCount(Prefix([p, IntToString(n)])) == n
    ensures WeekCount(Prefix([p])) == DefaultWeeks
    ensures WeekCount(Slash(p, None)) == DefaultWeeks
  {
    IntToStringRoundTrip(n);
  }

  // ---------------------------------------------------------------------------
  // The JSON object in the reply
  // ---------------------------------------------------------------------------

  /** The index of the first `c` in `s`. */
  function FirstIndex(s: string, c: char): (r: Option<nat>)
    ensures r.Some? ==> r.value < |s| && s[r.value] == c && forall k :: 0 <= k < r.value ==> s[k] != c
    ensures r.None? ==> forall k :: 0 <= k < |s| ==> s[k] != c
    decreases |s|
  {
    if s == [] then None
    else if s[0] == c then Some(0)
    else
      var r := FirstIndex(s[1..], c);
      if r.Some? then Some(r.value + 1) else None
  }

  /** The index of the last `c` in `s`. */
  function LastIndex(s: string, c: char): (r: Option<nat>)
    ensures r.Some? ==> r.value < |s| && s[r.value] == c && forall k :: r.value < k < |s| ==> s[k] != c
    ensures r.None? ==> forall k :: 0 <= k < |s| ==> s[k] != c
    decreases |s|
  {
    if s == [] then None
    else if s[|s| - 1] == c then Some(|s| - 1)
    else LastIndex(s[..|s| - 1], c)
  }

  /** The match of `/\{[\s\S]*\}/`: from the first `{` to the last `}`
   *  after it, or nothing when no `}` follows a `{`. */
  function JsonSpan(s: string): (r: Option<string>)
  {
    var first := FirstIndex(s, '{');
    var last := LastIndex(s, '}');
    if first.Some? && last.Some? && first.value < last.value then Some(s[first.value..last.value + 1]) else None
  }

  /** A span is found exactly when some `{` comes before some `}`; it is the
   *  longest such stretch, starting at the first `{` and ending at the last
   *  `}`. */
  lemma JsonSpanIsGreedy(s: string)
    ensures JsonSpan(s).Some? <==> exists i, j :: 0 <= i < j < |s| && s[i] == '{' && s[j] == '}'
    ensures JsonSpan(s).Some? ==>
              exists i, j :: 0 <= i < j < |s| && JsonSpan(s).value == s[i..j + 1]
                && s[i] == '{' && s[j] == '}'
                && (forall k :: 0 <= k < i ==> s[k] != '{')
                && (forall k :: j < k < |s| ==> s[k] != '}')
  {
    var first := FirstIndex(s, '{');
    var last := LastIndex(s, '}');
    if exists i, j :: 0 <= i < j < |s| && s[i] == '{' && s[j] == '}' {
      var i, j :| 0 <= i < j < |s| && s[i] == '{' && s[j] == '}';
      assert first.Some? && first.value <= i;
      assert last.Some? && j <= last.value;
    }
  }

  /** Prose around a JSON object is cut off. */
  lemma JsonSpanInProse()
    ensures JsonSpan("a {b} c") == Some("{b}")
  {
    var s := "a {b} c";
    assert s[2] == '{' && s[4] == '}';
    assert FirstIndex(s, '{') == Some(2) by {
      assert s[0] != '{' && s[1] != '{';
    }
    assert LastIndex(s, '}') == Some(4) by {
      assert s[5] != '}' && s[6] != '}';
    }
    assert s[2..5] == "{b}";
  }

  // ---------------------------------------------------------------------------
  // Prompt and handler
  // ---------------------------------------------------------------------------

  const CurriculumInstruction := "\n\nYou are creating a curriculum. Respond ONLY with valid JSON, no other text."

  /** The format the reply is asked to follow, after the number of weeks. */
  const CurriculumFormat :=
    "-week college-level curriculum for your subject area. \n\n"
    + "Structure your response as a JSON object with this format:\n{\n  \"title\": \"Course Title\",\n"
    + "  \"description\": \"Brief course description\",\n  \"weeks\": [\n    {\n      \"week\": 1,\n"
    + "      \"topic\": \"Topic name\",\n      \"description\": \"What will be covered\",\n"
    + "      \"readings\": [\"Reading 1\", \"Reading 2\"],\n"
    + "      \"assignment\": \"Brief description of homework/assignment\"\n    }\n  ]\n}\n\n"
    + "Make it academically rigorous, appropriate for college students, and true to your teaching style and expertise."

  /** The user message asking for a curriculum of `weeks` weeks. */
  function CurriculumPrompt(weeks: int): string
  {
    "Create a comprehensive " + IntToString(weeks) + CurriculumFormat
  }

  /** The preview field: the first three weeks, and a closing line when the
   *  curriculum has more. */
  function Preview(weeks: seq<Week>): string
  {
    WeekLines(Take(weeks, 3)) + (if |weeks| > 3 then MoreMarker else "")
  }

  /** The closing line of a preview that leaves weeks out. */
  const MoreMarker := "\n*...and more*"

  /** How far the handler gets before storing: an answer, or the curriculum
   *  to store with the requested length and the professor's display. */
  datatype Step = Stop(outcome: Outcome) | Store(professorId: string, weeks: int, curriculum: Curriculum, display: DisplayConfig)

  /** Everything before `saveCurriculum`. `parse` stands for `JSON.parse` of
   *  an object with a curriculum's fields; it gives nothing on a syntax
   *  error. */
  function Prepare(guildId: string, inv: Invocation, cards: CharacterCardManager, openaiConfigured: bool,
                   chat: Request -> Result<string, string>, parse: string -> Option<Curriculum>): (step: Step)
    reads cards
    ensures step == Stop(NotInGuild) <==> guildId == ""
    ensures step == Stop(Usage) <==> guildId != "" && ProfessorOf(inv, CourseProfessors).None?
    ensures step.Store? ==> step.curriculum.weeks.Some? && step.weeks == WeekCount(inv)
    ensures step.Store? ==> ProfessorOf(inv, CourseProfessors) == Some(step.professorId)
    ensures step.Store? ==>
              step.professorId in cards.characters
              && var reply := chat(CurriculumRequest(SystemPrompt(cards.characters[step.professorId]), step.weeks));
                 reply.Success? && JsonSpan(reply.value).Some? && parse(JsonSpan(reply.value).value).Some?
                 && step.curriculum == parse(JsonSpan(reply.value).value).value
    ensures step.Store? ==> step.professorId in cards.characters && step.display == DisplayConfigOf(cards.characters[step.professorId])
    ensures step.Store? && inv.Prefix? ==> MinWeeks <= step.weeks <= MaxWeeks
  {
    if guildId == "" then Stop(NotInGuild)
    else
      var weeks := WeekCount(inv);
      var professor := ProfessorOf(inv, CourseProfessors);
      if professor.None? then Stop(Usage)
      else if inv.Prefix? && (weeks < MinWeeks || weeks > MaxWeeks) then Stop(WeeksOutOfRange)
      else if !openaiConfigured then Stop(NotConfigured)
      else
        var p := professor.value;
        if cards.GetCharacter(p).None? then Stop(UnknownProfessor(p))
        else
          var display := cards.GetDisplayConfig(p).value;
          var request := CurriculumRequest(cards.BuildSystemPrompt(p).value, weeks);
          match chat(request)
          case Failure(message) => Stop(Failed(ChatFailed(message)))
          case Success(content) => Interpret(content, parse, p, weeks, display)
  }

  /** The request for a curriculum of `weeks` weeks in the professor's voice. */
  function CurriculumRequest(systemPrompt: string, weeks: int): Request
  {
    Request(Some(systemPrompt + CurriculumInstruction), CurriculumPrompt(weeks), 2000)
  }

  /** What the handler makes of the service's reply. */
  function Interpret(content: string, parse: string -> Option<Curriculum>, p: string, weeks: int, display: DisplayConfig): (step: Step)
    ensures step.Store? ==> step == Store(p, weeks, step.curriculum, display) && step.curriculum.weeks.Some?
    ensures step.Store? ==> JsonSpan(content).Some? && parse(JsonSpan(content).value).Some?
                            && step.curriculum == parse(JsonSpan(content).value).value
    ensures step.Stop? ==> step.outcome.Failed? && step.outcome.failure != SaveFailed && !step.outcome.failure.ChatFailed?
    ensures step.Store? <==> JsonSpan(content).Some? && parse(JsonSpan(content).value).Some?
                             && parse(JsonSpan(content).value).value.weeks.Some?
  {
    match JsonSpan(content)
    case None => Stop(Failed(Unparsable))
    case Some(span) =>
      match parse(span)
      case None => Stop(Failed(Unparsable))
      case Some(c) =>
        if c.weeks.None? then Stop(Failed(InvalidFormat)) else Store(p, weeks, c, display)
  }

  /** The confirmation for a stored curriculum. */
  function CreatedView(weeks: int, c: Curriculum, d: DisplayConfig): Created
    requires c.weeks.Some?
  {
    Created(d.color, d.icon,
            if c.title != "" then c.title else "Course Curriculum",
            if c.description != "" then c.description else "A comprehensive college-level course",
            weeks, 1, d.name, Preview(c.weeks.value))
  }

  /** The handler: prepares, then stores the curriculum. The progress write
   *  that `saveCurriculum` makes may fail without changing the answer. */
  method CreateCurriculum(guildId: string, inv: Invocation, store: CurriculumManager, cards: CharacterCardManager,
                          openaiConfigured: bool, chat: Request -> Result<string, string>,
                          parse: string -> Option<Curriculum>, now: string,
                          curriculumWriteOk: bool, progressWriteOk: bool)
    returns (o: Outcome)
    modifies store
    ensures var step := Prepare(guildId, inv, cards, openaiConfigured, chat, parse);
            && (step.Stop? ==> o == step.outcome && store.curricula == old(store.curricula) && store.progress == old(store.progress))
            && (step.Store? && !curriculumWriteOk ==>
                  o == Failed(SaveFailed) && store.curricula == old(store.curricula) && store.progress == old(store.progress))
            && (step.Store? && curriculumWriteOk ==>
                  && o == Shown(CreatedView(step.weeks, step.curriculum, step.display))
                  && store.curricula == old(store.curricula)[Key(guildId, step.professorId) :=
                       Parsed(CurriculumRecord(guildId, step.professorId, now, step.curriculum))]
                  && store.progress == (if progressWriteOk
                                        then old(store.progress)[Key(guildId, step.professorId) :=
                                               Parsed(ProgressRecord(guildId, step.professorId, 1, now))]
                                        else old(store.progress))
                  && store.GetCurriculum(guildId, step.professorId)
                     == Some(CurriculumRecord(guildId, step.professorId, now, step.curriculum))
                  && (progressWriteOk ==> store.GetProgress(guildId, step.professorId) == 1))
  {
    var step := Prepare(guildId, inv, cards, openaiConfigured, chat, parse);
    if step.Stop? {
      return step.outcome;
    }
    var saved := store.SaveCurriculum(guildId, step.professorId, step.curriculum, now, curriculumWriteOk, progressWriteOk);
    if !saved {
      return Failed(SaveFailed);
    }
    o := Shown(CreatedView(step.weeks, step.curriculum, step.display));
  }

  // ---------------------------------------------------------------------------
  // Properties of the handler
  // ---------------------------------------------------------------------------

  /** Only a prefix command's count is range-checked: a slash option the
   *  platform did not restrict passes through. */
  lemma SlashCountUnchecked(guildId: string, p: string, cards: CharacterCardManager,
                            chat: Request -> Result<string, string>, parse: string -> Option<Curriculum>)
    requires guildId != ""
    ensures Prepare(guildId, Slash(p, Some(30)), cards, true, chat, parse) != Stop(WeeksOutOfRange)
    ensures Prepare(guildId, Prefix([p, "30"]), cards, true, chat, parse) == Stop(Usage)
            || Prepare(guildId, Prefix([p, "30"]), cards, true, chat, parse) == Stop(WeeksOutOfRange)
  {
    IntToStringRoundTrip(30);
    assert IntToString(30) == "30" by {
      assert Digits(30, Decimal) == Digits(3, Decimal) + [DigitChar(0)];
    }
  }

  /** An empty `weeks` list is accepted, since an empty array is truthy;
   *  the preview is then empty. */
  lemma EmptyWeeksAccepted(guildId: string, p: string, cards: CharacterCardManager,
                           chat: Request -> Result<string, string>, parse: string -> Option<Curriculum>, c: Curriculum)
    requires guildId != "" && p in cards.characters
    requires forall r :: chat(r) == Success("{}")
    requires parse("{}") == Some(c) && c.weeks == Some([])
    ensures Prepare(guildId, Slash(p, None), cards, true, chat, parse)
            == Store(p, DefaultWeeks, c, DisplayConfigOf(cards.characters[p]))
    ensures Preview(c.weeks.value) == ""
  {
    assert JsonSpan("{}") == Some("{}") by {
      assert "{}"[1..] == "}";
      assert "{}"[..1] == "{";
      assert "{}"[0..2] == "{}";
    }
    WeekLinesEmpty([]);
  }

  /** The duration shown is the number of weeks asked for, whatever the
   *  number of weeks the reply contains; the current week shown is always 1;
   *  the title and description fall back to fixed texts. */
  lemma DurationIsRequested(requested: int, c: Curriculum, d: DisplayConfig)
    requires c.weeks.Some?
    ensures var v := CreatedView(requested, c, d);
            && v.duration == requested
            && v.currentWeek == 1
            && v.title == (if c.title != "" then c.title else "Course Curriculum")
            && v.description == (if c.description != "" then c.description else "A comprehensive college-level course")
            && v.professor == d.name
            && v.preview == Preview(c.weeks.value)
  {
  }

  /** Up to three weeks, the preview lists every week and adds nothing; with
   *  more, it lists the first three and ends in the closing line. */
  lemma PreviewShowsThree(weeks: seq<Week>)
    ensures |weeks| <= 3 ==> Preview(weeks) == WeekLines(weeks)
    ensures |weeks| > 3 ==> Preview(weeks) == WeekLines(weeks[..3]) + MoreMarker
    ensures |weeks| > 3 ==> EndsWith(Preview(weeks), MoreMarker)
  {
    if |weeks| <= 3 {
      assert Take(weeks, 3) == weeks;
      assert WeekLines(weeks) + "" == WeekLines(weeks);
    } else {
      var lines := WeekLines(weeks[..3]);
      assert Take(weeks, 3) == weeks[..3];
      assert Preview(weeks) == lines + MoreMarker;
      assert (lines + MoreMarker)[|lines|..] == MoreMarker;
    }
  }

  /** The preview is empty exactly when the curriculum has no weeks. */
  lemma PreviewEmpty(weeks: seq<Week>)
    ensures Preview(weeks) == "" <==> weeks == []
  {
    WeekLinesEmpty(Take(weeks, 3));
  }
}
