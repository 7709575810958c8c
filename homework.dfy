/**
 * The `homework` command: checks that it runs in a server, reads the
 * professor and an optional week number, looks up the stored curriculum,
 * picks the requested or the current week, checks it against the list of
 * weeks, and asks the chat service for a detailed assignment, which it shows
 * with the week, the professor and up to five readings.
 */
module HomeworkCommand {
  import opened Wrappers
  import opened JsText
  import opened Curricula
  import opened CharacterCards
  import opened HandlerCommon

  /** Why generation failed inside the handler's `try` block: the chat
   *  service threw, or the professor has no display settings. */
  datatype Failure = ChatFailed(message: string) | NoDisplayConfig

  /** The assignment embed. `readings` is the bullet list of at most five
   *  readings, present only when the week lists any. */
  datatype Assignment = Assignment(color: ParsedInt, icon: string, week: int, total: nat, topic: string,
                                   professor: Option<string>, content: string, readings: Option<string>)

  /** How the handler answers. `Crashed` is the error that escapes it when
   *  the stored curriculum has no `weeks` list. */
  datatype Outcome =
    | NotInGuild
    | Usage
    | NoCurriculum(professorId: string)
    | Crashed
    | InvalidWeek(total: nat)
    | WeekNotFound(week: int)
    | NotConfigured
    | Failed(failure: Failure)
    | Shown(assignment: Assignment)

  /** The answers given before the chat service is considered. */
  predicate Early(o: Outcome)
  {
    o.NotInGuild? || o.Usage? || o.NoCurriculum? || o.Crashed? || o.InvalidWeek? || o.WeekNotFound?
  }

  /** The week asked for explicitly, when it is truthy: the slash option, or
   *  `parseInt` of a non-empty second word. A missing option, `NaN` and `0`
   *  all leave the choice to the stored progress. */
  function ExplicitWeek(inv: Invocation): (r: Option<int>)
    ensures r.Some? ==> r.value != 0
    ensures inv.Slash? ==> r == (if inv.number.Some? && inv.number.value != 0 then inv.number else None)
  {
    match inv
    case Slash(_, number) => if number.Some? && number.value != 0 then number else None
    case Prefix(args) =>
      if |args| > 1 && args[1] != "" then
        match ParseInt(args[1], Auto)
        case Int(v) => if v != 0 then Some(v) else None
        case NaN => None
      else None
  }

  /** A written week number is read back as that number. */
  lemma ExplicitWeekReadsNumber(p: string, n: int)
    requires n != 0
    ensures ExplicitWeek(Prefix([p, IntToString(n)])) == Some(n)
  {
    IntToStringRoundTrip(n);
  }

  /** No second word, `0` and a word that is not a number all defer to the
   *  stored progress. */
  lemma ExplicitWeekFallsBack(p: string)
    ensures ExplicitWeek(Prefix([p])) == None
    ensures ExplicitWeek(Prefix([p, "0"])) == None
    ensures ExplicitWeek(Prefix([p, "x"])) == None
  {
    assert TrimStart("0") == "0";
    assert TrimStart("x") == "x";
    assert DigitRun("x", Decimal) == 0;
    assert DigitRun("0", Decimal) == 1;
    assert DigitsValue("0", Decimal) == 0 by {
      DigitsValueSnoc("", '0', Decimal);
      assert "" + ['0'] == "0";
    }
  }

  /** The `Readings:` line of the prompt. Any readings list, even an empty
   *  one, produces it. */
  function ReadingsLine(w: Week): string
  {
    if w.readings.Some? then "Readings: " + Join(w.readings.value, ", ") else ""
  }

  const HomeworkInstructions :=
    "\n\nCreate a comprehensive homework assignment that:\n1. Includes clear instructions\n2. Has specific deliverables\n3. Provides a suggested timeline\n4. Includes any necessary resources or tips\n5. Reflects your teaching style and expertise\n\nKeep it rigorous but achievable for college students. Be specific and practical."

  /** The user message sent to the chat service for week `target`. */
  function HomeworkPrompt(target: int, w: Week): string
  {
    "Based on the curriculum for Week " + IntToString(target) + ", create a detailed homework assignment.\n\nWeek "
      + IntToString(target) + ": " + w.topic + "\nDescription: " + w.description + "\n" + ReadingsLine(w)
      + "\nAssignment Brief: " + w.assignment + HomeworkInstructions
  }

  /** The readings of the embed: at most five, and only when there are any. */
  function ShownReadings(w: Week): (r: Option<string>)
    ensures r.Some? <==> w.readings.Some? && |w.readings.value| > 0
    ensures r.Some? ==> r.value == Bullets(Take(w.readings.value, 5))
  {
    if w.readings.Some? && |w.readings.value| > 0 then Some(Bullets(Take(w.readings.value, 5))) else None
  }

  /** An empty readings list still yields the prompt's `Readings:` line, but
   *  no readings field in the embed. */
  lemma EmptyReadingsOnlyInPrompt(w: Week)
    requires w.readings == Some([])
    ensures ReadingsLine(w) == "Readings: "
    ensures ShownReadings(w).None?
  {
    assert "Readings: " + "" == "Readings: ";
  }

  /** The handler. `openaiConfigured` says whether the chat service has an
   *  API key; `chat` is the service's answer to a request, the reply text or
   *  the message of the error it throws. */
  function Homework(guildId: string, inv: Invocation, store: CurriculumManager, cards: CharacterCardManager,
                    openaiConfigured: bool, chat: Request -> Result<string, string>): (o: Outcome)
    reads store, cards
    ensures o == NotInGuild <==> guildId == ""
    ensures o == Usage <==> guildId != "" && ProfessorOf(inv, CourseProfessors).None?
    ensures o.NoCurriculum? <==> (guildId != "" && ProfessorOf(inv, CourseProfessors).Some? &&
                                  store.GetCurriculum(guildId, ProfessorOf(inv, CourseProfessors).value).None?)
  {
    if guildId == "" then NotInGuild
    else
      var professor := ProfessorOf(inv, CourseProfessors);
      if professor.None? then Usage
      else
        var p := professor.value;
        var record := store.GetCurriculum(guildId, p);
        if record.None? then NoCurriculum(p)
        else
          var target := ExplicitWeek(inv).GetOr(store.GetProgress(guildId, p));
          var weeksField := record.value.curriculum.weeks;
          if weeksField.None? then Crashed
          else
            var weeks := weeksField.value;
            if target < 1 || target > |weeks| then InvalidWeek(|weeks|)
            else
              match FindWeek(weeks, target)
              case None => WeekNotFound(target)
              case Some(w) =>
                if !openaiConfigured then NotConfigured
                else
                  var display := cards.GetDisplayConfig(p);
                  match chat(Request(cards.BuildSystemPrompt(p), HomeworkPrompt(target, w), 1000))
                  case Failure(message) => Failed(ChatFailed(message))
                  case Success(content) =>
                    if display.None? then Failed(NoDisplayConfig)
                    else
                      var d := display.value;
                      Shown(Assignment(d.color, d.icon, target, |weeks|, w.topic, d.name, content, ShownReadings(w)))
  }

  // ---------------------------------------------------------------------------
  // Properties of the handler
  // ---------------------------------------------------------------------------

  /** The week is validated before the chat service is checked or called:
   *  an early answer is the same whatever the service does. */
  lemma ValidationBeforeService(guildId: string, inv: Invocation, store: CurriculumManager, cards: CharacterCardManager,
                                ok1: bool, chat1: Request -> Result<string, string>,
                                ok2: bool, chat2: Request -> Result<string, string>)
    requires Early(Homework(guildId, inv, store, cards, ok1, chat1))
    ensures Homework(guildId, inv, store, cards, ok2, chat2) == Homework(guildId, inv, store, cards, ok1, chat1)
  {
  }

  /** A shown assignment is for a week within the course, numbered as asked
   *  (or as the stored progress says), found by that number, with the
   *  service's reply and at most five readings. */
  lemma ShownAssignment(guildId: string, inv: Invocation, store: CurriculumManager, cards: CharacterCardManager,
                        openaiConfigured: bool, chat: Request -> Result<string, string>)
    requires Homework(guildId, inv, store, cards, openaiConfigured, chat).Shown?
    ensures var a := Homework(guildId, inv, store, cards, openaiConfigured, chat).assignment;
            var p := ProfessorOf(inv, CourseProfessors).value;
            var weeks := store.GetCurriculum(guildId, p).value.curriculum.weeks.value;
            && openaiConfigured
            && a.week == ExplicitWeek(inv).GetOr(store.GetProgress(guildId, p))
            && 1 <= a.week <= a.total == |weeks|
            && FindWeek(weeks, a.week).Some?
            && a.topic == FindWeek(weeks, a.week).value.topic
            && a.readings == ShownReadings(FindWeek(weeks, a.week).value)
            && p in cards.characters
            && chat(Request(Some(SystemPrompt(cards.characters[p])), HomeworkPrompt(a.week, FindWeek(weeks, a.week).value), 1000))
               == Success(a.content)
  {
  }

  /** A curriculum stored without a `weeks` list makes the handler throw
   *  once a curriculum is found, whatever week was asked for. */
  lemma MissingWeeksCrash(guildId: string, inv: Invocation, store: CurriculumManager, cards: CharacterCardManager,
                          openaiConfigured: bool, chat: Request -> Result<string, string>)
    requires guildId != "" && ProfessorOf(inv, CourseProfessors).Some?
    requires store.GetCurriculum(guildId, ProfessorOf(inv, CourseProfessors).value).Some?
    requires store.GetCurriculum(guildId, ProfessorOf(inv, CourseProfessors).value).value.curriculum.weeks.None?
    ensures Homework(guildId, inv, store, cards, openaiConfigured, chat) == Crashed
  {
  }

  /** The target week, explicit or the stored progress, is refused with the
   *  number of weeks exactly when it lies outside `1..n`; this holds for a
   *  slash option, a prefix word and a stored week beyond a shorter
   *  curriculum alike. */
  lemma WeekOutOfRange(guildId: string, inv: Invocation, store: CurriculumManager, cards: CharacterCardManager,
                       openaiConfigured: bool, chat: Request -> Result<string, string>)
    requires guildId != "" && ProfessorOf(inv, CourseProfessors).Some?
    requires store.GetCurriculum(guildId, ProfessorOf(inv, CourseProfessors).value).Some?
    requires store.GetCurriculum(guildId, ProfessorOf(inv, CourseProfessors).value).value.curriculum.weeks.Some?
    ensures var p := ProfessorOf(inv, CourseProfessors).value;
            var n := |store.GetCurriculum(guildId, p).value.curriculum.weeks.value|;
            var target := ExplicitWeek(inv).GetOr(store.GetProgress(guildId, p));
            Homework(guildId, inv, store, cards, openaiConfigured, chat) == InvalidWeek(n) <==> target < 1 || target > n
  {
  }

  /** A slash command without a week option works on the stored current
   *  week, and without stored progress on week 1. */
  lemma DefaultsToProgress(guildId: string, p: string, store: CurriculumManager, cards: CharacterCardManager,
                           openaiConfigured: bool, chat: Request -> Result<string, string>)
    requires Homework(guildId, Slash(p, None), store, cards, openaiConfigured, chat).Shown?
    ensures Homework(guildId, Slash(p, None), store, cards, openaiConfigured, chat).assignment.week
            == store.GetProgress(guildId, p)
    ensures Key(guildId, p) !in store.progress ==>
              Homework(guildId, Slash(p, None), store, cards, openaiConfigured, chat).assignment.week == 1
  {
  }

  /** A number within `1..n` that no entry carries is reported as not found. */
  lemma NumberWithoutEntry(guildId: string, p: string, n: int, store: CurriculumManager, cards: CharacterCardManager,
                           openaiConfigured: bool, chat: Request -> Result<string, string>)
    requires guildId != ""
    requires store.GetCurriculum(guildId, p).Some? && store.GetCurriculum(guildId, p).value.curriculum.weeks.Some?
    requires 1 <= n <= |store.GetCurriculum(guildId, p).value.curriculum.weeks.value|
    requires forall w :: w in store.GetCurriculum(guildId, p).value.curriculum.weeks.value ==> w.week != n
    ensures Homework(guildId, Slash(p, Some(n)), store, cards, openaiConfigured, chat) == WeekNotFound(n)
  {
  }
}
