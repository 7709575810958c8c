/**
 * The `view-curriculum` command: shows a stored curriculum's title,
 * description, length and current week, the current week's entry with up to
 * three readings, and the entries of the next two weeks.
 */
module ViewCurriculumCommand {
  import opened Wrappers
  import opened JsText
  import opened Curricula
  import opened CharacterCards
  import opened HandlerCommon

  /** The field for the current week: its entry, the description shown
   *  (a placeholder when empty) and up to three readings when it lists any. */
  datatype CurrentWeek = CurrentWeek(entry: Week, description: string, readings: Option<string>)

  /** The overview embed. `upcoming` is the `Coming Up` field, present only
   *  when some week follows within two weeks. */
  datatype Overview = Overview(color: ParsedInt, icon: string, title: string, description: string, totalWeeks: nat,
                               currentWeek: int, professor: Option<string>, current: Option<CurrentWeek>,
                               upcoming: Option<string>)

  /** How the handler answers. `Crashed` is the error that escapes it when the
   *  professor has no display settings or the curriculum no `weeks` list. */
  datatype Outcome = NotInGuild | Usage | NoCurriculum(professorId: string) | Crashed | Shown(overview: Overview)

  /** The weeks numbered after `current` and at most two past it, in order. */
  function Upcoming(weeks: seq<Week>, current: int): (r: seq<Week>)
    ensures |r| <= |weeks|
    decreases |weeks|
  {
    if weeks == [] then []
    else
      var rest := Upcoming(weeks[..|weeks| - 1], current);
      var w := weeks[|weeks| - 1];
      if current < w.week <= current + 2 then rest + [w] else rest
  }

  /** A week is upcoming exactly when it is listed and numbered within the
   *  next two weeks. */
  lemma {:induction false} UpcomingMembers(weeks: seq<Week>, current: int)
    ensures forall w :: w in Upcoming(weeks, current) <==> w in weeks && current < w.week <= current + 2
    decreases |weeks|
  {
    if weeks != [] {
      var init := weeks[..|weeks| - 1];
      UpcomingMembers(init, current);
      assert weeks == init + [weeks[|weeks| - 1]];
    }
  }

  /** Selecting upcoming weeks distributes over concatenation, so they keep
   *  the list's order. */
  lemma {:induction false} UpcomingAppend(a: seq<Week>, b: seq<Week>, current: int)
    ensures Upcoming(a + b, current) == Upcoming(a, current) + Upcoming(b, current)
    decreases |b|
  {
    if b == [] {
      assert a + b == a;
    } else {
      var init := b[..|b| - 1];
      UpcomingAppend(a, init, current);
      assert (a + b)[..|a + b| - 1] == a + init;
      assert (a + b)[|a + b| - 1] == b[|b| - 1];
    }
  }

  /** The `Coming Up` text, or nothing when it would be empty. */
  function UpcomingField(weeks: seq<Week>, current: int): (r: Option<string>)
    ensures r.Some? <==> exists w :: w in weeks && current < w.week <= current + 2
    ensures r.Some? ==> r.value == WeekLines(Upcoming(weeks, current))
  {
    var text := WeekLines(Upcoming(weeks, current));
    WeekLinesEmpty(Upcoming(weeks, current));
    UpcomingMembers(weeks, current);
    if text != "" then
      assert Upcoming(weeks, current)[0] in Upcoming(weeks, current);
      Some(text)
    else None
  }

  /** The current-week field for the entry found, if any. */
  function CurrentField(entry: Option<Week>): (r: Option<CurrentWeek>)
    ensures r.Some? <==> entry.Some?
    ensures r.Some? ==> r.value.entry == entry.value
    ensures r.Some? ==> (r.value.description == if entry.value.description != "" then entry.value.description else "No description")
    ensures r.Some? ==> (r.value.readings.Some? <==> entry.value.readings.Some? && |entry.value.readings.value| > 0)
    ensures r.Some? && r.value.readings.Some? ==> r.value.readings.value == Bullets(Take(entry.value.readings.value, 3))
  {
    match entry
    case None => None
    case Some(w) =>
      var readings := if w.readings.Some? && |w.readings.value| > 0 then Some(Bullets(Take(w.readings.value, 3))) else None;
      Some(CurrentWeek(w, if w.description != "" then w.description else "No description", readings))
  }

  /** The handler. */
  function ViewCurriculum(guildId: string, inv: Invocation, store: CurriculumManager, cards: CharacterCardManager): (o: Outcome)
    reads store, cards
    ensures o == NotInGuild <==> guildId == ""
    ensures o == Usage <==> guildId != "" && ProfessorOf(inv, CourseProfessors).None?
  {
    if guildId == "" then NotInGuild
    else
      var professor := ProfessorOf(inv, CourseProfessors);
      if professor.None? then Usage
      else
        var p := professor.value;
        var record := store.GetCurriculum(guildId, p);
        if record.None? then NoCurriculum(p)
        else
          var c := record.value.curriculum;
          var current := store.GetProgress(guildId, p);
          var display := cards.GetDisplayConfig(p);
          if display.None? || c.weeks.None? then Crashed
          else
            var d := display.value;
            var weeks := c.weeks.value;
            Shown(Overview(d.color, d.icon,
                           if c.title != "" then c.title else "Course Curriculum",
                           if c.description != "" then c.description else "College-level curriculum",
                           |weeks|, current, d.name,
                           CurrentField(FindWeek(weeks, current)),
                           UpcomingField(weeks, current)))
  }

  /** The overview reports the stored curriculum and progress: its length,
   *  the current week and its entry (found by number), and the weeks that
   *  follow within two weeks. */
  lemma OverviewOfStore(guildId: string, inv: Invocation, store: CurriculumManager, cards: CharacterCardManager)
    requires ViewCurriculum(guildId, inv, store, cards).Shown?
    ensures var v := ViewCurriculum(guildId, inv, store, cards).overview;
            var p := ProfessorOf(inv, CourseProfessors).value;
            var c := store.GetCurriculum(guildId, p).value.curriculum;
            && c.weeks.Some?
            && p in cards.characters
            && v.totalWeeks == |c.weeks.value|
            && v.currentWeek == store.GetProgress(guildId, p)
            && (v.current.Some? <==> exists w :: w in c.weeks.value && w.week == v.currentWeek)
            && (v.current.Some? ==> v.current.value.entry.week == v.currentWeek)
            && (v.upcoming.Some? <==> exists w :: w in c.weeks.value && v.currentWeek < w.week <= v.currentWeek + 2)
  {
  }

  /** Without a stored curriculum the handler answers the same whatever the
   *  progress and cards hold. */
  lemma NoCurriculumFirst(guildId: string, inv: Invocation, store: CurriculumManager, cards: CharacterCardManager)
    requires guildId != "" && ProfessorOf(inv, CourseProfessors).Some?
    requires store.GetCurriculum(guildId, ProfessorOf(inv, CourseProfessors).value).None?
    ensures ViewCurriculum(guildId, inv, store, cards) == NoCurriculum(ProfessorOf(inv, CourseProfessors).value)
  {
  }

  /** A professor without a character card cannot be shown, even with a
   *  stored curriculum. */
  lemma UnknownProfessorCrashes(guildId: string, p: string, store: CurriculumManager, cards: CharacterCardManager)
    requires guildId != "" && store.GetCurriculum(guildId, p).Some? && p !in cards.characters
    ensures ViewCurriculum(guildId, Slash(p, None), store, cards) == Crashed
  {
  }
}
