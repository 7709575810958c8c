/**
 * The `reset-curriculum` command: for an administrator in a server, sets the
 * progress of an existing curriculum back to week 1.
 */
module ResetCurriculumCommand {
  import opened Wrappers
  import opened JsText
  import opened Curricula
  import opened HandlerCommon

  /** The professors a prefix command may name; the two software courses are
   *  not among them. */
  const ResetProfessors: seq<string> := ["philosophy", "latin", "librarian"]

  datatype Outcome = NotAdmin | NotInGuild | Usage | NoCurriculum(professorId: string) | ProgressReset(professorId: string) | ResetFailed

  /** The checks before the reset: refused with an answer, or cleared for
   *  the professor named. */
  datatype Check = Refuse(outcome: Outcome) | Proceed(professorId: string)

  /** The permission check comes first, then the server, then the
   *  professor, then the stored curriculum. */
  function CheckReset(isAdmin: bool, guildId: string, inv: Invocation, store: CurriculumManager): (c: Check)
    reads store
    ensures c == Refuse(NotAdmin) <==> !isAdmin
    ensures c == Refuse(NotInGuild) <==> isAdmin && guildId == ""
    ensures c == Refuse(Usage) <==> isAdmin && guildId != "" && ProfessorOf(inv, ResetProfessors).None?
    ensures c.Proceed? <==> isAdmin && guildId != "" && ProfessorOf(inv, ResetProfessors).Some?
                            && store.GetCurriculum(guildId, ProfessorOf(inv, ResetProfessors).value).Some?
    ensures c.Proceed? ==> c.professorId == ProfessorOf(inv, ResetProfessors).value
  {
    if !isAdmin then Refuse(NotAdmin)
    else if guildId == "" then Refuse(NotInGuild)
    else
      var professor := ProfessorOf(inv, ResetProfessors);
      if professor.None? then Refuse(Usage)
      else if store.GetCurriculum(guildId, professor.value).None? then Refuse(NoCurriculum(professor.value))
      else Proceed(professor.value)
  }

  /** The handler: after the checks, stores week 1 as the progress and
   *  reports whether the write succeeded. */
  method ResetCurriculum(isAdmin: bool, guildId: string, inv: Invocation, store: CurriculumManager, now: string, writeOk: bool)
    returns (o: Outcome)
    modifies store
    ensures old(CheckReset(isAdmin, guildId, inv, store)).Refuse? ==>
              o == old(CheckReset(isAdmin, guildId, inv, store)).outcome
              && store.curricula == old(store.curricula) && store.progress == old(store.progress)
    ensures old(CheckReset(isAdmin, guildId, inv, store)).Proceed? ==>
              var p := old(CheckReset(isAdmin, guildId, inv, store)).professorId;
              && o == (if writeOk then ProgressReset(p) else ResetFailed)
              && store.curricula == old(store.curricula)
              && store.progress == (if writeOk then old(store.progress)[Key(guildId, p) := Parsed(ProgressRecord(guildId, p, 1, now))]
                                    else old(store.progress))
              && (writeOk ==> store.GetProgress(guildId, p) == 1 && store.GetCurriculum(guildId, p).Some?)
  {
    var check := CheckReset(isAdmin, guildId, inv, store);
    if check.Refuse? {
      return check.outcome;
    }
    var p := check.professorId;
    var success := store.ResetProgress(guildId, p, now, writeOk);
    o := if success then ProgressReset(p) else ResetFailed;
  }

  /** A prefix command cannot reset the software courses, which the slash
   *  command's choices leave out as well; a slash command naming one anyway
   *  is not refused. */
  lemma PrefixRefusesSoftwareCourses(guildId: string, store: CurriculumManager)
    requires guildId != "" && store.GetCurriculum(guildId, "cs101").Some?
    ensures CheckReset(true, guildId, Prefix(["cs101"]), store) == Refuse(Usage)
    ensures CheckReset(true, guildId, Slash("cs101", None), store) == Proceed("cs101")
  {
    assert ToLowerCase("cs101") == "cs101" by {
      ToLowerCaseOfLower("cs101");
    }
  }

  /** Without the permission nothing else is looked at. */
  lemma PermissionFirst(guildId: string, inv: Invocation, store: CurriculumManager, other: CurriculumManager)
    ensures CheckReset(false, guildId, inv, store) == CheckReset(false, "", Prefix([]), other) == Refuse(NotAdmin)
  {
  }
}
