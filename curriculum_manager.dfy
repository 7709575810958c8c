/**
 * The curriculum and progress store. Each guild/professor pair has at most
 * one curriculum record and one progress record, both filed under the key
 * `guildId + "_" + professorId`. The two directories of JSON files are the
 * two maps of a `CurriculumManager`; a file that cannot be read or parsed is
 * `Unreadable`. Whether a write or an unlink succeeds is not something the
 * store decides, so each mutating method takes it as a parameter, and the
 * clock reading stored with a record is passed in as `now`.
 */
module Curricula {
  import opened Wrappers

  /** One entry of a curriculum's `weeks` list. An empty string stands for a
   *  missing or empty text field; `readings` may be missing altogether. */
  datatype Week = Week(week: int, topic: string, description: string, readings: Option<seq<string>>, assignment: string)

  /** The curriculum object generated for a course; `weeks` is missing when
   *  the stored object has no `weeks` array. */
  datatype Curriculum = Curriculum(title: string, description: string, weeks: Option<seq<Week>>)

  /** The contents of a curriculum file. */
  datatype CurriculumRecord = CurriculumRecord(guildId: string, professorId: string, createdAt: string, curriculum: Curriculum)

  /** The contents of a progress file. */
  datatype ProgressRecord = ProgressRecord(guildId: string, professorId: string, currentWeek: int, lastUpdated: string)

  /** A stored file: parsed, or present but unreadable. */
  datatype Stored<T> = Parsed(value: T) | Unreadable

  /** The file name shared by both records of a guild/professor pair. */
  function Key(guildId: string, professorId: string): (k: string)
    ensures |k| == |guildId| + 1 + |professorId|
    ensures k[..|guildId|] == guildId && k[|guildId|] == '_' && k[|guildId| + 1..] == professorId
  {
    guildId + "_" + professorId
  }

  /** Two different pairs can share a key, and with it both records. */
  lemma KeyCollision()
    ensures ("1_2", "3") != ("1", "2_3") && Key("1_2", "3") == Key("1", "2_3")
  {
  }

  /** Keys identify their pair when guild ids contain no underscore, as the
   *  numeric ids the platform hands out do not. */
  lemma KeyInjective(g1: string, p1: string, g2: string, p2: string)
    requires '_' !in g1 && '_' !in g2
    ensures Key(g1, p1) == Key(g2, p2) <==> g1 == g2 && p1 == p2
  {
  }

  const DefaultTotalWeeks := 15

  /** The number of weeks `advanceWeek` counts: the length of `weeks`, or 15
   *  when the list is missing or empty. */
  function TotalWeeks(c: Curriculum): (n: nat)
    ensures n >= 1
    ensures c.weeks.Some? && |c.weeks.value| > 0 ==> n == |c.weeks.value|
    ensures c.weeks.None? || |c.weeks.value| == 0 ==> n == DefaultTotalWeeks
  {
    if c.weeks.Some? && |c.weeks.value| > 0 then |c.weeks.value| else DefaultTotalWeeks
  }

  /** The week `advanceWeek` stores: one more than the current week, capped
   *  at the total. */
  function NextWeek(current: int, total: nat): (next: int)
    ensures next <= total && next <= current + 1
    ensures next == current + 1 || next == total
  {
    if current + 1 <= total then current + 1 else total
  }

  /** The week reached after advancing `k` times from `start`. */
  function Advanced(start: int, total: nat, k: nat): int
  {
    if k == 0 then start else NextWeek(Advanced(start, total, k - 1), total)
  }

  /** Advancing `k` times from a week within the course moves `k` weeks
   *  forward and then stays on the last week. */
  lemma {:induction false} AdvancedClamps(start: int, total: nat, k: nat)
    requires start <= total
    ensures Advanced(start, total, k) == if start + k <= total then start + k else total
  {
    if k > 0 {
      AdvancedClamps(start, total, k - 1);
    }
  }

  /** Once on the last week, advancing changes nothing. */
  lemma NextWeekFixedPoint(total: nat)
    ensures NextWeek(total, total) == total
    ensures forall current :: current >= total ==> NextWeek(current, total) == total
  {
  }

  class CurriculumManager {
    /** The curricula directory: key to curriculum file. */
    var curricula: map<string, Stored<CurriculumRecord>>
    /** The progress directory: key to progress file. */
    var progress: map<string, Stored<ProgressRecord>>

    /** A manager over the files already on disk. */
    constructor(curricula: map<string, Stored<CurriculumRecord>>, progress: map<string, Stored<ProgressRecord>>)
      ensures this.curricula == curricula && this.progress == progress
    {
      this.curricula := curricula;
      this.progress := progress;
    }

    /** `getCurriculum`: the stored record, or nothing when the file is
     *  missing or unreadable. */
    function GetCurriculum(guildId: string, professorId: string): (r: Option<CurriculumRecord>)
      reads this
      ensures r.Some? <==> Key(guildId, professorId) in curricula && curricula[Key(guildId, professorId)].Parsed?
      ensures r.Some? ==> curricula[Key(guildId, professorId)] == Parsed(r.value)
    {
      var k := Key(guildId, professorId);
      if k in curricula && curricula[k].Parsed? then Some(curricula[k].value) else None
    }

    /** `getProgress(...).currentWeek`: the stored week, or 1 when the file is
     *  missing or unreadable. Reading writes nothing. */
    function GetProgress(guildId: string, professorId: string): (week: int)
      reads this
      ensures Key(guildId, professorId) !in progress || progress[Key(guildId, professorId)].Unreadable? ==> week == 1
      ensures Key(guildId, professorId) in progress && progress[Key(guildId, professorId)].Parsed? ==>
                week == progress[Key(guildId, professorId)].value.currentWeek
    {
      var k := Key(guildId, professorId);
      if k in progress && progress[k].Parsed? then progress[k].value.currentWeek else 1
    }

    /** `saveProgress`: overwrites the progress record of the key when the
     *  write succeeds; reports whether it did. */
    method SaveProgress(guildId: string, professorId: string, currentWeek: int, now: string, writeOk: bool)
      returns (ok: bool)
      modifies this
      ensures ok == writeOk
      ensures curricula == old(curricula)
      ensures progress == if writeOk
                          then old(progress)[Key(guildId, professorId) := Parsed(ProgressRecord(guildId, professorId, currentWeek, now))]
                          else old(progress)
      ensures ok ==> GetProgress(guildId, professorId) == currentWeek
    {
      if writeOk {
        progress := progress[Key(guildId, professorId) := Parsed(ProgressRecord(guildId, professorId, currentWeek, now))];
      }
      ok := writeOk;
    }

    /** `saveCurriculum`: overwrites the curriculum record and then sets the
     *  progress to week 1. The result reports the curriculum write only: a
     *  failed progress write still returns true. */
    method SaveCurriculum(guildId: string, professorId: string, curriculum: Curriculum, now: string,
                          curriculumWriteOk: bool, progressWriteOk: bool)
      returns (ok: bool)
      modifies this
      ensures ok == curriculumWriteOk
      ensures curricula == if ok
                           then old(curricula)[Key(guildId, professorId) := Parsed(CurriculumRecord(guildId, professorId, now, curriculum))]
                           else old(curricula)
      ensures progress == if ok && progressWriteOk
                          then old(progress)[Key(guildId, professorId) := Parsed(ProgressRecord(guildId, professorId, 1, now))]
                          else old(progress)
      ensures ok ==> GetCurriculum(guildId, professorId) == Some(CurriculumRecord(guildId, professorId, now, curriculum))
      ensures ok && progressWriteOk ==> GetProgress(guildId, professorId) == 1
    {
      if !curriculumWriteOk {
        return false;
      }
      curricula := curricula[Key(guildId, professorId) := Parsed(CurriculumRecord(guildId, professorId, now, curriculum))];
      var _ := SaveProgress(guildId, professorId, 1, now, progressWriteOk);
      ok := true;
    }

    /** `deleteCurriculum`: unlinks the curriculum file and then the progress
     *  file, each only if present. A failed unlink stops there and reports
     *  false; a missing file is not a failure. Other keys are untouched. */
    method DeleteCurriculum(guildId: string, professorId: string, curriculumUnlinkOk: bool, progressUnlinkOk: bool)
      returns (ok: bool)
      modifies this
      ensures var k := Key(guildId, professorId);
              var curriculumGone := k !in old(curricula) || curriculumUnlinkOk;
              var progressGone := curriculumGone && (k !in old(progress) || progressUnlinkOk);
              && ok == progressGone
              && curricula == (if curriculumGone then old(curricula) - {k} else old(curricula))
              && progress == (if progressGone then old(progress) - {k} else old(progress))
      ensures ok ==> GetCurriculum(guildId, professorId).None? && GetProgress(guildId, professorId) == 1
    {
      var k := Key(guildId, professorId);
      if k in curricula {
        if !curriculumUnlinkOk {
          return false;
        }
        curricula := curricula - {k};
      }
      if k in progress {
        if !progressUnlinkOk {
          return false;
        }
        progress := progress - {k};
      }
      ok := true;
    }

    /** `advanceWeek`: with no readable curriculum, fails and changes nothing;
     *  otherwise stores the next week, capped at the curriculum's total. */
    method AdvanceWeek(guildId: string, professorId: string, now: string, writeOk: bool) returns (ok: bool)
      modifies this
      ensures curricula == old(curricula)
      ensures old(GetCurriculum(guildId, professorId)).None? ==> !ok && progress == old(progress)
      ensures old(GetCurriculum(guildId, professorId)).Some? ==>
                var total := TotalWeeks(old(GetCurriculum(guildId, professorId)).value.curriculum);
                var next := NextWeek(old(GetProgress(guildId, professorId)), total);
                && ok == writeOk
                && progress == (if writeOk
                                then old(progress)[Key(guildId, professorId) := Parsed(ProgressRecord(guildId, professorId, next, now))]
                                else old(progress))
      ensures ok ==> GetProgress(guildId, professorId) <= TotalWeeks(GetCurriculum(guildId, professorId).value.curriculum)
    {
      var current := GetProgress(guildId, professorId);
      var record := GetCurriculum(guildId, professorId);
      if record.None? {
        return false;
      }
      var total := TotalWeeks(record.value.curriculum);
      ok := SaveProgress(guildId, professorId, NextWeek(current, total), now, writeOk);
    }

    /** `resetProgress`: stores week 1, whether or not a curriculum exists. */
    method ResetProgress(guildId: string, professorId: string, now: string, writeOk: bool) returns (ok: bool)
      modifies this
      ensures ok == writeOk
      ensures curricula == old(curricula)
      ensures progress == if writeOk
                          then old(progress)[Key(guildId, professorId) := Parsed(ProgressRecord(guildId, professorId, 1, now))]
                          else old(progress)
      ensures ok ==> GetProgress(guildId, professorId) == 1
    {
      ok := SaveProgress(guildId, professorId, 1, now, writeOk);
    }
  }
}
