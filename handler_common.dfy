/**
 * What the curriculum command handlers share: how a command arrives (a slash
 * command with its options, or a prefix message split into words), how the
 * professor argument is read and checked, how a week entry is looked up by
 * its `week` number, and how weeks and readings are rendered as embed lines.
 */
module HandlerCommon {
  import opened Wrappers
  import opened JsText
  import opened Curricula

  /** A slash command carries the chosen professor and its integer option
   *  (`week` or `weeks`; `None` when left out). A prefix command carries the
   *  words after the command name. */
  datatype Invocation = Slash(professor: string, number: Option<int>) | Prefix(args: seq<string>)

  /** The professors of the five courses. */
  const CourseProfessors: seq<string> := ["philosophy", "latin", "librarian", "cs101", "cs201"]

  /** The professor a handler works with, or `None` when a prefix command must
   *  answer with its usage text. A slash command's choice is taken as given,
   *  since the platform only offers the listed choices; a prefix command's
   *  first word is lower-cased and must be one of `allowed`. */
  function ProfessorOf(inv: Invocation, allowed: seq<string>): (r: Option<string>)
    ensures inv.Slash? ==> r == Some(inv.professor)
    ensures inv.Prefix? ==> (r.Some? <==> |inv.args| > 0 && ToLowerCase(inv.args[0]) in allowed)
    ensures inv.Prefix? && r.Some? ==> r.value in allowed
  {
    match inv
    case Slash(professor, _) => Some(professor)
    case Prefix(args) =>
      if |args| > 0 && ToLowerCase(args[0]) in allowed then Some(ToLowerCase(args[0])) else None
  }

  /** A prefix command's professor word is read without regard to case. */
  lemma ProfessorIgnoresCase(word: string, rest: seq<string>, allowed: seq<string>)
    ensures ProfessorOf(Prefix([word] + rest), allowed) == ProfessorOf(Prefix([ToLowerCase(word)] + rest), allowed)
  {
    ToLowerCaseIdempotent(word);
  }

  /** Each course professor is accepted by name, also when written in capitals. */
  lemma CourseProfessorsAccepted()
    ensures forall p :: p in CourseProfessors ==> ProfessorOf(Prefix([p]), CourseProfessors) == Some(p)
    ensures ProfessorOf(Prefix(["CS101", "3"]), CourseProfessors) == Some("cs101")
    ensures ProfessorOf(Prefix([]), CourseProfessors) == None
  {
    forall p | p in CourseProfessors ensures ProfessorOf(Prefix([p]), CourseProfessors) == Some(p) {
      ToLowerCaseOfLower(p);
    }
    assert ToLowerCase("CS101") == "cs101" by {
      assert ToLowerCase("101") == "101" by {
        ToLowerCaseOfLower("101");
      }
      assert "CS101"[1..] == "S101";
      assert "S101"[1..] == "101";
    }
  }

  /** `weeks.find(w => w.week === target)`: the first entry numbered `target`. */
  function FindWeek(weeks: seq<Week>, target: int): (r: Option<Week>)
    ensures r.Some? ==> r.value in weeks && r.value.week == target
    ensures r.Some? ==> exists i :: 0 <= i < |weeks| && weeks[i] == r.value && forall j :: 0 <= j < i ==> weeks[j].week != target
    ensures r.None? <==> forall w :: w in weeks ==> w.week != target
  {
    if weeks == [] then None
    else if weeks[0].week == target then Some(weeks[0])
    else
      var r := FindWeek(weeks[1..], target);
      if r.Some? then
        var i :| 0 <= i < |weeks[1..]| && weeks[1..][i] == r.value && forall j :: 0 <= j < i ==> weeks[1..][j].week != target;
        assert weeks[i + 1] == r.value;
        assert forall j :: 0 <= j < i + 1 ==> weeks[j].week != target by {
          forall j | 0 <= j < i + 1 ensures weeks[j].week != target {
            if j > 0 { assert weeks[j] == weeks[1..][j - 1]; }
          }
        }
        r
      else
        assert forall w :: w in weeks ==> w.week != target by {
          forall w | w in weeks ensures w.week != target {
            if w != weeks[0] { assert w in weeks[1..]; }
          }
        }
        r
  }

  /** The lookup is by the `week` field, not by position: a list whose
   *  entries are out of order still finds the numbered entry. */
  lemma FindWeekByNumber(a: Week, b: Week)
    requires a.week == 2 && b.week == 1
    ensures FindWeek([a, b], 1) == Some(b)
    ensures FindWeek([a, b], 2) == Some(a)
  {
    assert [a, b][1..] == [b];
  }

  /** A week as the preview lines show it: `**Week n**: topic`. */
  function WeekLine(w: Week): (line: string)
    ensures |line| > 0
  {
    "**Week " + IntToString(w.week) + "**: " + w.topic
  }

  /** `items.map(r => "• " + r).join("\n")`. */
  function Bullets(items: seq<string>): string
  {
    Join(seq(|items|, i requires 0 <= i < |items| => "• " + items[i]), "\n")
  }

  /** `weeks.map(WeekLine).join("\n")`. */
  function WeekLines(weeks: seq<Week>): string
  {
    Join(seq(|weeks|, i requires 0 <= i < |weeks| => WeekLine(weeks[i])), "\n")
  }

  /** Week lines are empty exactly when there are no weeks. */
  lemma WeekLinesEmpty(weeks: seq<Week>)
    ensures WeekLines(weeks) == "" <==> weeks == []
  {
    var lines := seq(|weeks|, i requires 0 <= i < |weeks| => WeekLine(weeks[i]));
    if weeks != [] {
      JoinLength(lines, "\n");
      assert |lines[0]| > 0;
    }
  }

  /** A request to the chat service: the system prompt (`null` when the
   *  professor has no card), the user message and the token budget. */
  datatype Request = Request(systemPrompt: Option<string>, userMessage: string, maxTokens: nat)
}
