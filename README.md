# GrettasBots curriculum core, modelled in Dafny

GrettasBots is a Discord bot whose professor personas answer questions and run
small college courses. This project models the rules underneath the chat
plumbing and proves what they guarantee:

- **Curriculum and progress store** (`curriculum_manager.dfy`, module
  `Curricula`). This is the `CurriculumManager` class. Its two directories of
  JSON files are two maps keyed by `guildId + "_" + professorId`. Whether a
  write or an unlink succeeds, and the clock reading stored with a record,
  are parameters.
- **Response chunker** (`professor_base.dfy`, module `ProfessorBase`).
  `splitResponse` is an imperative method with nested loops. It is proved
  equal to a fold over paragraphs and sentences, and its length bounds,
  non-emptiness, fallback and rejoining are proved about that fold. It also
  holds `truncate`.
- **Character cards** (`character_cards.dfy`, module `CharacterCards`). This
  covers the registry filled by `loadCharacters`, the system prompt assembled
  from optional segments in a fixed order, and the display settings with
  their fallbacks.
- **Command router** (`command_manager.dfy`, module `CommandRouter`). This is
  the name and alias registry filled by `loadCommands`, with case-insensitive
  lookup, names taking precedence over aliases, and dispatch that returns
  false, returns true or re-throws.
- **Curriculum commands** (`homework.dfy`, `view_curriculum.dfy`,
  `create_curriculum.dfy`, `reset_curriculum.dfy`, with shared parts in
  `handler_common.dfy`). Each handler's chain of early answers, week
  selection and filtering is a function to an outcome datatype: which error,
  or which fields the reply shows. Creating a curriculum and resetting
  progress write to the store, so they are methods.
- **JavaScript built-ins** (`js_text.dfy`, module `JsText`): `split`, `join`,
  `toLowerCase`, `parseInt` and number rendering, stated over `seq<char>`.
  `wrappers.dfy` holds `Option` and `Result`.

The chat service and `JSON.parse` are calls into code outside the model. A
handler receives the chat service as a function from the request to the reply
text or the error message, and receives the parser as a function from text to
an optional curriculum.

## Model

| member | source | states |
|---|---|---|
| ProfessorBase.SplitResponse | src/lib/professorBase.js:87-130 | The nested paragraph and sentence loops return exactly `ResponseChunks(text, maxLength)`. The result is never empty, and is `[text]` when the text fits. |
| ProfessorBase.ResponseChunksNonEmpty | src/lib/professorBase.js:92-129 | At least one chunk is returned. Every chunk pushed by the loops is non-empty. The fallback is used only when the loops pushed nothing. |
| ProfessorBase.SentenceLoopNoEmpty | src/lib/professorBase.js:111-120 | The sentence loop never pushes an empty chunk. |
| ProfessorBase.ParagraphLoopNoEmpty | src/lib/professorBase.js:97-123 | The paragraph loop, including its sentence fallback, never pushes an empty chunk. |
| ProfessorBase.SentenceStepStaysBusy | src/lib/professorBase.js:112-119 | Once there is pending or pushed text, a sentence step keeps some. |
| ProfessorBase.SentenceLoopStaysBusy | src/lib/professorBase.js:111-120 | The same holds for the whole sentence loop. |
| ProfessorBase.ParagraphStepStaysBusy | src/lib/professorBase.js:97-122 | The same holds for one paragraph step. |
| ProfessorBase.SentenceLoopIdle | src/lib/professorBase.js:108-120 | Starting empty, the sentence loop ends with nothing exactly when every sentence is empty. |
| ProfessorBase.ParagraphLoopIdle | src/lib/professorBase.js:95-123 | Starting empty, the paragraph loop ends with nothing exactly when every paragraph is blank: an empty fitting paragraph, or an oversized one whose sentences are all empty. |
| ProfessorBase.FallbackExactly | src/lib/professorBase.js:125-129 | The hard-truncation fallback is taken exactly when the text is too long and every paragraph is blank. The result is then the first `maxLength` characters. |
| ProfessorBase.FallbackExample | src/lib/professorBase.js:129 | The fallback is reachable: four newlines under a limit of 3 give the first three. |
| ProfessorBase.SentenceLoopBound | src/lib/professorBase.js:111-120 | When every sentence is at most `bound` long, the sentence loop keeps pushed chunks within `max(maxLength + 2, bound + 1)` and the current group within `max(maxLength, bound)`. This is the invariant `ChunkLengthBound` rests on. |
| ProfessorBase.SentenceGroupsBound | src/lib/professorBase.js:111-120 | The tight bound. The loop only appends. Every group it pushes is at most `maxLength + 1` long with its period, or is a single sentence plus `"."`. The group left current is at most `maxLength` long, or is a single sentence. |
| ProfessorBase.SentenceGroupOverrun | src/lib/professorBase.js:112-117 | The `+ 1` is reached: the fit test ignores the `". "` separator, so `"ab"`, `"cd"`, `"efghij"` under a limit of 6 push the 7-character group `"ab. cd."`. |
| ProfessorBase.ParagraphLoopBound | src/lib/professorBase.js:97-123 | Chunks built from paragraphs stay within `maxLength + 2`. |
| ProfessorBase.ChunkLengthBound | src/lib/professorBase.js:95-129 | If every sentence is at most `bound` long, every chunk is at most `max(maxLength + 2, bound + 1)`. |
| ProfessorBase.FittingParagraphsBound | src/lib/professorBase.js:98-106 | When every paragraph fits, every chunk is at most `maxLength + 2`, not `maxLength`. |
| ProfessorBase.SeparatorOverrun | src/lib/professorBase.js:98-99 | The `+ 2` is reached: the fit test ignores the separator, so `"ab\n\nc"` under a limit of 3 is one 5-character chunk. |
| ProfessorBase.SplitAtSecond | src/lib/professorBase.js:95 | `"ab\n\nc"` splits into the paragraphs `"ab"` and `"c"`. |
| ProfessorBase.SentenceLoopPeriods | src/lib/professorBase.js:111-120 | The sentence loop only appends, and every chunk it appends ends in the added `"."`. |
| ProfessorBase.LastGroupJoinsNextParagraph | src/lib/professorBase.js:105-126 | For a text of two paragraphs whose first is oversized, the last sentence group of the first paragraph is not flushed. When a second paragraph fits beside it, the two are joined into one chunk after the flushed groups. |
| ProfessorBase.FirstParagraphExample | src/lib/professorBase.js:105-120 | Under a limit of 4, the oversized paragraph `"ab. cd"` flushes `"ab."` and keeps `"cd"` current. That is the first premise of `LastGroupJoinsNextParagraph` for `"ab. cd\n\ne"`. |
| ProfessorBase.SplitParagraphsExample | src/lib/professorBase.js:95 | `"ab. cd\n\ne"` splits into two paragraphs. |
| ProfessorBase.SplitSentencesExample | src/lib/professorBase.js:108 | `"ab. cd"` splits into two sentences. |
| ProfessorBase.NoBreaksSingleChunk | src/lib/professorBase.js:108-126 | A text with no `"\n\n"` and no `". "` comes back as one chunk equal to the text, whatever its length. |
| ProfessorBase.LongRunIsOneChunk | src/lib/professorBase.js:88-129 | 5000 `A`s under a limit of 4000 give one chunk of 5000 characters. |
| ProfessorBase.ParagraphRuns | src/lib/professorBase.js:97-106 | When paragraphs are non-empty and fit, the pushed chunks and the current chunk are joins of consecutive runs of paragraphs. |
| ProfessorBase.JoinRuns | src/lib/professorBase.js:95-106 | Joining such runs gives the join of the paragraphs they cover. |
| ProfessorBase.PackedRuns | src/lib/professorBase.js:95-127 | The final chunks are runs that cover every paragraph. |
| ProfessorBase.ParagraphChunksRejoin | src/lib/professorBase.js:95-106 | When every paragraph is non-empty and fits, each chunk is a run of consecutive paragraphs, and joining the chunks with `"\n\n"` gives back the text. |
| ProfessorBase.Truncate | src/lib/professorBase.js:132-137 | A text that fits is returned unchanged. Otherwise the result is a prefix of the text followed by `"..."`, of length exactly `maxLength`, or 3 when `maxLength < 3`. |
| ProfessorBase.TruncateIdempotent | src/lib/professorBase.js:132-137 | For limits of at least 3, truncating twice is truncating once, and the result fits. |
| JsText.JoinSplit | src/lib/professorBase.js:95 | Splitting on a separator and joining with it gives back the text. |
| JsText.SplitWithoutSeparator | src/lib/professorBase.js:108 | A text without the separator splits into itself. |
| JsText.ToLowerCaseIdempotent | src/utils/commandManager.js:42 | Lower-casing twice is lower-casing once. |
| JsText.ToLowerCaseIsLower | src/utils/commandManager.js:25 | A lower-cased text has no capital letter. |
| JsText.IntToStringRoundTrip | src/commands/homework.js:57 | `parseInt` of a rendered integer gives that integer back. |
| JsText.HexStringRoundTrip | src/lib/characterCards.js:135-136 | `parseInt(s, 16)` of hexadecimal digits gives their value. |
| Curricula.Key | src/lib/curriculumManager.js:22-28 | The key is the guild id, `_`, then the professor id, and nothing else. |
| Curricula.KeyCollision | src/lib/curriculumManager.js:22-28 | The pairs `("1_2", "3")` and `("1", "2_3")` share a key, so they share both records. |
| Curricula.KeyInjective | src/lib/curriculumManager.js:22-28 | When guild ids contain no `_`, equal keys mean equal pairs. |
| Curricula.TotalWeeks | src/lib/curriculumManager.js:125 | The total is the length of `weeks`, or 15 when the list is missing or empty. |
| Curricula.NextWeek | src/lib/curriculumManager.js:126 | The next week is the current week plus one, capped at the total. |
| Curricula.AdvancedClamps | src/lib/curriculumManager.js:117-129 | Advancing `k` times from a week within the course gives `min(start + k, total)`. |
| Curricula.NextWeekFixedPoint | src/lib/curriculumManager.js:126 | On or past the last week, advancing stays on the last week. |
| Curricula.CurriculumManager.constructor | src/lib/curriculumManager.js:6-11 | A manager over the files already present. |
| Curricula.CurriculumManager.GetCurriculum | src/lib/curriculumManager.js:52-64 | Returns the stored record when its file parses. Returns nothing when the file is missing or unreadable. |
| Curricula.CurriculumManager.GetProgress | src/lib/curriculumManager.js:103-115 | Returns the stored week, or 1 when the file is missing or unreadable. It writes nothing. |
| Curricula.CurriculumManager.SaveProgress | src/lib/curriculumManager.js:86-101 | Overwrites the progress record of the key when the write succeeds. Nothing else changes, and the result reports the write. |
| Curricula.CurriculumManager.SaveCurriculum | src/lib/curriculumManager.js:30-50 | Overwrites the curriculum record, then sets the progress to week 1. It reports success even when the progress write fails. |
| Curricula.CurriculumManager.DeleteCurriculum | src/lib/curriculumManager.js:66-84 | Removes both records of the key and leaves other keys alone. A missing file is not a failure. A failed unlink stops the deletion and reports false. |
| Curricula.CurriculumManager.AdvanceWeek | src/lib/curriculumManager.js:117-129 | With no curriculum it fails and changes nothing. Otherwise it stores `min(current + 1, total)`, so the stored week never exceeds the total. |
| Curricula.CurriculumManager.ResetProgress | src/lib/curriculumManager.js:131-133 | Stores week 1 whether or not a curriculum exists. The curricula are untouched. |
| CharacterCards.LastCardWithId | src/lib/characterCards.js:28-33 | The card found always carries the id asked for. |
| CharacterCards.RegisterAllLastWins | src/lib/characterCards.js:20-38 | After loading, an id maps to the last registering file's card with that id. Ids no file registers keep their earlier entry or stay absent. |
| CharacterCards.NoEmptyId | src/lib/characterCards.js:28-31 | Cards without an id are skipped: the empty id is never registered. |
| CharacterCards.Candidates | src/lib/characterCards.js:55-121 | There are twelve candidate segments, in the fixed emission order. |
| CharacterCards.PresentMembers | src/lib/characterCards.js:57-123 | A segment is emitted exactly when its candidate is present. |
| CharacterCards.PresentOrdered | src/lib/characterCards.js:57-123 | Emitted segments keep the candidates' order. |
| CharacterCards.CandidateAt | src/lib/characterCards.js:57-123 | A candidate of a given kind sits at that kind's position. |
| CharacterCards.SegmentsInOrder | src/lib/characterCards.js:55-123 | Segments follow the fixed order: identity, traits, speaking style, quirks, background, approach, preferences, expertise, length, tone, structure, notes. The identity segment always comes first. |
| CharacterCards.PromptStartsWithIdentity | src/lib/characterCards.js:58 | The prompt begins with `You are {name}, a {title}.` |
| CharacterCards.TraitsEvenWhenEmpty | src/lib/characterCards.js:61-63 | A present but empty traits list still emits `"\nYour personality: ."`. |
| CharacterCards.QuirksNeedEntries | src/lib/characterCards.js:71-73 | The quirks segment is emitted exactly when the list is non-empty. |
| CharacterCards.BackgroundPresence | src/lib/characterCards.js:76-88 | The background segment is emitted exactly when there is an education, a specialization or a non-zero number of years. |
| CharacterCards.YearsPrecedence | src/lib/characterCards.js:81-84 | Teaching years take precedence over years of experience. |
| CharacterCards.PreferencesCapped | src/lib/characterCards.js:96-98 | Preferences after the third do not change the prompt. |
| CharacterCards.ExpertiseCapped | src/lib/characterCards.js:102-104 | Expertise areas after the fourth do not change the prompt. |
| CharacterCards.TeachingOverHelping | src/lib/characterCards.js:91 | With a teaching approach, the helping approach does not change the prompt. |
| CharacterCards.DisplayConfigOf | src/lib/characterCards.js:132-138 | The name falls back to the title, and the icon to the default. A string colour is parsed as hexadecimal, a non-zero number is kept, and otherwise the colour is `0x5865F2`. |
| CharacterCards.HexColorRoundTrip | src/lib/characterCards.js:135-136 | A colour written in hexadecimal digits is read as that number. |
| CharacterCards.HashColorIsNaN | src/lib/characterCards.js:135-136 | A colour written `"#5865F2"` parses to `NaN`. |
| CharacterCards.CharacterCardManager.constructor | src/lib/characterCards.js:7-10 | The registry starts empty and is then loaded from the directory's files, so it ends equal to the registration fold over them, in order. |
| CharacterCards.CharacterCardManager.LoadCharacters | src/lib/characterCards.js:12-39 | The loop leaves the registry equal to the registration fold over the files, in order. |
| CharacterCards.CharacterCardManager.GetCharacter | src/lib/characterCards.js:41-43 | Returns the registered card, or nothing for an unknown id. |
| CharacterCards.CharacterCardManager.BuildSystemPrompt | src/lib/characterCards.js:49-124 | Returns nothing for an unknown id, otherwise the prompt of the registered card. |
| CharacterCards.CharacterCardManager.GetDisplayConfig | src/lib/characterCards.js:126-139 | Returns nothing for an unknown id, otherwise the card's display settings. |
| CommandRouter.AliasAllMaps | src/utils/commandManager.js:28-32 | Each alias, lower-cased, maps to the command's lower-cased name, and the last listing wins. Other aliases are unchanged. |
| CommandRouter.AliasAllValid | src/utils/commandManager.js:28-32 | Alias registration keeps keys lower-case and targets registered. |
| CommandRouter.LoadOneValid | src/utils/commandManager.js:20-32 | Registering one file keeps every key lower-case and every alias pointing at a registered name. |
| CommandRouter.LoadAllValid | src/utils/commandManager.js:15-36 | The same invariant holds after any sequence of files. |
| CommandRouter.LoadOneSkips | src/utils/commandManager.js:20-23 | A file without a name or an `execute` function, or that failed to load, changes nothing. |
| CommandRouter.LoadOneRegisters | src/utils/commandManager.js:25-32 | After registering, the name resolves to the new command whatever was registered before. Each alias maps to the lower-cased name. |
| CommandRouter.ResolveIgnoresCase | src/utils/commandManager.js:41-44 | `getCommand(x)` equals `getCommand(toLowerCase(x))`. |
| CommandRouter.NameBeforeAlias | src/utils/commandManager.js:43 | A name match wins over an alias match. |
| CommandRouter.AliasResolves | src/utils/commandManager.js:43 | In a loaded registry, every alias resolves to the command it names. |
| CommandRouter.ExecuteSettles | src/utils/commandManager.js:50-64 | Dispatch returns false exactly when nothing resolves, and runs nothing then. It returns true when the handler completes and re-throws the handler's error otherwise. |
| CommandRouter.CommandManager.constructor | src/utils/commandManager.js:7-10 | Both maps start empty. |
| CommandRouter.CommandManager.LoadCommands | src/utils/commandManager.js:12-39 | The nested file and alias loops leave the maps equal to the registration fold. The keys stay lower-case. |
| CommandRouter.CommandManager.GetCommand | src/utils/commandManager.js:41-44 | The lookup returns a registered command, resolved as above. |
| CommandRouter.CommandManager.ExecuteCommand | src/utils/commandManager.js:50-64 | Returns false exactly when `getCommand` finds nothing. |
| HandlerCommon.ProfessorOf | src/commands/homework.js:51-63 | A slash command's choice is used as given. A prefix command's first word is lower-cased and must be on the list, or the usage text is shown. |
| HandlerCommon.ProfessorIgnoresCase | src/commands/homework.js:56 | The prefix subject is read regardless of case. |
| HandlerCommon.CourseProfessorsAccepted | src/commands/homework.js:59-62 | The five course ids are accepted, also in capitals. No words gives the usage text. |
| HandlerCommon.FindWeek | src/commands/homework.js:94 | Returns the first entry whose `week` field equals the target, or nothing when no entry has that number. |
| HandlerCommon.FindWeekByNumber | src/commands/view-curriculum.js:83 | The lookup is by value, not by position. |
| HandlerCommon.WeekLine | src/commands/create-curriculum.js:170-172 | A week line is never empty. |
| HandlerCommon.WeekLinesEmpty | src/commands/view-curriculum.js:101-106 | Joined week lines are empty exactly when there are no weeks. |
| HomeworkCommand.ExplicitWeek | src/commands/homework.js:51-58 | The explicit week is the slash option or `parseInt` of a non-empty second word, kept only when truthy. |
| HomeworkCommand.ExplicitWeekReadsNumber | src/commands/homework.js:57 | A written number is read back as that week. |
| HomeworkCommand.ExplicitWeekFallsBack | src/commands/homework.js:57-82 | No second word, `0` or a non-number defers to the stored progress. |
| HomeworkCommand.ShownReadings | src/commands/homework.js:158-164 | The readings field lists at most the first five readings. It is omitted when the list is missing or empty. |
| HomeworkCommand.EmptyReadingsOnlyInPrompt | src/commands/homework.js:134-164 | An empty readings list still adds a `Readings:` line to the prompt, but no readings field to the reply. |
| HomeworkCommand.Homework | src/commands/homework.js:34-190 | Outside a server the handler refuses. A bad prefix subject gives the usage text. A missing curriculum gives its error, whatever the progress. |
| HomeworkCommand.ValidationBeforeService | src/commands/homework.js:84-115 | Every answer given up to the week lookup is the same whatever the chat service's configuration or reply. |
| HomeworkCommand.ShownAssignment | src/commands/homework.js:79-164 | A shown assignment has the following properties. Its week is the explicit or the current week, within `1..weeks.length`, and found by number. It shows that entry's topic and the service's reply to the prompt for that entry. Its readings follow the cap. |
| HomeworkCommand.MissingWeeksCrash | src/commands/homework.js:84-85 | A stored curriculum without `weeks` makes the handler throw. |
| HomeworkCommand.WeekOutOfRange | src/commands/homework.js:78-92 | The target week, a slash option, a prefix word or else the stored progress, is refused with the number of weeks exactly when it is below 1 or above `weeks.length`. |
| HomeworkCommand.DefaultsToProgress | src/commands/homework.js:79-82 | Without a week option the handler uses the stored current week, or 1 without progress. |
| HomeworkCommand.NumberWithoutEntry | src/commands/homework.js:94-104 | An in-range week that no entry carries is reported as not found. |
| ViewCurriculumCommand.Upcoming | src/commands/view-curriculum.js:101-102 | The selection never has more entries than the list. |
| ViewCurriculumCommand.UpcomingMembers | src/commands/view-curriculum.js:101-102 | A week is upcoming exactly when it is listed and `current < week <= current + 2`. |
| ViewCurriculumCommand.UpcomingAppend | src/commands/view-curriculum.js:101-104 | The selection distributes over concatenation, so it keeps the curriculum's order. |
| ViewCurriculumCommand.UpcomingField | src/commands/view-curriculum.js:101-112 | The `Coming Up` field lists the upcoming weeks, and is omitted exactly when there are none. |
| ViewCurriculumCommand.CurrentField | src/commands/view-curriculum.js:83-98 | The current-week field appears exactly when an entry matches. Its description falls back to `No description`. It shows at most three readings, and only when there are any. |
| ViewCurriculumCommand.ViewCurriculum | src/commands/view-curriculum.js:26-121 | Outside a server the handler refuses. A bad prefix subject gives the usage text. |
| ViewCurriculumCommand.OverviewOfStore | src/commands/view-curriculum.js:67-112 | The overview has the following properties. Total Weeks is `weeks.length` and Current Week is the stored progress. The current-week field appears exactly when an entry has that number. The upcoming field appears exactly when a week follows within two weeks. |
| ViewCurriculumCommand.NoCurriculumFirst | src/commands/view-curriculum.js:55-65 | Without a curriculum the answer is the error, whatever the progress and cards hold. |
| ViewCurriculumCommand.UnknownProfessorCrashes | src/commands/view-curriculum.js:69-73 | A professor without a card makes the handler throw, even with a curriculum. |
| CreateCurriculumCommand.WeekCount | src/commands/create-curriculum.js:52-58 | The week count is the slash option or the parsed second word, and 15 when that value is falsy. |
| CreateCurriculumCommand.WeekCountReadsNumber | src/commands/create-curriculum.js:54-58 | A written count is read back. Without one, the count is 15. |
| CreateCurriculumCommand.FirstIndex | src/commands/create-curriculum.js:136 | Finds the first occurrence of a character. |
| CreateCurriculumCommand.LastIndex | src/commands/create-curriculum.js:136 | Finds the last occurrence of a character. |
| CreateCurriculumCommand.JsonSpanIsGreedy | src/commands/create-curriculum.js:136-141 | A span exists exactly when some `{` precedes some `}`. It runs from the first `{` to the last `}`. |
| CreateCurriculumCommand.JsonSpanInProse | src/commands/create-curriculum.js:136-138 | Prose around the object is cut off. |
| CreateCurriculumCommand.Interpret | src/commands/create-curriculum.js:133-150 | A reply is stored exactly when it has a span, the span parses and the result has `weeks`. What is stored is the parsed span itself, under the given professor, count and display. Otherwise the reply is a parse or format error. |
| CreateCurriculumCommand.Prepare | src/commands/create-curriculum.js:35-150 | Outside a server the handler refuses before anything else. In a server the usage answer is given exactly when no professor is named, or the prefix word is not one of the course professors. A curriculum reaches the store only with `weeks`, the requested count and the professor the invocation names, who must have a card. What is stored is the parsed JSON span of the service's reply to the request built from that card's prompt and the count. On the prefix path the count must lie in `[4, 20]`. |
| CreateCurriculumCommand.CreateCurriculum | src/commands/create-curriculum.js:35-187 | A stop writes nothing, and neither does a failed curriculum write, which is reported as an error. A successful save changes exactly two records: the key's curriculum record, and its progress record (set to week 1) only when that write succeeds. Every other record is unchanged, and the confirmation is shown. |
| CreateCurriculumCommand.SlashCountUnchecked | src/commands/create-curriculum.js:52-68 | Only the prefix path range-checks the count. |
| CreateCurriculumCommand.EmptyWeeksAccepted | src/commands/create-curriculum.js:148-176 | An empty `weeks` array passes the structure check and gives an empty preview. |
| CreateCurriculumCommand.DurationIsRequested | src/commands/create-curriculum.js:159-172 | For every curriculum and count, Duration is the requested count whatever `weeks.length` is, and Current Week is 1. The title and description fall back to their fixed texts, the professor is the display name, and the preview is built from the weeks. |
| CreateCurriculumCommand.PreviewEmpty | src/commands/create-curriculum.js:170-176 | The preview is empty exactly when there are no weeks. |
| CreateCurriculumCommand.PreviewShowsThree | src/commands/create-curriculum.js:169-176 | With up to three weeks, the preview is every week's line and nothing is added. With more, it is the first three lines followed by `"\n*...and more*"`, and so ends in that line. |
| ResetCurriculumCommand.CheckReset | src/commands/reset-curriculum.js:26-74 | The checks run in order: permission, then server, then professor, then the existing curriculum. Each refusal happens exactly under its condition. |
| ResetCurriculumCommand.ResetCurriculum | src/commands/reset-curriculum.js:24-94 | A refusal writes nothing. Otherwise only the progress is set to 1, and success is reported exactly when that write succeeds. |
| ResetCurriculumCommand.PrefixRefusesSoftwareCourses | src/commands/reset-curriculum.js:16-61 | A prefix command cannot reset `cs101`. The slash path does not check its choice. |
| ResetCurriculumCommand.PermissionFirst | src/commands/reset-curriculum.js:28-36 | Without the permission, the answer ignores the server, the arguments and the store. |

## Behaviour of the code worth knowing

The proofs pin down several behaviours of the code that differ from what its
nominal limits suggest:

- A 5000-character run of `A` under a limit of 4000 is returned as one
  5000-character chunk, not two (`LongRunIsOneChunk`). A sentence longer than
  the limit is never cut.
- Chunks built from whole paragraphs may be `maxLength + 2` long
  (`SeparatorOverrun`).
- Sentence groups of an oversized paragraph may be `maxLength + 1` long with
  their period, because the fit test reserves two characters but ignores the
  `". "` between sentences (`SentenceGroupOverrun`).
- The hard-truncation fallback is reachable, for example with a text made
  only of paragraph breaks (`FallbackExample`).
- The default icon in `src/lib/characterCards.js:134` is the three
  characters U+011F U+0178 U+201C, a mis-decoded emoji. The model keeps them
  as written.

## Left out

- Discord I/O is not modelled: replies, ephemeral flags, deferral, typing
  indicators, embed footers (including token usage) and emoji. Each handler
  returns the outcome it would show.
- The OpenAI client is a parameter. This covers its configuration flag, its
  reply (already trimmed) and its error messages.
- `JSON.parse` of model output is a parameter. It returns a curriculum object
  or nothing. Results that are not objects (`null`, numbers) are not
  modelled.
- GIF lookup, command deployment, CLI scripts, logging and the persona
  commands are not modelled. They are network or process I/O outside the
  core.
- File system details are reduced to maps: paths, directory creation and
  JSON formatting. A file that exists but cannot be read or parsed is
  `Unreadable`. A failed write or unlink leaves the file as it was.
- Clock readings are the `now` parameter. `saveCurriculum` uses the same
  reading for both records, where the code reads the clock twice.
- Stored records and character cards are assumed to have the modelled
  shape. Records need a numeric `currentWeek` and `week`, string text fields
  and an array `readings`. Cards need numeric `years_teaching` and
  `years_experience`, arrays `traits` and `quirks`, and string text fields.
- A missing `topic`, `description` or `assignment` is the empty string in
  the model. The code would render it as `undefined` in the prompts.
- A missing characters directory is an empty listing. `getAllCharacters`
  and `getAllCommands` are not part of this model.
- JsText.ToLowerCase: only ASCII letters are lower-cased.
- JsText.ParseInt: integers are unbounded. The loss of precision of large
  JavaScript numbers is not modelled.
- String lengths count characters, where JavaScript counts UTF-16 code
  units.
- CommandRouter.CommandManager.LoadCommands: aliases are assumed to be
  strings. A non-string alias makes the code throw part-way through
  registering the aliases of that file.
- The platform enforces slash choices and the option ranges (`setMinValue`,
  `setMaxValue`). The model does not; it states only what the handlers
  themselves check.
- HomeworkCommand.Homework, ViewCurriculumCommand.ViewCurriculum and
  CreateCurriculumCommand.CreateCurriculum: a missing display name
  (`undefined` in an embed field) is passed through as `None`. Rejection of
  such a field by the embed library is not modelled. In
  `CreateCurriculum`, the curriculum is already saved at that point.
- ProfessorBase.Truncate: `maxLength` is a natural number. Negative limits
  are not modelled.
