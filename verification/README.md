# navya — a Dafny model of the deterministic core

navya is a browser application that helps founders shape a product idea.
The user describes the idea, brainstorms it with a language model, states a
vision and mission, picks features, and receives Mermaid `flowchart`
diagrams: one per feature and one for the whole app. A companion chat
(`ai/`) offers a general mode and four personas, and the general mode can
suggest switching to a persona.

The language model, the storage back end and React are outside this model.
What is left is deterministic, and that is what is modelled here:

- **The diagram-text normaliser.** It turns whatever the model sent into
  flowchart text: fences stripped, blank lines dropped, a `flowchart TD`
  header synthesised, each line cleaned, and lines filtered by shape. It
  has two variants:
  - the full one in `src/lib/featureFlowcharts.ts` (modules `MermaidCleanup`
    and `FeatureFlowcharts`);
  - the older one without the filter in `src/lib/gemini.ts` (module
    `LibGemini`).
- **Three small parsers:**
  - the `[SUGGEST_MODE:x]` tag extractor (`GeneralChat`);
  - the line classifier for replies (`FormatResponse`);
  - the fence strippers and transcript formatting of the REST service
    (`Fences`, `GeminiService`).
- **The components' state machines:**
  - the wizard (`Wizard`);
  - the chats (`Brainstorming`, `IdeaChat`, `ModeChat`);
  - selections (`Selection`), the feature roadmap (`FeatureManager`) and
    the form guards (`Forms`);
  - the carousel (`AppView`), the publishing progress (`PublishModal`), the
    dashboard (`Dashboard`) and the monitor's display arithmetic
    (`MonitorView`);
  - the record building and fallback logic of the storage layer (`Storage`).

## How calls are modelled

Every call into the model, `fetch`, Supabase or `localStorage` becomes a
parameter describing how it ended:
- a `Result<string>` for a model reply;
- an `Exchange` for the REST calls;
- `Upload`, `Download` and `LocalStore` values for storage.

The clock also becomes a parameter (`now`, `createdAt`). `JSON.parse` of a
reply becomes a `parse` function parameter that may fail. Timers are
modelled as the state changes their callbacks make (`ModeChat.ShowSwitch`
and `ApplySwitch`, `PublishModal.Tick`).

## Exact JavaScript semantics

Strings are `seq<char>`. The model follows JavaScript semantics exactly:
- `\s` and `trim()` use the ECMAScript whitespace and line-terminator set
  (`Text.IsSpace`);
- `.` stops at a line terminator;
- a global `replace` scans left to right without overlap (`Text.ReplaceAll`);
- a lazy `(.*?)` stops at the first closing delimiter
  (`Brainstorming.CloseAt`);
- the `m` flag's `^` matches after any line terminator
  (`MermaidCleanup.DropBlankLines`);
- `%` truncates toward zero (`Numbers.JsRem`);
- a string is truthy exactly when it is not empty.

Character classes are concrete predicates:
- The quote class `[""'']` at `src/lib/featureFlowcharts.ts:83` is, in the
  file's bytes, just the two straight quotes.
- The bullet literal and the emoji class of `src/utils/formatResponse.ts`
  are mis-encoded in the file (`â€¢`, `ğŸ”§`, …). They are modelled as the
  exact characters written there.

## Behaviour worth knowing

The model follows the code as written, including these behaviours:

- **The normaliser is not idempotent.** The full variant collapses
  whitespace and then pads every `-->` with a space on each side. So `A-->B`
  cleans to `A --> B`, and cleaning that again gives `A  -->  B`
  (`MermaidCleanup.CleanLinePaddedEdge`). For the same reason, a reply
  `A[Start] --> B[End]` normalises to `flowchart TD` followed by
  `A[Start]  -->  B[End]`, with two blanks on each side of the arrow.
- **A blank reply is not an error.** It normalises to `flowchart TD`
  (`FeatureFlowcharts.NormalizeBlank`).
- **The pipe-label cleanup trims only leading blanks.** The regex
  `\|\s*([^|]+)\s*\|` has a greedy `[^|]+`, which swallows the trailing
  blanks before the closing `|`.
- **Roles are `user`/`ai` in the wizard and `user`/`model` in the companion
  chat.** The storage summary counts `assistant` messages, so its
  `aiResponses` count is 0 for the transcripts the app writes.
- **An empty saved chat log reads back as "No chat log found".** The empty
  string is falsy (`Storage.EmptyLogReadsAsMissing`).
- **Both savers write the same file.** `saveChatLogToStorage` and
  `saveAppDataToStorage` both upsert `dumo/user.txt`, whatever the user. A
  read therefore finds the last chat log saved by anyone
  (`Storage.UploadedLogReadsBack`). After an app-data save it succeeds with
  no data, because that document has no `chatLog` field
  (`Storage.AppDataHidesChatLog`).
- **The bullet test only matches the mis-encoded mark.** It tests for the
  four-character prefix `â€¢ `, so a real `•` bullet is never recognised
  (`FormatResponse.RealBulletNotBullet`). When the mis-encoded mark does
  match, `substring(2)` leaves its last character, and `â€¢ x` becomes the
  bullet `¢ x` (`FormatResponse.MisEncodedBullet`).
- **The wizard never leaves the landing page.** `LandingPage` declares no
  props, so the `onCreateApp` that `App.tsx` hands it is never called
  (`Wizard.StuckAtLanding`). The steps after it are modelled as `App.tsx`
  wires them.
- **`AppView` keeps its screen index when the screens are reloaded.** A
  reload with fewer screens can leave the index past the end
  (`AppView.ReloadCanLeaveRange`).
- **The dashboard's main panel never changes.** Both branches of
  `renderView` (`src/components/Dashboard.tsx`, lines 26-33) mount the idea
  input.
- **`MonitorView` shows negative times inconsistently.** A negative session
  time mixes a floored minute with a truncated second: `-30` shows as
  `-1m -30s` (`MonitorView.NegativeSplitDisagrees`).

## Model

| member | source | states |
|---|---|---|
| MermaidCleanup.DropBlankLines | src/lib/featureFlowcharts.ts:67 | deleting blank lines under the `m` flag removes only whitespace: the non-space characters of the text are exactly those of the input, in order |
| MermaidCleanup.BlankMatch | src/lib/featureFlowcharts.ts:67 | a match of `^\s*[\r\n]` ends at the last line terminator inside the leading whitespace, and takes nothing when there is none |
| MermaidCleanup.SplitLines | src/lib/featureFlowcharts.ts:71 | every piece of `split('\n')` is a single line |
| MermaidCleanup.NonEmptyLinesShape | src/lib/featureFlowcharts.ts:71 | every line kept by split/trim/filter is non-empty, single-line and already trimmed |
| MermaidCleanup.WithHeader | src/lib/featureFlowcharts.ts:74-76 | the first line always starts with `flowchart`; `flowchart TD` is prepended exactly when there is no line or the first is not a declaration, and the lines are otherwise unchanged |
| MermaidCleanup.RemoveQuotes | src/lib/featureFlowcharts.ts:83 | no quote character survives, and quote-free text is untouched |
| MermaidCleanup.CollapseSpaces | src/lib/featureFlowcharts.ts:84 | non-space text is preserved, every remaining whitespace character is a plain space, and no two spaces are adjacent |
| MermaidCleanup.CollapseSpacesIdempotent | src/lib/featureFlowcharts.ts:84 | collapsing whitespace a second time changes nothing |
| MermaidCleanup.CollapseSpacesFixed | src/lib/featureFlowcharts.ts:84 | text whose whitespace is single plain spaces is left as it is |
| MermaidCleanup.PadArrows | src/lib/featureFlowcharts.ts:85 | text without `-->` is unchanged by arrow padding |
| MermaidCleanup.PadArrowsEdge | src/lib/featureFlowcharts.ts:85 | `p-->q` is padded to `p --> q` |
| MermaidCleanup.PadArrowsPaddedEdge | src/lib/featureFlowcharts.ts:85 | an already padded `p --> q` is padded again, to `p  -->  q` |
| MermaidCleanup.PipeLabelEnd | src/lib/featureFlowcharts.ts:86 | a caption ends at the next `\|`, which is the first one after the opening bar |
| MermaidCleanup.TrimPipeLabelsNoPipe | src/lib/featureFlowcharts.ts:86 | without a `\|` the label cleanup changes nothing |
| MermaidCleanup.TrimPipeLabelsAll | src/lib/featureFlowcharts.ts:86 | the label cleanup only deletes characters: any property every character had still holds afterwards |
| MermaidCleanup.IdLen | src/lib/featureFlowcharts.ts:89 | the ID token `[A-Z]\d*` is the first character and all the digits after it, and is followed by a non-digit or the end |
| MermaidCleanup.GapEnd | src/lib/featureFlowcharts.ts:89 | the `\s*` after an ID token reaches exactly to the first non-space character |
| MermaidCleanup.GlueIds | src/lib/featureFlowcharts.ts:89-91 | gluing keeps the first character and maps the empty text to itself |
| MermaidCleanup.GlueIdsGlued | src/lib/featureFlowcharts.ts:89-91 | after the replacement for a bracket, no ID token is separated from that bracket by whitespace |
| MermaidCleanup.GlueIdsPreserves | src/lib/featureFlowcharts.ts:89-91 | gluing for one bracket never separates an ID token from another bracket kind, so the three replacements in sequence glue all three |
| MermaidCleanup.GlueIdsNoBracket | src/lib/featureFlowcharts.ts:89-91 | text without the bracket is left unchanged |
| MermaidCleanup.CleanLineShape | src/lib/featureFlowcharts.ts:82-91 | a cleaned line has no quote characters and no ID token separated from a following `[`, `{` or `(` |
| MermaidCleanup.CleanLineNoBreak | src/lib/featureFlowcharts.ts:82-91 | cleaning never puts a line break into a line |
| MermaidCleanup.CleanLineAll | src/lib/featureFlowcharts.ts:82-91 | every character of a cleaned line comes from the quote-stripped input or from the arrow padding |
| MermaidCleanup.CleanLinePlain | src/lib/featureFlowcharts.ts:82-91 | on a quote-free, single-spaced line without labels or brackets, cleaning only pads the arrows |
| MermaidCleanup.CleanLineEdge | src/lib/featureFlowcharts.ts:82-91 | the line `p-->q` is cleaned to `p --> q` |
| MermaidCleanup.CleanLinePaddedEdge | src/lib/featureFlowcharts.ts:84-85 | the line `p --> q` is cleaned to `p  -->  q`, so cleaning a cleaned line can change it: the cleanup is not idempotent |
| FeatureFlowcharts.ContextPrompt | src/lib/featureFlowcharts.ts:13-20 | the context block is empty exactly when the history is empty |
| FeatureFlowcharts.BuildContextPrompt | src/lib/featureFlowcharts.ts:13-20 | the `+=` loop over the history builds exactly the context block |
| FeatureFlowcharts.ContextLinesSplit | src/lib/featureFlowcharts.ts:16-18 | with single-line messages, each history entry gives one line of the block, in order, labelled `User:` for the user and `AI:` otherwise |
| FeatureFlowcharts.WithHeaderWellHeaded | src/lib/featureFlowcharts.ts:71-76 | after the header step the first line is a declaration and every line is a single line |
| FeatureFlowcharts.HeadedLinesWellHeaded | src/lib/featureFlowcharts.ts:62-76 | the lines entering the cleanup, for any reply, start with a declaration and are single lines |
| FeatureFlowcharts.FinishLines | src/lib/featureFlowcharts.ts:79-101 | the lines of the output are exactly the cleaned lines that pass the shape filter, in order |
| FeatureFlowcharts.FinishShape | src/lib/featureFlowcharts.ts:79-101 | the output has a declaration first, no empty line, every line passes the shape filter, and every other line is quote-free and glued |
| FeatureFlowcharts.NormalizeShape | src/lib/featureFlowcharts.ts:62-101 | for any reply, the normalised diagram has that shape |
| FeatureFlowcharts.FinishKeepsOrder | src/lib/featureFlowcharts.ts:79-99 | the surviving lines are a subsequence of the cleaned lines, and every declaration line survives verbatim |
| FeatureFlowcharts.NormalizeBlank | src/lib/featureFlowcharts.ts:62-101 | a blank reply, the empty one included, normalises to exactly `flowchart TD` |
| FeatureFlowcharts.FinishHeader | src/lib/featureFlowcharts.ts:74-101 | the synthesised header alone is output as `flowchart TD` |
| FeatureFlowcharts.StripFencesBlank | src/lib/featureFlowcharts.ts:62-68 | fence and blank-line stripping turns a blank reply into the empty text |
| FeatureFlowcharts.GenerateFeatureFlowchart | src/lib/featureFlowcharts.ts:60-105 | a reply gives its normalised diagram, which always has the normalised shape (a declaration first, no empty line, every line a diagram line, quote-free and glued); a failed call gives exactly the error `Failed to generate feature flowchart` |
| FeatureFlowcharts.GenerateFinalAppFlowchart | src/lib/featureFlowcharts.ts:160-205 | a reply gives its normalised diagram, which always has the normalised shape; a failed call gives exactly the error `Failed to generate final app flowchart` |
| FeatureFlowcharts.GeneratorsAgree | src/lib/featureFlowcharts.ts:60-205 | on a reply both generators give the same diagram; on a failure their error texts differ |
| FeatureFlowcharts.FeaturesDescriptionLines | src/lib/featureFlowcharts.ts:119 | with single-line names and descriptions, each feature is one `- name: description` line, in order |
| FeatureFlowcharts.FeatureNumberOfId | src/lib/featureFlowcharts.ts:247 | the number in `feature-n` reads back as `n` |
| FeatureFlowcharts.FeatureIdInjective | src/lib/featureFlowcharts.ts:247 | different numbers give different feature ids |
| FeatureFlowcharts.Numbered | src/lib/featureFlowcharts.ts:246-251 | one feature per parsed entry |
| FeatureFlowcharts.NumberedShape | src/lib/featureFlowcharts.ts:246-251 | parsed entries become features `feature-1` … `feature-n` in order, not generated, keeping each entry's name and description |
| FeatureFlowcharts.FreshlyNumberedIds | src/lib/featureFlowcharts.ts:246-251 | freshly numbered features have pairwise distinct ids that read back as 1 … n |
| FeatureFlowcharts.FallbackIsNumbered | src/lib/featureFlowcharts.ts:255-274 | the three fallback features are numbered exactly as parsed ones would be |
| FeatureFlowcharts.SuggestFeatures | src/lib/featureFlowcharts.ts:241-275 | a failed call gives the fallback, and a parsed reply gives one feature per entry |
| FeatureFlowcharts.SuggestFeaturesNumbered | src/lib/featureFlowcharts.ts:243-274 | whatever the model and the parser do, the suggestions are `feature-1` … `feature-n`, pairwise distinct and not generated |
| FeatureFlowcharts.SuggestFeaturesParsed | src/lib/featureFlowcharts.ts:245-251 | a parsed reply keeps the model's names and descriptions in its order |
| LibGemini.GenerateIdeasResponse | src/lib/gemini.ts:13-29 | the reply is returned unchanged, and any failure becomes the one error `Failed to generate response` |
| LibGemini.GenerateFlowChart | src/lib/gemini.ts:31-86 | a failed call gives the fixed fallback diagram instead of an error |
| LibGemini.NormalizeBasicLines | src/lib/gemini.ts:55-77 | the output lines are exactly the cleaned non-empty input lines, none filtered out, in order; there is one more line when the header was synthesised; the first line is a declaration; and every line is clean |
| LibGemini.CleanLineBasicShape | src/lib/gemini.ts:72-75 | every cleaned line is quote-free, single-spaced, trimmed and one line |
| LibGemini.CollapsedSingleSpaced | src/lib/gemini.ts:74 | collapsing whitespace leaves single plain spaces only |
| LibGemini.CollapsedNoQuote | src/lib/gemini.ts:74 | collapsing whitespace brings in no quote |
| LibGemini.TrimmedBasic | src/lib/gemini.ts:74 | trimming a quote-free single-spaced text leaves a clean single line |
| LibGemini.CleanLineBasicKeepsKeyword | src/lib/gemini.ts:74 | a declaration line is still a declaration once cleaned |
| LibGemini.QuoteOnlyLine | src/lib/gemini.ts:64-74 | a line of nothing but quotes passes the empty-line filter and comes out empty |
| LibGemini.GenerateFlowChartHeaded | src/lib/gemini.ts:64-84 | whatever the reply, success or failure, the first line of the diagram is a declaration |
| LibGemini.FallbackJoin | src/lib/gemini.ts:81-84 | the fallback diagram is its four lines joined by line breaks |
| LibGemini.FallbackLines | src/lib/gemini.ts:81-84 | the fallback diagram consists of exactly its declaration and three edge lines |
| Fences.RemoveFence | src/services/gemini.ts:112 | removing a fence mark never lengthens the text |
| Fences.RemoveFenceAll | src/services/gemini.ts:112 | fence removal only deletes: any property every character had survives |
| Fences.RemoveFencePlain | src/services/gemini.ts:112 | text without backticks passes a backtick mark untouched |
| Fences.RemoveFenceOpening | src/services/gemini.ts:112 | an opening mark with its optional line break disappears entirely |
| Fences.RemoveFenceClosing | src/services/gemini.ts:112 | the closing fence alone disappears |
| Fences.RemoveFenceNoTriple | src/services/gemini.ts:112 | after removing every "```" with its optional newline, no three backticks are left in a row |
| Fences.StripMermaidFencesNoTriple | src/services/gemini.ts:112 | no code fence survives in the diagram text |
| Fences.StripMermaidFencesPlain | src/services/gemini.ts:112 | text without backticks is only trimmed |
| Fences.StripMermaidFencesBlock | src/services/gemini.ts:112 | a fenced Mermaid block gives back exactly its body, trimmed |
| Fences.RemoveJsonFence | src/lib/featureFlowcharts.ts:243 | removing JSON fences never lengthens the text |
| Fences.RemoveJsonFencePlain | src/lib/featureFlowcharts.ts:243 | backtick-free text passes through, provided what follows cannot complete a closing fence |
| Fences.StripJsonFencesPlain | src/lib/featureFlowcharts.ts:243 | text without backticks is only trimmed |
| Fences.StripJsonFencesBlock | src/lib/featureFlowcharts.ts:243 | a fenced JSON block gives back exactly its body, trimmed |
| GeminiService.HistoryLineLabel | src/services/gemini.ts:8-10 | a history line starts with `User: ` exactly for user messages and with `AI: ` exactly for the others, followed by the content |
| GeminiService.ConversationHistoryEmpty | src/services/gemini.ts:8-10 | an empty transcript gives an empty history |
| GeminiService.ConversationHistoryLines | src/services/gemini.ts:8-10 | with single-line messages, the history has one line per message, in order |
| GeminiService.SendGeminiMessage | src/services/gemini.ts:6-67 | success exactly when the endpoint answered; a successful reply is never empty; a missing or empty text gives the default reply; and a failure carries the error's text |
| GeminiService.FeaturesTextParts | src/services/gemini.ts:71 | the `, `-joined phrase splits back into the selected features when none holds a comma |
| GeminiService.GenerateFlowchartFromChatLog | src/services/gemini.ts:69-119 | success exactly when the endpoint answered, and a failure carries the error's text |
| GeminiService.FlowchartCodeClean | src/services/gemini.ts:112 | the diagram handed back holds no code fence and is already trimmed |
| GeminiService.FlowchartMissingCandidate | src/services/gemini.ts:110-114 | a missing or empty candidate gives an empty diagram with success |
| GeminiService.FlowchartFencedReply | src/services/gemini.ts:112 | a reply that is one fenced Mermaid block gives back the trimmed body |
| GeneralChat.Tag | ai/src/services/gemini-general.ts:63 | a tag has the form `[SUGGEST_MODE:name]` with the mode name right after the opening |
| GeneralChat.TagAt | ai/src/services/gemini-general.ts:63 | the mode found at a position is one whose tag occurs there, and no tag occurs where none is found |
| GeneralChat.TagsDiffer | ai/src/services/gemini-general.ts:63 | at most one of the five alternatives can match at a position |
| GeneralChat.TagAtTag | ai/src/services/gemini-general.ts:63 | the tag of each mode is recognised as that mode |
| GeneralChat.FirstTag | ai/src/services/gemini-general.ts:64 | `match` finds the leftmost tag position, and reports none exactly when no position holds a tag |
| GeneralChat.FirstTagAt | ai/src/services/gemini-general.ts:64 | the scan stops at the first position that holds a tag |
| GeneralChat.ParseReply | ai/src/services/gemini-general.ts:63-77 | without a tag the text is returned unchanged with the mode `general` |
| GeneralChat.ParseTagged | ai/src/services/gemini-general.ts:69-71 | whatever precedes the first tag (a `[` of a link included) as long as no tag starts there, the mode is that tag's, only that tag is cut out (a later one stays), and the rest is trimmed |
| GeneralChat.ParseTaggedPlain | ai/src/services/gemini-general.ts:63-71 | a reply with no `[` before its tag is parsed to the tag's mode and the trimmed rest |
| GeneralChat.ParseTaggedAfterLink | ai/src/services/gemini-general.ts:63-71 | a markdown link before the tag does not hide it: the tag's mode is suggested and the link stays in the message |
| GeneralChat.ParseUntagged | ai/src/services/gemini-general.ts:66-67 | a reply without a tag keeps its text untrimmed and suggests `general` |
| GeneralChat.NoTagAnywhere | ai/src/services/gemini-general.ts:66-77 | if no position holds a tag, the reply is returned as it came |
| GeneralChat.UntaggedAround | ai/src/services/gemini-general.ts:63-77 | a single `[` that opens no tag leaves the reply untouched |
| GeneralChat.CapitalisedAt | ai/src/services/gemini-general.ts:63 | `[SUGGEST_MODE:Coach]` is not a tag |
| GeneralChat.CapitalisedNotRecognised | ai/src/services/gemini-general.ts:63 | matching is case-sensitive: a capitalised name stays in the message and the mode is `general` |
| GeneralChat.SendGeneralMessage | ai/src/services/gemini-general.ts:46-81 | success exactly when the model replied, and every failure becomes the one error `Failed to get response from General Chat mode` |
| FormatResponse.FormatAIResponse | src/utils/formatResponse.ts:3-89 | one block per `\n`-separated line |
| FormatResponse.FormatAIResponseCount | src/utils/formatResponse.ts:4-86 | there is one more block than there are line breaks, and block `i` classifies line `i` |
| FormatResponse.FormatLine | src/utils/formatResponse.ts:7-85 | a line is a spacer exactly when it is blank; paragraphs and emoji headings hold the trimmed line; a bullet holds the trimmed line minus its first two characters |
| FormatResponse.BoldPieces | src/utils/formatResponse.ts:21-29 | the `**` parts give at most one piece each |
| FormatResponse.FormatLinePieces | src/utils/formatResponse.ts:17-29 | a line with `**` becomes the pieces of its trimmed text split at `**` |
| FormatResponse.RenderBoldPieces | src/utils/formatResponse.ts:21-29 | with the markers put back, the pieces rebuild the parts joined by `**`, plus one closing `**` when the count is odd: dropping empty plain parts loses nothing |
| FormatResponse.BoldTextRoundTrip | src/utils/formatResponse.ts:18-29 | the pieces of any text, rendered, give the text back, with one `**` more when the markers are unbalanced |
| FormatResponse.BoldLineRoundTrip | src/utils/formatResponse.ts:17-29 | the pieces of a `**` line rebuild its trimmed text, with one extra `**` when the markers are unbalanced |
| FormatResponse.BoldPiecesBold | src/utils/formatResponse.ts:21-29 | the bold pieces are exactly the odd-indexed parts, empty ones included, in order |
| FormatResponse.BoldLineBoldParts | src/utils/formatResponse.ts:17-29 | the bold texts of a line are its odd-indexed `**` parts |
| FormatResponse.BoldBeforeBullet | src/utils/formatResponse.ts:17-38 | the bold branch comes before the bullet branch: a `- ` line with `**` becomes pieces |
| FormatResponse.MisEncodedBullet | src/utils/formatResponse.ts:38-39 | a trimmed line `â€¢ x` without stars is the bullet `¢ x`: the prefix test matches, and `substring(2)` leaves the mark's last character |
| FormatResponse.RealBulletNotBullet | src/utils/formatResponse.ts:38 | a line starting with a real `•` is never a bullet |
| FormatResponse.NotBulletAfterDigit | src/utils/formatResponse.ts:38 | a line starting with a digit is never a bullet |
| FormatResponse.FormatLineTrimmed | src/utils/formatResponse.ts:8-85 | a line without whitespace at its ends is shown unchanged as a paragraph, or without its first two characters as a bullet |
| FormatResponse.LineRun | src/utils/formatResponse.ts:53 | a greedy `.+` reaches exactly to the first line terminator |
| FormatResponse.NumberedMatch | src/utils/formatResponse.ts:53 | a match of `^(\d+)\.\s+(.+)` yields a non-empty run of digits and a non-empty text |
| FormatResponse.NumberedMatchOf | src/utils/formatResponse.ts:53 | `digits. text` matches with exactly those digits and that text |
| FormatResponse.FormatLineNumbered | src/utils/formatResponse.ts:53-55 | a trimmed line that is not blank, bold or a bullet is shown numbered when the pattern matches |
| FormatResponse.NumberedRoundTrip | src/utils/formatResponse.ts:53-64 | `n. text` is read back as the number `n` and the text |
| Brainstorming.CloseAt | src/components/BrainstormingChat.tsx:15 | where the lazy match closes, the delimiter fits in the text |
| Brainstorming.CloseAtSpec | src/components/BrainstormingChat.tsx:15 | the lazy match ends at the first occurrence of the delimiter, with no line terminator before it; when it finds none, the delimiter occurs nowhere before the first line terminator |
| Brainstorming.CloseAtBreak | src/components/BrainstormingChat.tsx:15 | the lazy match never looks past a line break |
| Brainstorming.CloseAtPlain | src/components/BrainstormingChat.tsx:15 | a single line free of the delimiter's first character is matched up to the delimiter that follows it |
| Brainstorming.PairsBreak | src/components/BrainstormingChat.tsx:15-16 | each span replacement treats the text on either side of a line break separately |
| Brainstorming.PairsSpan | src/components/BrainstormingChat.tsx:15-16 | a delimited span on one line is replaced by the tagged span, and the scan goes on after its closing delimiter |
| Brainstorming.PairsPlainPrefix | src/components/BrainstormingChat.tsx:15-16 | text free of the delimiter's first character passes through unchanged |
| Brainstorming.FormatNoNewline | src/components/BrainstormingChat.tsx:13-18 | the formatted reply contains no `\n`: every one became `<br />` |
| Brainstorming.FormatLines | src/components/BrainstormingChat.tsx:13-18 | lines are formatted separately and joined with `<br />`: no span reaches across a line |
| Brainstorming.FormatPlain | src/components/BrainstormingChat.tsx:13-18 | text without stars or line breaks is shown as it is |
| Brainstorming.FormatBoldSpan | src/components/BrainstormingChat.tsx:15 | `**x**` becomes a `<strong>` span, and formatting goes on after it |
| Brainstorming.BoldPassKeepsStarSpan | src/components/BrainstormingChat.tsx:15-16 | a single-star span passes the bold replacement unchanged |
| Brainstorming.FormatItalicSpan | src/components/BrainstormingChat.tsx:16 | `*x*` becomes an `<em>` span, and formatting goes on after it |
| Brainstorming.Greet | src/components/BrainstormingChat.tsx:29-37 | an empty transcript gets the welcome message from the model, and a non-empty one is kept |
| Brainstorming.GreetingAlternates | src/components/BrainstormingChat.tsx:29-37 | the greeted transcript alternates |
| Brainstorming.BeginSend | src/components/BrainstormingChat.tsx:42-50 | the trimmed text is appended as the user's message, the box is cleared and the chat waits |
| Brainstorming.ReplyText | src/components/BrainstormingChat.tsx:54-66 | the reply appended is never empty: the service's response when it has one, the apology otherwise |
| Brainstorming.FinishSend | src/components/BrainstormingChat.tsx:52-68 | exactly one model message is appended and the chat is free again |
| Brainstorming.Send | src/components/BrainstormingChat.tsx:39-69 | a send with no text or while loading does nothing; otherwise exactly the user's trimmed message and one reply are appended after the unchanged transcript, and the reply is what the service answered when asked with the transcript before the new message and the trimmed text |
| Brainstorming.PendingBlocksSend | src/components/BrainstormingChat.tsx:40 | while an answer is pending, nothing more can be sent |
| Brainstorming.SentMessageTrimmed | src/components/BrainstormingChat.tsx:44 | the message sent is non-empty and trimmed |
| Brainstorming.SendKeepsAlternating | src/components/BrainstormingChat.tsx:39-69 | a send keeps the transcript alternating between model and user |
| Brainstorming.ConverseKeepsAlternating | src/components/BrainstormingChat.tsx:20-69 | however the user types and sends, the transcript keeps alternating |
| IdeaChat.ReplyMessage | src/components/LandingPage.tsx:19-27 | the model's reply, or the fixed apology when the call failed |
| IdeaChat.Submit | src/components/LandingPage.tsx:10-30 | a submit with no text or while loading does nothing; otherwise the trimmed message and one reply are appended, the box is cleared and loading ends |
| IdeaChat.SubmittedMessageTrimmed | src/components/LandingPage.tsx:12-16 | the message sent is non-empty and trimmed |
| IdeaChat.SubmitTwiceOnce | src/components/LandingPage.tsx:12-15 | submitting again without typing does nothing |
| IdeaChat.SubmitKeepsPaired | src/components/LandingPage.tsx:14-27 | the conversation stays user/model pairs |
| IdeaChat.Title | src/components/IdeaInput.tsx:30 | the title has at most 53 characters: the message when it is at most 50 long, otherwise 50 characters and `...` |
| IdeaChat.TitleKeepsStart | src/components/IdeaInput.tsx:30 | the title starts with the message's first 50 characters, or the whole message when it is shorter |
| IdeaChat.TitleIdempotent | src/components/IdeaInput.tsx:30 | a title is its own title |
| IdeaChat.SubmitIdea | src/components/IdeaInput.tsx:14-45 | the conversation moves as on the landing page; an idea is created exactly when the model answered, with status `flow`, the trimmed message as description, its title, and the clock as id |
| IdeaChat.IdeaMatchesConversation | src/components/IdeaInput.tsx:18-32 | the idea's description is the user's message in the conversation, and the model's reply follows it |
| IdeaChat.IdeaIdReadsBack | src/components/IdeaInput.tsx:29 | the id reads back as the clock value it was made from |
| ModeChat.Answer | ai/src/App.tsx:43-68 | success exactly when the service answered; the personas pass their reply through with no suggestion; the general mode yields the parsed message and its suggested mode |
| ModeChat.SwitchTo | ai/src/App.tsx:77 | a switch is scheduled exactly for a suggestion other than `general` and other than the current mode |
| ModeChat.SendMessage | ai/src/App.tsx:32-96 | the mode is unchanged and loading and the banner end cleared; exactly the user message and one model message are appended; the reply shown is what the mode's service answered (parsed in `general`) when given the transcript without the new message, and the fixed apology when it threw |
| ModeChat.PersonasNeverSuggest | ai/src/App.tsx:44-65 | outside the general mode, a send schedules nothing |
| ModeChat.ScheduledLeadsElsewhere | ai/src/App.tsx:77 | a scheduled switch always leads away from the current mode and never to `general` |
| ModeChat.TaggedReplySchedules | ai/src/App.tsx:48-77 | a tagged general reply schedules the tag's mode and shows the text without the tag, trimmed |
| ModeChat.GeneralTagSchedulesNothing | ai/src/App.tsx:77 | a tag suggesting `general` schedules nothing |
| ModeChat.ShowSwitch | ai/src/App.tsx:78-79 | the first timer shows the banner and changes nothing else |
| ModeChat.ApplySwitch | ai/src/App.tsx:80-83 | the second timer switches to the scheduled mode and hides the banner |
| ModeChat.SwitchCompletes | ai/src/App.tsx:77-84 | once both timers fire, the chat is in the suggested mode with the banner gone |
| ModeChat.ChangeMode | ai/src/App.tsx:98-101 | a manual change sets the mode, hides the banner and keeps the transcript |
| Wizard.CreateApp | src/App.tsx:19-21 | moves to brainstorming and changes nothing else |
| Wizard.EndBrainstorming | src/App.tsx:23-25 | moves to the vision/mission step and changes nothing else |
| Wizard.SubmitVisionMission | src/App.tsx:27-30 | stores the pair and moves to feature selection, changing nothing else |
| Wizard.SelectFeatures | src/App.tsx:32-51 | the flowchart step is reached exactly on success with a non-empty diagram, which is stored; otherwise only the busy flag changes; the flag ends cleared on every path |
| Wizard.Restart | src/App.tsx:53-59 | everything returns to the initial state |
| Wizard.UpdateMessages | src/App.tsx:69 | the chat replaces the transcript and the step stays |
| Wizard.ChatLogLines | src/App.tsx:35 | with single-line messages, the chat log has one `role: content` line per message, in order |
| Wizard.LogLineRole | src/App.tsx:35 | each log line names its author: `user: ` exactly for the user, `ai: ` exactly for the model |
| Wizard.OfferedMovesForward | src/App.tsx:61-88 | the callbacks a step's screen offers keep the step or move to the next one, and feature selection reaches the flowchart exactly on a non-empty diagram |
| Wizard.OfferedKeepsConsistent | src/App.tsx:61-88 | an offered callback keeps the wizard consistent: a pair stored from feature selection on, a diagram at the flowchart, nothing left generating |
| Wizard.RunConsistent | src/App.tsx:61-88 | every sequence of offered callbacks keeps the wizard consistent |
| Wizard.ReachableConsistent | src/App.tsx:13-88 | every state reachable from the initial one is consistent |
| Wizard.HappyPath | src/App.tsx:13-51 | called in order, the four forward callbacks `App.tsx` wires reach the flowchart with the submitted pair and the diagram |
| Wizard.LiveRunIsRun | src/App.tsx:61-88 | what the screens call is among the callbacks `renderCurrentStep` hands them, so the consistency results hold for the running app |
| Wizard.StuckAtLanding | src/App.tsx:61-64 | since the landing page takes no props, no callback is ever called from it, and the running wizard stays in its initial state |
| Selection.Without | src/components/FeatureSelection.tsx:98 | filtering removes every occurrence of the id |
| Selection.ToggleFlips | src/components/FeatureSelection.tsx:95-101 | the toggled id changes membership, and every other id keeps its membership |
| Selection.ToggleKeepsOthers | src/components/FeatureSelection.tsx:96-100 | leaving the toggled id aside, the selection is the same list, order included |
| Selection.WithoutAbsent | src/components/FeatureSelection.tsx:98 | filtering an absent id changes nothing |
| Selection.ToggleTwiceAbsent | src/components/FeatureSelection.tsx:97-99 | selecting and then deselecting an absent id restores the list exactly |
| Selection.ToggleTwicePresent | src/components/FeatureSelection.tsx:97-99 | deselecting and reselecting a present id moves it, once, to the end |
| Selection.FallbackIds | src/components/FeatureSelection.tsx:17-58 | the fallback features carry the eight ids, in order |
| Selection.FallbackIdsDistinct | src/components/FeatureSelection.tsx:17-58 | the eight fallback features have pairwise different ids |
| Selection.FallbackIdListDistinct | src/components/FeatureSelection.tsx:17-58 | the fallback ids are pairwise different |
| Selection.OfferedFeatures | src/components/FeatureSelection.tsx:66-93 | the personalised list is offered exactly when there is a non-blank chat log and the call succeeded with at least one feature; otherwise the fallback; the list offered is never empty |
| Selection.BlankLogFallback | src/components/FeatureSelection.tsx:68-89 | with a blank chat log the fallback is shown whatever the model would say |
| Selection.GenerateFlowchart | src/components/FeatureSelection.tsx:103-110 | the callback fires exactly for a non-empty selection, receiving it unchanged and setting the busy flag; an empty selection leaves the flag as it was |
| Selection.OneToggleGenerates | src/components/FeatureSelection.tsx:95-110 | toggling one feature on from nothing is enough to generate with exactly that feature |
| Selection.Complete | src/components/OnboardingModal.tsx:27-39 | something is stored exactly for a non-empty selection, with the completion flag `true`, so the dialog cannot be dismissed without a choice |
| Selection.StoredTypesRoundTrip | src/components/OnboardingModal.tsx:32 | the stored preference splits back into the selection when no id holds a comma |
| Selection.AppTypesRoundTrip | src/components/OnboardingModal.tsx:8-32 | any selection of the offered app types round-trips through the stored preference |
| FeatureManager.MarkGenerated | src/components/FeatureManager.tsx:28-32 | the list keeps its length; the features with the generated id get the diagram and are marked generated, the others are unchanged |
| FeatureManager.MarkGeneratedKeepsIds | src/components/FeatureManager.tsx:28-32 | the ids, in order, are those of the original roadmap |
| FeatureManager.MarkGeneratedIdempotent | src/components/FeatureManager.tsx:28-32 | attaching the same diagram again changes nothing |
| FeatureManager.AllFeaturesGeneratedIff | src/components/FeatureManager.tsx:53 | `every` holds exactly when each feature is generated, so an empty roadmap counts as done |
| FeatureManager.MarkGeneratedCompletes | src/components/FeatureManager.tsx:28-53 | generating the last missing feature completes the roadmap |
| FeatureManager.HandleGenerateFeatureFlowchart | src/components/FeatureManager.tsx:24-39 | the list is handed up exactly on success, with only the matching features changed and given the normalised diagram; the spinner ends cleared |
| FeatureManager.AttachedDiagramDeclared | src/components/FeatureManager.tsx:27-33 | every diagram attached to a feature starts with a declaration |
| FeatureManager.OverlapLosesDiagram | src/components/FeatureManager.tsx:24-33 | two overlapping generations each start from the list they captured, so the later one hands up a list without the earlier diagram and the roadmap is not complete |
| FeatureManager.HandleGenerateFinalFlowchart | src/components/FeatureManager.tsx:41-51 | the final diagram is delivered exactly on success, normalised, and the busy flag ends cleared |
| FeatureManager.FinalDiagramShape | src/components/FeatureManager.tsx:44-45 | the delivered final diagram has the normalised shape |
| Forms.SubmitVisionMission | src/components/VisionMissionForm.tsx:13-20 | the pair is handed up exactly when both fields are non-blank, which is exactly when the button is enabled, and both values are trimmed |
| Forms.SubmittedIsFixed | src/components/VisionMissionForm.tsx:15-16 | submitting what was submitted gives the same pair |
| Forms.SubmittedIsTrimmed | src/components/VisionMissionForm.tsx:16 | the submitted texts neither start nor end with whitespace |
| Forms.SubmitMessage | ai/src/components/ChatInput.tsx:12-32 | a message is sent exactly when the button is enabled; the trimmed text is sent and the box cleared; otherwise the box is untouched |
| Forms.SentMessageClean | ai/src/components/ChatInput.tsx:14-15 | a sent message is non-empty and trimmed |
| Forms.SubmitTwiceSendsOnce | ai/src/components/ChatInput.tsx:12-18 | a second submit right after a send sends nothing |
| AppView.NextScreen | src/components/AppView.tsx:37 | for a non-negative index the next index is within the screens |
| AppView.PrevScreen | src/components/AppView.tsx:41 | for a non-negative index the previous index is within the screens |
| AppView.NextPrevInverse | src/components/AppView.tsx:36-42 | inside the range the two buttons undo each other |
| AppView.AdvanceIsModular | src/components/AppView.tsx:36-38 | `k` presses of the next button move `k` places round the ring |
| AppView.AdvanceFullCycle | src/components/AppView.tsx:36-38 | going all the way round returns to the same screen |
| AppView.Step | src/components/AppView.tsx:36-177 | clicks never change the screens, nothing moves without screens, and a tab sets the index to its position |
| AppView.StepKeepsValid | src/components/AppView.tsx:55-61 | because the arrows are shown only when there are screens, clicks keep the index on a screen |
| AppView.RunKeepsValid | src/components/AppView.tsx:36-61 | any sequence of clicks keeps the index on a screen |
| AppView.Load | src/components/AppView.tsx:22-34 | a stored build with a `screens` array replaces the screens, and the index is kept |
| AppView.FirstLoadValid | src/components/AppView.tsx:11-34 | the first load leaves the index valid |
| AppView.ReloadCanLeaveRange | src/components/AppView.tsx:16-34 | a reload with fewer screens can leave the kept index past the end |
| PublishModal.Tick | src/components/PublishModal.tsx:19-27 | a tick advances the stage by one while stages are left and never beyond |
| PublishModal.TicksBounded | src/components/PublishModal.tsx:9-29 | after `k` ticks the stage is `min(k, 5)`, and the run is complete exactly from the fifth tick on |
| PublishModal.CompleteIsFinal | src/components/PublishModal.tsx:20-29 | once complete, the stage no longer moves |
| PublishModal.RowStatus | src/components/PublishModal.tsx:61-63 | a row is done exactly before the stage and current exactly at it |
| PublishModal.DoneCountIsStage | src/components/PublishModal.tsx:61-62 | as many rows are done as the stage number |
| PublishModal.OneCurrentRow | src/components/PublishModal.tsx:61-63 | exactly one row is current while running, and none once complete |
| PublishModal.ElapsedTotal | src/components/PublishModal.tsx:11-17 | the timers take nine seconds in all, each stage adding its own wait |
| Dashboard.IdeaCreated | src/components/Dashboard.tsx:12-16 | a new idea goes first, becomes current, and the flow view opens |
| Dashboard.ViewOf | src/components/Dashboard.tsx:63 | the view is the idea's status when it has one, `idea` otherwise, and never empty |
| Dashboard.SelectIdea | src/components/Dashboard.tsx:61-63 | clicking an idea makes it current and opens its view, keeping the list |
| Dashboard.Step | src/components/Dashboard.tsx:12-86 | each kind of click does what its handler does: a menu item opens its view, an idea is selected, a created idea is added |
| Dashboard.InitialConsistent | src/components/Dashboard.tsx:8-10 | the initial dashboard is consistent |
| Dashboard.StepKeepsConsistent | src/components/Dashboard.tsx:12-86 | every click keeps the current idea in the list and the view a menu id |
| Dashboard.RunKeepsConsistent | src/components/Dashboard.tsx:12-86 | any sequence of clicks keeps the dashboard consistent |
| Dashboard.RunKeepsIdeas | src/components/Dashboard.tsx:12-16 | ideas are never removed: the list only grows at the front |
| MonitorView.SessionSplit | src/components/MonitorView.tsx:138 | for a non-negative time the minutes and seconds shown add back up to it, with the seconds below 60 |
| MonitorView.NegativeSplitDisagrees | src/components/MonitorView.tsx:138 | for `-30` the display shows `-1` minutes and `-30` seconds, which do not add back up |
| MonitorView.BarColour | src/components/MonitorView.tsx:157-161 | red exactly above 20, orange exactly above 10 up to 20, green otherwise |
| MonitorView.ColourMonotone | src/components/MonitorView.tsx:157-161 | a higher drop-off rate never shows a milder colour |
| MonitorView.ColourFromWidth | src/components/MonitorView.tsx:157-163 | the colour can be read from the bar width: red above 80%, orange above 40% |
| MonitorView.PendingList | src/components/MonitorView.tsx:190-191 | the first list shows only pending suggestions |
| MonitorView.PreviousList | src/components/MonitorView.tsx:234-235 | the second list shows only suggestions acted on |
| MonitorView.ListsPartition | src/components/MonitorView.tsx:190-235 | the two lists show every suggestion exactly once, each keeping the stored order |
| MonitorView.HeaderShownIff | src/components/MonitorView.tsx:229 | the "Previous Actions" header is shown exactly when some suggestion was acted on |
| MonitorView.SetStatus | src/components/MonitorView.tsx:55 | the rows with the id take the action's status, and the other rows are unchanged |
| MonitorView.Act | src/components/MonitorView.tsx:48-67 | the rows are updated; a preference is recorded exactly for an applied suggestion whose stored row was found, with that row's type |
| MonitorView.ActedLeavesPending | src/components/MonitorView.tsx:48-66 | after an action no suggestion with that id is pending, and the header is shown |
| Numbers.JsRem | src/components/MonitorView.tsx:138 | the remainder has the dividend's sign and is smaller than the divisor in size |
| Numbers.JsRemOdd | src/components/MonitorView.tsx:138 | negating the dividend negates the remainder, as truncation toward zero does |
| Numbers.JsRemNatural | src/components/MonitorView.tsx:138 | on a non-negative dividend the truncating remainder is the usual one |
| Storage.UpperCaseSpec | src/services/supabase.ts:125 | upper-casing leaves no lower-case letter, changes nothing else and is idempotent |
| Storage.UpperCaseRoles | src/services/supabase.ts:125 | `user` becomes `USER` and `assistant` becomes `ASSISTANT` |
| Storage.Speaker | src/services/supabase.ts:108 | the speaker is `USER` exactly for the role `user`, and `AI_ASSISTANT` otherwise |
| Storage.HistoryFrom | src/services/supabase.ts:106-111 | one record per message, numbered on, with the message's speaker, timestamp and content |
| Storage.HistoryKeepsMessages | src/services/supabase.ts:106-111 | the history keeps every message's content in order, numbered 1, 2, 3, … |
| Storage.JoinBlankLine | src/services/supabase.ts:124-126 | joining by a blank line is joining with an empty line between the entries |
| Storage.FormattedConversationLines | src/services/supabase.ts:124-126 | read line by line, the formatted conversation gives each `ROLE: content` line with a blank line between |
| Storage.RoleCountsDisjoint | src/services/supabase.ts:140-141 | no message counts both as the user's and as the assistant's |
| Storage.Summarize | src/services/supabase.ts:138-145 | the total is the transcript length and user plus assistant counts stay within it; the vision flag, feature count and flowchart flag follow the data's presence and truthiness |
| Storage.SummaryMatchesHistory | src/services/supabase.ts:106-141 | the summary's counts are those of the history written beside it |
| Storage.CompleteData | src/services/supabase.ts:113-146 | the record has version `2.0`, a history as long as the message count, code exactly when the flowchart flag is set, and a feature count equal to the features stored |
| Storage.SaveChatLog | src/services/supabase.ts:9-53 | a save succeeds exactly when the upload or the local fallback does; the shared file is written, with this user's log, exactly when the upload succeeded; the local copy is written only when the upload failed |
| Storage.ReadLocal | src/services/supabase.ts:69-76 | a local copy is found exactly when storage works and holds a non-empty text under the user's key |
| Storage.GetChatLog | src/services/supabase.ts:55-94 | the bucket's copy comes first, then the local one, then `No chat log found`; a bucket file without a `chatLog` field gives success with no data |
| Storage.LocalFallbackRoundTrip | src/services/supabase.ts:30-76 | a log saved locally because the upload failed reads back when the bucket has none |
| Storage.UploadedLogReadsBack | src/services/supabase.ts:23-65 | an uploaded chat log is what the next read finds, whichever user reads it |
| Storage.AppDataHidesChatLog | src/services/supabase.ts:58-65 | after an app-data save the read succeeds with no data, whatever the local copy holds |
| Storage.EmptyLogReadsAsMissing | src/services/supabase.ts:34-74 | an empty log is saved successfully but reads back as missing |
| Storage.SaveAppData | src/services/supabase.ts:152-170 | success exactly when the upload succeeds, in which case the complete record is written; there is no local fallback |
| Text.Trim | src/lib/featureFlowcharts.ts:71 | the result is the slice between the leading and trailing whitespace, starts and ends with non-space, and is empty exactly for blank text |
| Text.TrimUnique | src/lib/featureFlowcharts.ts:71 | whatever whitespace surrounds a text, trimming gives the text back |
| Text.SplitCount | src/utils/formatResponse.ts:4 | `split` yields one piece more than there are separators |
| Text.SplitJoin | src/services/gemini.ts:8-10 | splitting what `join` produced gives the parts back when none holds the separator |
| Text.JoinSplitOn | src/utils/formatResponse.ts:18 | joining what `split` produced gives the text back |
| Text.ReplaceCharMatches | src/components/BrainstormingChat.tsx:17 | a global replace of one character is the character-by-character replacement |
| Text.DecimalRoundTrip | src/components/IdeaInput.tsx:29 | the decimal notation of a number reads back as that number |
| Text.DecimalInjective | src/lib/featureFlowcharts.ts:247 | different numbers have different decimal notations |

## Left out

- Model calls, `fetch` and the Supabase client: their outcomes are parameters (`Result`, `Exchange`, `Upload`, `Download`, `LocalStore`). Where the arguments of a call matter, the call is a function parameter (`ModeChat.Service`, `Brainstorming.Service`), so the contracts say what it was asked. The prompt texts are not modelled, since nothing in the code reads them back.
- `JSON.parse` of a reply in `suggestFeatures` and in `getChatLogFromStorage`: it is the `parse` parameter or the `Download` outcome, because a JSON parser is a foreign library.
- The four persona services (`gemini-therapist.ts`, `gemini-friend.ts`, `gemini-coach.ts`, `gemini-moderator.ts`): they only call the SDK, so the service of each mode is the `ask` function parameter of `ModeChat.SendMessage`.
- Timers: the delays in `ai/src/App.tsx`, `PublishModal.tsx` and `OnboardingModal.tsx` are left out, and only the state changes of their callbacks are modelled. `ModeChat.ChangeMode` does not cancel a pending switch, as in the code.
- Clocks: `Date.now()` and `new Date()` are parameters (`now`, `createdAt`), because they are not deterministic.
- Rendering: React, JSX, CSS, Mermaid rendering and SVG export, and the display-only components (`FlowChart`, `FlowchartDisplay`, `FlowView`, `WireframeView`, `ResultPage`, `ModeSelector`, `ChatMessage`, `TypingIndicator`) are left out. `formatAIResponse` returns a datatype of line kinds instead of React nodes.
- `getCompleteAppDataFromStorage` is left out: it only downloads and parses.
- The API-key guard at `src/lib/gemini.ts:5-7` is configuration.
- `generatePersonalizedFeatures`, imported by `FeatureSelection.tsx`, is not part of this model: the service file does not define it, so its outcome is a parameter of `Selection.OfferedFeatures`.
- Storage.UpperCase: only ASCII letters are upper-cased; the full Unicode mapping of `toUpperCase` (such as `ß` to `SS`) is not modelled, because the roles it is applied to are ASCII.
- MonitorView.SessionSplit: only whole numbers of seconds are modelled; a fractional average session time is not, because it needs floating point.
- Text.IsSpace and the other string functions work on Unicode code points, while JavaScript strings are sequences of UTF-16 code units. The two agree on text without characters above U+FFFF.
- IdeaChat.Title: counts code points where `.length > 50` and `slice(0, 50)` count UTF-16 code units. Thirty emoji are 60 code units, which the code truncates to 25 emoji and `...`, but the model keeps whole. A cut through a surrogate pair cannot be represented as a Dafny string.
- Storage.SaveChatLog: the `timestamp` and `generatedAt` fields of the uploaded document are left out, because they come from the clock and nothing reads them back.
- FeatureManager.HandleGenerateFeatureFlowchart: each async handler is one atomic step from click to `finally`, and interleavings are not modelled. Two overlapping generations lose the earlier diagram (`FeatureManager.OverlapLosesDiagram`). The first `finally` clearing the spinner of a generation still pending is not modelled, because `loadingFeatureId` is only modelled after a handler ends.
- ModeChat.SendMessage: `scheduled` holds one pending switch, so a later suggestion replaces an earlier one. The code runs a timer chain per suggestion, so it first switches to the earlier mode and then to the later one. The intermediate switch is not modelled, because timers are modelled only by what their callbacks do.
- FormatResponse.NumberedMatch: it assumes the line has no trailing whitespace, which holds because the classifier only sees trimmed lines.
