# Lab-exam dashboard: a verified model of its decision rules

The dashboard compares a patient's laboratory results from two collection
dates (September and December 2025). It shows one card per exam, or a table
row per exam, filtered by exam category. Each value is coloured by the
free-text status the data carries. A chat panel forwards questions to a
generative-AI service and shows the replies.

This project models the logic of that page with the rendering stripped away.
Colours, icons and HTML fragments are tags.

- `types.dfy` (`Types`): the exam record model. It holds the four trends, the
  nine categories with their Portuguese labels, and the two-slot
  `ExamDataPoint`. Each value slot is `Numeric | Qualitative | Missing`. The
  module also holds the analysis bundle and the chat message.
- `text.dfy` (`Text`): the JavaScript string operations the rules rely on.
  - `includes` is a left-to-right scan, proved equal to "occurs at some
    position".
  - `toLowerCase` works character by character.
  - `trim` uses the JavaScript white-space and line-terminator set.
- `metric_card.dfy` (`MetricCard`): the card for one record. It covers the
  three-tier status colour, chart eligibility, the two chart points, the
  placeholder text, the trend icon with its HDL inversion, the
  "not measured" slot and the CPK alert banner.
- `app.dfy` (`App`): the page.
  - The ten filter buttons.
  - The filter, proved to keep exactly the matching records, in order.
  - The table's two-tier colour rule, related to the card's rule.
  - A `Dashboard` class holding the selected category and the view mode.
- `gemini_service.dfy` (`GeminiService`): the chat service as a `ChatService`
  class. It keeps one memoised session, created lazily and only when an API key
  exists, and maps every client outcome to a reply string.
  - The client is an oracle. Each operation receives the creation result
    (`Created(session) | Failed`) and the exchange result
    (`Reply(text) | EmptyReply | Failure`) as arguments.
  - A ghost log records the calls made to the client.
  - `Run` and its lemmas describe whole sequences of calls.
- `ai_chat.dfy` (`AIChat`): the chat panel as a `ChatPanel` class. It holds the
  transcript, the input and the busy flag. The send handler is split at its
  `await`, and the Enter-key rule and the bold/newline markup of message text
  are included. The transcript invariant: the welcome message, then strictly
  alternating user and model messages, with a send pending exactly when the
  last message is the user's.

## Model

| member | source | states |
|---|---|---|
| Types.TrendName | types.ts:3-6 | Each trend's wire value is a non-empty upper-case word |
| Types.TrendIsFourValued | types.ts:2-7 | Exactly four trends, each listed once; every trend is among them and the wire names are pairwise distinct |
| Types.Label | types.ts:9-19 | Every category carries a non-empty label that is never the "Todos" filter value |
| Types.CategoryIsNineValued | types.ts:9-19 | Exactly nine categories in declaration order, every category among them, and the nine labels pairwise distinct |
| Types.RoleName | types.ts:45 | A role is rendered as "user" or "model" |
| Types.RoleIsTwoValued | types.ts:45 | A role is rendered as "user" exactly for the user and as "model" exactly for the model |
| Text.Contains | components/MetricCard.tsx:28 | The empty pattern is found in every string, and a pattern longer than the string never is |
| Text.ContainsIffOccurs | components/MetricCard.tsx:28 | The `includes` scan answers true exactly when the pattern sits at some position of the string |
| Text.ToLower | components/MetricCard.tsx:27 | Lower-casing keeps the length and maps each character on its own |
| Text.ToLowerIdempotent | components/MetricCard.tsx:27 | Lower-casing twice is the same as once |
| Text.OccursLowered | components/MetricCard.tsx:27-28 | A pattern found in the raw string is found, lower-cased, in the lower-cased string |
| Text.TrimStart | components/AIChat.tsx:29 | The result is a suffix of the input that starts with a non-space, and everything removed is white space |
| Text.TrimEnd | components/AIChat.tsx:29 | The result is a prefix of the input that ends with a non-space, and everything removed is white space |
| Text.Trim | components/AIChat.tsx:29 | The result is the contiguous part of the input left once the white space at both ends is cut off, and it neither starts nor ends with white space |
| Text.TrimEmptyIffAllSpace | components/AIChat.tsx:29 | The trimmed input is empty exactly when every character is white space |
| MetricCard.HasStringValue | components/MetricCard.tsx:18 | Some slot is a string exactly when some slot is neither a number nor null |
| MetricCard.CanShowChart | components/MetricCard.tsx:13-19 | Charted exactly for number/number, number/missing and missing/number; a string anywhere or two missing values give no chart |
| MetricCard.PointValue | components/MetricCard.tsx:22-23 | A bar is the slot's number when it is numeric, and 0 otherwise |
| MetricCard.ChartData | components/MetricCard.tsx:21-24 | Exactly two points, "Set" then "Dez", carrying each slot's bar value and date |
| MetricCard.MissingChartsAsZero | components/MetricCard.tsx:21-24 | In a chartable record a missing slot is drawn as a zero bar next to the other slot's number |
| MetricCard.ChartRegion | components/MetricCard.tsx:110-136 | The bar chart is shown iff the record is chartable. Otherwise the placeholder is "Resultado qualitativo" iff some value is a string, and "Gráfico indisponível" iff both are missing |
| MetricCard.StatusColor | components/MetricCard.tsx:26-31 | Emerald iff the lower-cased status contains an emerald keyword; amber iff it contains none of those but an amber keyword; rose iff it contains neither |
| MetricCard.KeywordsAreLowerCase | components/MetricCard.tsx:28-29 | All six keywords are fixed points of lower-casing, so they can match a lower-cased status |
| MetricCard.EmeraldAnywhere | components/MetricCard.tsx:28 | A status containing an emerald keyword in any letter case, wherever it sits, is emerald |
| MetricCard.AmberAnywhere | components/MetricCard.tsx:29 | A status containing an amber keyword in any case, and no emerald keyword, is amber |
| MetricCard.NormalBaixoIsEmerald | components/MetricCard.tsx:28-29 | Emerald takes precedence: "normal baixo" is emerald |
| MetricCard.StatusColorIgnoresCase | components/MetricCard.tsx:27 | Two statuses that agree after lower-casing get the same tier |
| MetricCard.TrendIcon | components/MetricCard.tsx:33-44 | Improved is down/emerald, worsened up/rose, stable minus/slate-400, and unknown minus/slate-300, each as an iff |
| MetricCard.EffectiveTrendIcon | components/MetricCard.tsx:46-50 | For any id other than "hdl" the icon is the direct mapping. For "hdl" it is down/rose iff the trend is worsened, and up/emerald iff it is not |
| MetricCard.HdlPolarityInverted | components/MetricCard.tsx:47-49 | For an improved or worsened trend, the HDL record's arrow points the opposite way to any other record's, in the same colour |
| MetricCard.HdlIconIgnoresValues | components/MetricCard.tsx:47-49 | The HDL icon depends on the trend alone, not on the values, statuses or dates |
| MetricCard.RenderValue | components/MetricCard.tsx:52-59 | A missing value renders as the italic "Não medido", and any other value as itself followed by the unit |
| MetricCard.SlotOf | components/MetricCard.tsx:76-93 | A slot is plain "Não medido" iff its value is missing; otherwise a badge in the tier of its own status, holding the value and unit |
| MetricCard.MissingIgnoresStatus | components/MetricCard.tsx:76-93 | A missing value looks the same whatever its status says |
| MetricCard.Card | components/MetricCard.tsx:61-142 | The card shows the effective icon, the two slots, the chart region and the observation, and shows the alert banner iff the id is "cpk" |
| App.Categories | App.tsx:13 | Ten buttons: "Todos" first, then the nine category labels in declaration order, all distinct |
| App.CategoriesCoverEveryCategory | App.tsx:13 | A string is a button exactly when it is "Todos" or some category's label |
| App.InCategory | App.tsx:17 | A record is selected only by a category button, never by "Todos" |
| App.Filter | App.tsx:17 | The filter never grows the data, and keeps only records of the data in the selected category |
| App.FilterPicksMatchIndices | App.tsx:17 | The k-th record kept is the record at the k-th matching position |
| App.MatchIndicesIncrease | App.tsx:17 | The matching positions strictly increase |
| App.MatchIndicesComplete | App.tsx:17 | A position is a matching position iff the record there is in the selected category |
| App.FilterIsMatchingSubsequence | App.tsx:17 | The filter result is the order-preserving subsequence of exactly the records in the selected category |
| App.FilterKeepsAllMatches | App.tsx:17 | A record is kept iff it is in the data and in the category, and it is kept exactly as often as it occurs |
| App.FilteredData | App.tsx:15-17 | "Todos" yields the whole dataset. Any other selection yields the filter result, so exactly the records of that category in their order and multiplicity |
| App.CategoryFiltersPartition | App.tsx:13-17 | The nine category filters partition the dataset: their sizes add up to the dataset's size |
| App.TableColor | App.tsx:129-131 | A table pill is green iff the lower-cased status contains "normal" or "negativo", and red otherwise; there is no third tier |
| App.CellOf | App.tsx:127-136 | A table cell is "-" iff the value is missing, whatever the status; otherwise a pill in the table colour with the value and unit |
| App.GreenCellIsEmeraldBadge | App.tsx:129-131 | A status that is green in the table is emerald on the card |
| App.TableIsCoarserThanCard | App.tsx:129-131 | A status the card colours amber, or emerald only through "ausentes", is red in the table |
| App.AusentesDiffers | App.tsx:129-131 | "Ausentes" is emerald on a card and red in the table |
| App.Row | App.tsx:118-152 | A row shows the record's name, reference, unit and observation, and one cell per slot, each "-" iff that value is missing |
| App.Dashboard.constructor | App.tsx:10-11 | The page starts in grid view with "Todos" selected, showing the whole dataset |
| App.Dashboard.Visible | App.tsx:98-118 | The page shows the whole dataset under "Todos"; under any valid selection otherwise, the filter result for exactly one category |
| App.Dashboard.SelectCategory | App.tsx:67 | A filter click selects that button and shows exactly the filtered data for it; the view mode is kept |
| App.Dashboard.SetViewMode | App.tsx:80-93 | A view toggle sets the mode and keeps the selection and the visible records |
| GeminiService.ReplyText | services/geminiService.ts:54-60 | A non-empty reply is returned verbatim, an empty or absent one becomes "Não consegui gerar uma resposta.", and a failure becomes the apology; never empty |
| GeminiService.Initialized | services/geminiService.ts:29-46 | Without a key, or when creation fails, the session is unchanged; with a key and a created session, that session is stored |
| GeminiService.InitCalls | services/geminiService.ts:29-46 | One creation attempt is made iff an API key exists, and none otherwise |
| GeminiService.SendStep | services/geminiService.ts:48-61 | An existing session gets the message, with no creation. Without one, a session is created first, or the fixed unavailable text is returned and nothing is sent. The reply is never empty |
| GeminiService.Run | services/geminiService.ts:48-61 | A run of calls gives one reply per call, never an empty one, and makes at most two client calls per call |
| GeminiService.RunReusesSession | services/geminiService.ts:49-56 | Once a session exists, every later call sends on it, never re-creates it, and answers with the text of the client's outcome |
| GeminiService.RunWhileCreationFails | services/geminiService.ts:49-51 | While creation keeps failing, every call answers with the unavailable text, no session appears, creation is retried on each call when a key exists, and no message is sent |
| GeminiService.RunUsesOneSession | services/geminiService.ts:4-61 | Every message a run sends goes to the session the run ends with, and an existing session is never replaced |
| GeminiService.ChatService.constructor | services/geminiService.ts:4 | The service starts without a session and without any client call |
| GeminiService.ChatService.InitializeChat | services/geminiService.ts:29-46 | The new session and call log are those `Initialized` and `InitCalls` describe |
| GeminiService.ChatService.SendMessage | services/geminiService.ts:48-61 | The reply, new session and calls made are exactly those `SendStep` describes |
| AIChat.CanSend | components/AIChat.tsx:29 | A send is accepted iff the input is not all white space and no reply is pending |
| AIChat.UserTurnKeepsShape | components/AIChat.tsx:38-40 | A user message appended to an idle, alternating transcript leaves one that is waiting for the reply |
| AIChat.ModelTurnKeepsShape | components/AIChat.tsx:51-52 | A model message appended to a waiting transcript leaves it idle and alternating |
| AIChat.IdleTranscriptIsPairs | components/AIChat.tsx:28-53 | An idle transcript is the welcome message followed by question/answer pairs |
| AIChat.FindClose | components/AIChat.tsx:110 | Finds the shortest line-free span before a closing "**", or reports that none exists |
| AIChat.Bold | components/AIChat.tsx:110 | The bold replacement leaves text without "**" unchanged |
| AIChat.Newlines | components/AIChat.tsx:110 | No newline is left after the line-break replacement |
| AIChat.NewlinesIdentity | components/AIChat.tsx:110 | Text without a newline is unchanged by the line-break pass |
| AIChat.NewlinesDistributes | components/AIChat.tsx:110 | The line-break pass distributes over concatenation |
| AIChat.NewlinesOfChar | components/AIChat.tsx:110 | On one character the line-break pass gives "<br/>" for a newline and the character itself otherwise |
| AIChat.Markup | components/AIChat.tsx:110 | The displayed HTML has no newline, and text with neither "**" nor a newline is displayed exactly as written |
| AIChat.BoldWrapsSpan | components/AIChat.tsx:110 | A one-line, star-free span between "**" pairs becomes a strong element holding exactly that span, and the scan goes on after it |
| AIChat.ChatPanel.constructor | components/AIChat.tsx:8-17 | The transcript holds only the welcome message (id "welcome", role model), the input is empty and nothing is pending |
| AIChat.ChatPanel.Edit | components/AIChat.tsx:133-137 | Typing replaces the input unless a reply is pending, when the disabled box keeps it |
| AIChat.ChatPanel.BeginSend | components/AIChat.tsx:28-42 | A refused send changes nothing. An accepted one appends the user's message as typed, clears the input, starts loading, and hands on the text as it was before clearing |
| AIChat.ChatPanel.ReceiveReply | components/AIChat.tsx:44-52 | The reply is appended as a model message and loading ends; earlier messages are kept |
| AIChat.ChatPanel.HandleSend | components/AIChat.tsx:28-53 | A completed send adds exactly the user's message and the service's reply to it, and updates the service as `SendStep` says. A refused one changes nothing |
| AIChat.ChatPanel.HandleKeyDown | components/AIChat.tsx:55-60 | Enter without Shift performs the send; any other key changes nothing |

## Left out

- Rendering: the JSX, Tailwind classes, recharts and lucide icons are not
  modelled. Tiers, tones and glyphs are tags.
- Bar colours and the fixed date captions ("17 Set 2025") are constants of the
  view and are not modelled.
- The generative-AI client (`GoogleGenAI`, `chats.create`, `sendMessage`) is a
  foreign network library. Its behaviour enters as the `Creation` and `Outcome`
  arguments.
  - The model name, temperature and the system instruction passed at creation
    are not modelled.
  - The system instruction is built by `getSystemInstruction`, which embeds
    `JSON.stringify` of the dataset.
  - `constants.ts` holds the dataset; it is not part of this model.
- The `process.env.API_KEY` lookup becomes the constant `hasApiKey`. The build
  configuration in `vite.config.ts` defines `exame_key` rather than `API_KEY`;
  that plumbing is not modelled.
- `console.error` logging is output only and is not modelled.
- A document-analysis workflow that would produce `AnalysisResult` appears in
  no modelled file. Only the datatype is modelled.
- `Date.now()` message ids are parameters (`userId`, `botId`).
- Message timestamps, scrolling, opening and closing the chat, and
  `preventDefault` are clock or DOM effects and are not modelled.
- The `await` in `handleSend` is modelled as two sequential steps
  (`BeginSend`, `ReceiveReply`), and as one method running both
  (`HandleSend`).
  - Overlapping sends cannot arise, because the guard refuses a send while
    loading.
  - Interleavings with a reply that never arrives are not modelled.
- JavaScript numbers are modelled as `real`. They are only shown or replaced by
  0, so floating-point behaviour and number formatting are not modelled.
- Text.ToLower: lower-cases ASCII and Latin-1 capitals (U+00C0 to U+00DE,
  except U+00D7) only. Other Unicode case mappings, and mappings that change
  length, are not modelled. Every keyword lies inside that range.
- Text.TrimStart, Text.TrimEnd: a `char` here is a Unicode scalar value, not a
  UTF-16 code unit. A string holding a lone surrogate cannot be represented.
  Trimming is unaffected, because every ECMAScript white-space character lies in
  the Basic Multilingual Plane.
- AIChat.Bold: the `.` of the regular expression is modelled as matching
  any character but a line terminator.
- The rendered HTML of a message is not modelled. That HTML is produced by
  `Markup` and set as inner HTML.
- GeminiService.Run: its own contract gives only the number, non-emptiness and
  call budget of the replies. Its three lemmas state what runs do.
- The card's status keywords are the Portuguese ones the code tests ("normal",
  "negativo", "ausentes" / "limítrofe", "levemente", "baixo"). English
  variants are not recognised, because the code does not test them.
- The table does not use the card's three-tier colouring. It has two tiers and
  omits "ausentes", as the code does (`App.TableIsCoarserThanCard`).
- The HDL icon follows the code. It depends on the trend alone, whatever the
  two values are (`MetricCard.HdlIconIgnoresValues`).
