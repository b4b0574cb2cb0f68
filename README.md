# Dynamic Next.js demo app: a Dafny model

This project models the logic behind a Next.js demonstration app meant for Azure App Service:
- two API routes:
  - `/api/healthz`, a detailed health report;
  - `/api/ready`, a readiness probe;
- the state handling of the page's interactive components:
  - a drag-and-drop task list;
  - a simulated chat;
  - a user search with filters and sorting;
  - a validated contact form;
  - a counter;
  - a live chart;
  - the home page, which counts the interactions every component reports.

One Dafny module per source file:

| module | source file | form |
|---|---|---|
| `Healthz` | app/api/healthz/route.ts | `Get` builds the check list step by step. The classifiers, the fold and the HTTP mapping are functions. `FormatUptime` pushes parts like the source, and its result is the function `FormatUptimeText`. |
| `Ready` | app/api/ready/route.ts | `Get` updates the readiness record in place. `Head` is a function. |
| `DragDropList` | components/DragDropList.tsx | A `TaskList` class. The filter and map updates are functions. |
| `RealTimeChat` | components/RealTimeChat.tsx | A `Chat` class. The reaction toggle is a function. |
| `SearchFilter` | components/SearchFilter.tsx | A `SearchState` class. The filter predicate is pure. The sort is an in-place insertion sort on an array. |
| `DynamicForm` | components/DynamicForm.tsx | The validation rules, including the email pattern, are predicates. A `ContactForm` class steps the submit flags. |
| `InteractiveCounter` | components/InteractiveCounter.tsx | A `Counter` class whose handlers follow the transition function `Step`. |
| `DataVisualization` | components/DataVisualization.tsx | A `Chart` class. The summaries are functions. |
| `HomePage` | app/page.tsx | A `Home` class. The statistics reducer is a function. |
| `Text`, `Common` | (shared) | JavaScript string behaviour the components rely on: `trim`, `includes`, per-character `toLowerCase`, number rendering, `join`/`split`. Also `Option`/`Attempt` results. |

## Environment and abstractions

Anything that reads the process, the clock, randomness or the browser is a parameter:
- the memory percentage is an `Attempt<nat>`: the rounded percentage, or what reading it threw;
- the uptime in whole seconds;
- `WEBSITE_SITE_NAME` ("" when unset);
- the response time in milliseconds;
- the outcome of the allocation test;
- the ids `Date.now()` produces;
- the random index of a bot answer;
- the random draws of the chart update;
- the elapsed milliseconds of the page timer.

`toLowerCase` is a per-character mapping `lower`. `localeCompare` and `Date` parsing are functions passed in. Sorting assumes `localeCompare` is a total preorder.

Ratings are kept as integers in tenths (4.8 is 48), so `b.rating - a.rating` orders them exactly as the floating-point values do.

The memory thresholds follow the code: 90% exactly warns and 91% fails; 70% exactly passes and 71% warns.

## Model

| member | source | states |
|---|---|---|
| Healthz.MemoryStatus | app/api/healthz/route.ts:44-46 | fail iff percent > 90, warn iff 71 ≤ percent ≤ 90, pass iff percent ≤ 70 |
| Healthz.ResponseTimeStatus | app/api/healthz/route.ts:117-120 | fail iff ms > 1000, warn iff 501 ≤ ms ≤ 1000, pass iff ms ≤ 500 |
| Healthz.ClassifyMonotone | app/api/healthz/route.ts:46 | a larger measurement never receives a milder status |
| Healthz.Overall | app/api/healthz/route.ts:126-134 | starting from healthy: unhealthy iff some check fails, degraded iff none fails and some warns, healthy iff neither |
| Healthz.OverallOrderIndependent | app/api/healthz/route.ts:127-134 | the overall status depends only on the statuses present, not on the order of the checks |
| Healthz.HttpStatus | app/api/healthz/route.ts:136-142 | 503 iff unhealthy; 200 for healthy and degraded |
| Healthz.Statuses | app/api/healthz/route.ts:127-129 | one status per check, in the order the checks were added |
| Healthz.MemoryCheckStatus | app/api/healthz/route.ts:36-66 | a memory measurement that throws is a failing check; otherwise the status follows the 70/90 thresholds |
| Healthz.UptimeCheck | app/api/healthz/route.ts:69-83 | the check is named "uptime"; it fails iff reading the uptime throws, and the formatted text is given iff it does not |
| Healthz.AzureChecks | app/api/healthz/route.ts:85-115 | no azure check without a site name; with one, a single check that warns iff its body throws and passes otherwise |
| Healthz.Checks | app/api/healthz/route.ts:35-124 | the check names in insertion order: memory, uptime, azure only when the site name is set, responseTime; each carries the status its own rule gives |
| Healthz.Get | app/api/healthz/route.ts:19-145 | the report holds exactly `Checks(env)`; its status is `Overall` of their statuses and the HTTP code follows from it; the formatted uptime is given when uptime could be read |
| Healthz.MemoryThrowIsUnhealthy | app/api/healthz/route.ts:57-66 | a memory measurement that throws makes the report unhealthy and the answer 503 |
| Healthz.Head | app/api/healthz/route.ts:148-165 | 503 iff the measurement throws or the percent exceeds 95, otherwise 200 |
| Healthz.Decompose | app/api/healthz/route.ts:167-171 | days·86400 + hours·3600 + minutes·60 + secs = seconds, with hours < 24, minutes < 60, secs < 60 |
| Healthz.DecomposeCompose | app/api/healthz/route.ts:168-171 | the decomposition is the unique normal one: decomposing a composed normal duration returns it |
| Healthz.UptimeParts | app/api/healthz/route.ts:173-177 | one to four parts in d, h, m, s order with their amounts; d, h and m appear iff positive; s appears iff positive or nothing larger is positive |
| Healthz.UptimePartsTotal | app/api/healthz/route.ts:168-177 | the emitted parts add back up to the uptime |
| Healthz.ShownPartsTotal | app/api/healthz/route.ts:168-177 | the parts shown for any duration add back up to it, because only zero parts are left out |
| Healthz.RenderPart | app/api/healthz/route.ts:174-177 | a rendered part contains no space, so the join separates parts unambiguously |
| Healthz.FormatUptime | app/api/healthz/route.ts:167-180 | the pushing loop returns exactly `FormatUptimeText(seconds)` |
| Healthz.FormatUptimeNonEmpty | app/api/healthz/route.ts:173-179 | the formatted uptime always has at least two characters |
| Healthz.FormatUnderAMinute | app/api/healthz/route.ts:171-177 | under a minute the text is just the seconds followed by "s" |
| Healthz.FormatZero | app/api/healthz/route.ts:177 | zero seconds format as "0s" |
| Healthz.ParseFormatUptime | app/api/healthz/route.ts:167-180 | splitting the text on spaces and reading each part back gives the uptime |
| Ready.Get | app/api/ready/route.ts:3-60 | ready iff percent ≤ 95 and the allocation succeeded; percent > 95 sets the memory check not ready with a message naming the percent and leaves the server check alone; a failed allocation sets the server check not ready and leaves the memory check alone; 200 iff ready, else 503; a throw from the measurement answers not ready with its error text and 503 |
| Ready.MemoryMessageNamesPercent | app/api/ready/route.ts:31 | the memory-too-high message contains the decimal percentage |
| Ready.Head | app/api/ready/route.ts:62-78 | 503 iff the measurement throws or the percent exceeds 95, otherwise 200 |
| Text.TrimEmptyIffBlank | components/DragDropList.tsx:41 | `trim()` is empty exactly when every character is JavaScript whitespace |
| Text.Contains | components/SearchFilter.tsx:42-43 | `includes` holds iff the needle occurs at some index of the haystack |
| Text.Lower | components/SearchFilter.tsx:42 | lower-casing keeps the length |
| Text.Decimal | app/api/ready/route.ts:31 | rendering a number gives a non-empty run of digits with no leading zero except for 0 itself, and 0 renders as "0" |
| Text.DecimalRoundTrip | app/api/healthz/route.ts:174-177 | reading the rendered digits back gives the number |
| Text.SplitJoin | app/api/healthz/route.ts:179 | splitting a join of space-free words on the separator gives the words back |
| DragDropList.RemoveAt | components/DragDropList.tsx:33 | one element shorter, with the removed element taken out of the multiset |
| DragDropList.InsertAt | components/DragDropList.tsx:34 | one element longer, with the inserted element at the index and added to the multiset |
| DragDropList.Move | components/DragDropList.tsx:32-34 | same length and multiset; the dragged task lands at the destination |
| DragDropList.MoveKeepsOthersInOrder | components/DragDropList.tsx:32-34 | apart from the dragged task, the order of the others is unchanged |
| DragDropList.MoveBack | components/DragDropList.tsx:32-34 | dragging from the destination back to the source restores the list |
| DragDropList.WithoutId | components/DragDropList.tsx:55 | a task remains iff it was there and has another id |
| DragDropList.WithoutIdAppend | components/DragDropList.tsx:55 | deleting works piecewise, so the remaining tasks keep their order |
| DragDropList.WithoutAbsentId | components/DragDropList.tsx:55 | deleting an id no task has changes nothing |
| DragDropList.Toggled | components/DragDropList.tsx:60-62 | exactly the tasks with the id flip `completed`; every other field and task is kept |
| DragDropList.ToggledTwice | components/DragDropList.tsx:60-62 | toggling twice restores the list |
| DragDropList.WithPriority | components/DragDropList.tsx:67-69 | tasks with the id take the new priority; every other field and task is kept |
| DragDropList.WithPriorityLastWins | components/DragDropList.tsx:67-69 | a second priority change overrides the first |
| DragDropList.TaskList.constructor | components/DragDropList.tsx:20-27 | the five initial tasks and an empty input |
| DragDropList.TaskList.Type | components/DragDropList.tsx:95 | the input takes the typed text; tasks unchanged |
| DragDropList.TaskList.OnDragEnd | components/DragDropList.tsx:29-38 | no destination changes nothing and reports nothing; otherwise the tasks become `Move(old, source, destination)` and "drag-drop" is reported |
| DragDropList.TaskList.AddTask | components/DragDropList.tsx:40-52 | blank input changes nothing; otherwise the untrimmed text is appended as an open medium task, the input is cleared and "add-task" is reported |
| DragDropList.TaskList.DeleteTask | components/DragDropList.tsx:54-57 | tasks become `WithoutId(old, id)`; reports "delete-task" |
| DragDropList.TaskList.ToggleComplete | components/DragDropList.tsx:59-64 | tasks become `Toggled(old, id)`; reports "toggle-complete" |
| DragDropList.TaskList.ChangePriority | components/DragDropList.tsx:66-71 | tasks become `WithPriority(old, id, priority)`; reports "change-priority" |
| RealTimeChat.WithoutEmoji | components/RealTimeChat.tsx:93 | a reaction remains iff it was there and differs from the emoji, each other reaction as often as before and the emoji not at all |
| RealTimeChat.WithoutEmojiAppend | components/RealTimeChat.tsx:93 | the filter works piecewise, so the other reactions keep their order |
| RealTimeChat.WithoutAbsentEmoji | components/RealTimeChat.tsx:93 | filtering out an absent emoji changes nothing |
| RealTimeChat.ToggleReaction | components/RealTimeChat.tsx:89-94 | a present emoji is removed and the result is exactly the filtered list `WithoutEmoji`, the others in order and once each; an absent one is appended at the end |
| RealTimeChat.ToggleAbsentTwice | components/RealTimeChat.tsx:92-94 | reacting twice with a new emoji restores the reactions |
| RealTimeChat.TogglePresentTwice | components/RealTimeChat.tsx:92-94 | reacting twice with a present emoji leaves the other reactions plus one copy at the end |
| RealTimeChat.Reacted | components/RealTimeChat.tsx:87-98 | messages with the id get their reactions toggled, a missing list counting as empty; other messages and fields are kept |
| RealTimeChat.ReactedTwice | components/RealTimeChat.tsx:87-98 | reacting twice with an emoji the targeted messages lacked restores their reactions |
| RealTimeChat.Chat.constructor | components/RealTimeChat.tsx:20-30 | the welcome message only, empty input, not typing, so the quick replies are shown |
| RealTimeChat.Chat.ShowsQuickReplies | components/RealTimeChat.tsx:242 | the quick-reply panel is rendered exactly while the conversation has at most two messages |
| RealTimeChat.Chat.Type | components/RealTimeChat.tsx:279 | the input takes the typed text; messages unchanged |
| RealTimeChat.Chat.ChooseQuickReply | components/RealTimeChat.tsx:242-257 | offered only while the quick replies are shown; the input takes the quick reply's text; reports "quick-reply" |
| RealTimeChat.Chat.SendMessage | components/RealTimeChat.tsx:57-70 | blank input changes nothing; otherwise the untrimmed text is appended as a user message, the input is cleared, typing starts and "send-message" is reported |
| RealTimeChat.Chat.BotReply | components/RealTimeChat.tsx:72-82 | one canned answer is appended as a bot message, typing stops, "bot-response" is reported; once the conversation had two messages the quick replies are hidden |
| RealTimeChat.Chat.AddReaction | components/RealTimeChat.tsx:86-100 | messages become `Reacted(old, id, emoji)`; reports "add-reaction" |
| SearchFilter.Matches | components/SearchFilter.tsx:41-48 | a user matches when the lower-cased name or email contains the lower-cased term, and the role and location equal their filters unless those are empty |
| SearchFilter.Filter | components/SearchFilter.tsx:41-48 | a user is kept iff it is in the list and matches search term, role and location; never more often than in the input |
| SearchFilter.FilterCounts | components/SearchFilter.tsx:41-48 | a matching user is kept exactly as often as it occurs in the input, any other user not at all |
| SearchFilter.FilterAppend | components/SearchFilter.tsx:41-48 | filtering distributes over concatenation, so the kept users stay in input order |
| SearchFilter.EmptyFilterKeepsAll | components/SearchFilter.tsx:41-48 | with no term and no filters every user is listed, in order |
| SearchFilter.SortInPlace | components/SearchFilter.tsx:51 | the array is permuted (same multiset) so that each row is in comparator order with the next |
| SearchFilter.InsertNext | components/SearchFilter.tsx:51 | one insertion step: with the rows before `i` in comparator order, the rows up to `i` end in order, and the array is a permutation of what it was |
| SearchFilter.SwapDown | components/SearchFilter.tsx:51 | the two neighbouring rows trade places, every other row stays, and the array keeps its multiset |
| SearchFilter.AdjacentToOrdered | components/SearchFilter.tsx:51 | with a transitive comparator, neighbours in order means every pair in order |
| SearchFilter.Comparator | components/SearchFilter.tsx:51-66 | `localeCompare` on name, role or location, join-date time difference, rating descending, and 0 for any other column |
| SearchFilter.ComparatorIsPreorder | components/SearchFilter.tsx:51-66 | every column's comparator is total and transitive when `localeCompare` is |
| SearchFilter.RatingOrderIsDescending | components/SearchFilter.tsx:61-62 | sorted by rating means best rated first |
| SearchFilter.NameOrderFollowsLocaleCompare | components/SearchFilter.tsx:53-54 | sorted by name means in `localeCompare` order of the names |
| SearchFilter.Distinct | components/SearchFilter.tsx:79-80 | the same values as the input, each once |
| SearchFilter.DistinctKeepsFirstOccurrenceOrder | components/SearchFilter.tsx:79-80 | distinct values come in order of first occurrence, as a `Set` iterates |
| SearchFilter.UniqueRoles | components/SearchFilter.tsx:79 | exactly the roles of the users, each once |
| SearchFilter.UniqueLocations | components/SearchFilter.tsx:80 | exactly the locations of the users, each once |
| SearchFilter.SearchState.constructor | components/SearchFilter.tsx:23-38 | empty term and filters, sort by name, panel hidden, the eight users |
| SearchFilter.SearchState.FilteredUsers | components/SearchFilter.tsx:40-69 | exactly the matching users, as a permutation of `Filter`'s result, never more than the whole list, fully ordered by the chosen column |
| SearchFilter.SearchState.ToggleFilters | components/SearchFilter.tsx:92-95 | the panel flips; reports "toggle-filters" |
| SearchFilter.SearchState.Search | components/SearchFilter.tsx:111-114 | the term takes the typed text; reports "search" |
| SearchFilter.SearchState.ClearSearch | components/SearchFilter.tsx:120 | the term is cleared; the rest is kept |
| SearchFilter.SearchState.SelectRole | components/SearchFilter.tsx:142-145 | the role filter takes the chosen value; reports "filter-role" |
| SearchFilter.SearchState.SelectLocation | components/SearchFilter.tsx:156-159 | the location filter takes the chosen value; reports "filter-location" |
| SearchFilter.SearchState.SelectSort | components/SearchFilter.tsx:170-173 | the sort column takes the chosen value; reports "sort-change" |
| SearchFilter.SearchState.ClearFilters | components/SearchFilter.tsx:71-77 | term, role and location empty, sort by name, panel untouched; reports "clear-filters" |
| DynamicForm.NameValid | components/DynamicForm.tsx:97-100 | `required` together with `minLength: 2` accepts exactly the names of at least two characters |
| DynamicForm.MessageValid | components/DynamicForm.tsx:189-192 | `required` together with `minLength: 10` accepts exactly the messages of at least ten characters |
| DynamicForm.CategoryValid | components/DynamicForm.tsx:166 | `required` on the select rejects only the placeholder value `""` |
| DynamicForm.SelectedCategoryValid | components/DynamicForm.tsx:166-178 | of the values the select offers, exactly the five categories are valid |
| DynamicForm.MatchesEmailPattern | components/DynamicForm.tsx:133 | the pattern as written: some cut into a non-empty local part, `@`, a non-empty domain, `.` and at least two letters, each over its character class |
| DynamicForm.EmailValid | components/DynamicForm.tsx:130-135 | the first-`@`/last-`.` check accepts exactly the strings the pattern matches: local `@` domain `.` tld over the character classes of the pattern, tld at least two ASCII letters |
| DynamicForm.ValidEmailHasOneAt | components/DynamicForm.tsx:133 | every accepted address contains exactly one `@` |
| DynamicForm.ValidEmailShape | components/DynamicForm.tsx:133 | every accepted address has at least six characters, and ends in a `.` that follows the `@` and is followed only by letters, at least two |
| DynamicForm.SanitizedEmail | components/DynamicForm.tsx:137 | the value of a `type="email"` input: newlines removed, then leading and trailing ASCII whitespace stripped, so it holds no newline and starts and ends with another character |
| DynamicForm.SanitizeKeepsNonBlank | components/DynamicForm.tsx:137 | every typed character that is not ASCII whitespace survives sanitisation |
| DynamicForm.SanitizeAddsNothing | components/DynamicForm.tsx:137 | sanitisation introduces no character that was not typed |
| DynamicForm.SanitizeIdempotent | components/DynamicForm.tsx:137 | sanitising an already sanitised value leaves it unchanged |
| DynamicForm.SanitizeKeepsValidEmail | components/DynamicForm.tsx:133-137 | an address the pattern accepts is unchanged by sanitisation, so the clean-up only removes blanks around an address |
| DynamicForm.ContactForm.constructor | components/DynamicForm.tsx:20-31 | empty fields, not submitting, not submitted |
| DynamicForm.ContactForm.SubmitEnabled | components/DynamicForm.tsx:219 | enabled iff name has ≥ 2 characters, the email matches the pattern, a category is chosen, the message has ≥ 10 characters, and no request is in flight |
| DynamicForm.ContactForm.EditName | components/DynamicForm.tsx:97-105 | the name takes the typed value; reports "form-input" |
| DynamicForm.ContactForm.EditEmail | components/DynamicForm.tsx:129-142 | the email holds the typed value after the `type="email"` input's sanitisation (`SanitizedEmail`); reports "form-input" |
| DynamicForm.ContactForm.SelectCategory | components/DynamicForm.tsx:166-178 | the category takes the chosen value, which is the placeholder or one of the five categories; reports "form-select" |
| DynamicForm.ContactForm.EditMessage | components/DynamicForm.tsx:189-198 | the message takes the typed value; reports "form-textarea" |
| DynamicForm.ContactForm.Submit | components/DynamicForm.tsx:35-37 | exactly when the button is enabled (every rule satisfied, no request in flight) the request starts and "form-submit" is reported; otherwise nothing changes |
| DynamicForm.ContactForm.RequestDone | components/DynamicForm.tsx:39-43 | submitting off, submitted on, fields kept |
| DynamicForm.ContactForm.ThankYouTimeout | components/DynamicForm.tsx:45-48 | the thank-you panel is hidden and the fields are reset |
| InteractiveCounter.Step | components/InteractiveCounter.tsx:16-50 | the state after each action: ±1 with the animation on, reset to 0 with auto off, auto flipped, +1 on a tick only while auto is on, the animation cleared at its end |
| InteractiveCounter.Reported | components/InteractiveCounter.tsx:16-50 | the interaction each action reports: one per button, "auto-increment" on a tick only while auto is on, nothing at the animation end |
| InteractiveCounter.StepsMoveByOne | components/InteractiveCounter.tsx:27-39 | increment adds 1, decrement subtracts 1, both start the animation and keep auto-increment |
| InteractiveCounter.IncrementThenDecrement | components/InteractiveCounter.tsx:27-39 | an increment followed by a decrement restores the count |
| InteractiveCounter.ResetIsIdempotent | components/InteractiveCounter.tsx:41-45 | reset gives count 0 and auto-increment off from any state; resetting again changes nothing |
| InteractiveCounter.ToggleTwice | components/InteractiveCounter.tsx:47-50 | the toggle flips auto-increment; toggling twice restores the state |
| InteractiveCounter.TickOnlyWhileAuto | components/InteractiveCounter.tsx:16-25 | a tick adds one exactly while auto-increment is on, and reports only then |
| InteractiveCounter.ButtonsReportOnce | components/InteractiveCounter.tsx:27-50 | every button reports exactly one interaction; the animation timeout reports none |
| InteractiveCounter.RunWithoutReset | components/InteractiveCounter.tsx:16-39 | without a reset, the count stays between start − decrements and start + increments + ticks |
| InteractiveCounter.Counter.constructor | components/InteractiveCounter.tsx:12-14 | count 0, not animating, auto-increment off |
| InteractiveCounter.Counter.HandleIncrement | components/InteractiveCounter.tsx:27-32 | the state becomes `Step(old, Increment)`; reports "increment" |
| InteractiveCounter.Counter.HandleDecrement | components/InteractiveCounter.tsx:34-39 | the state becomes `Step(old, Decrement)`; reports "decrement" |
| InteractiveCounter.Counter.HandleReset | components/InteractiveCounter.tsx:41-45 | the state becomes `Step(old, Reset)`; reports "reset" |
| InteractiveCounter.Counter.ToggleAutoIncrement | components/InteractiveCounter.tsx:47-50 | the state becomes `Step(old, ToggleAuto)`; reports "toggle-auto" |
| InteractiveCounter.Counter.IntervalTick | components/InteractiveCounter.tsx:16-25 | the state becomes `Step(old, Tick)`; reports "auto-increment" only while auto-increment is on |
| InteractiveCounter.Counter.AnimationTimeout | components/InteractiveCounter.tsx:31 | the animation flag is cleared |
| DataVisualization.Total | components/DataVisualization.tsx:220 | the sum of the series, 0 when empty, as `reduce((a, b) => a + b, 0)` |
| DataVisualization.Peak | components/DataVisualization.tsx:190 | -Infinity iff the series is empty; otherwise a value of the series that is at least every value |
| DataVisualization.Min | components/DataVisualization.tsx:210 | Infinity iff the series is empty; otherwise a value of the series that is at most every value |
| DataVisualization.TotalBetweenExtremes | components/DataVisualization.tsx:190-220 | on a non-empty series peak ≥ min and length·min ≤ total ≤ length·peak |
| DataVisualization.NonNegativeTotal | components/DataVisualization.tsx:220 | a series of non-negative values has a non-negative total |
| DataVisualization.Drifted | components/DataVisualization.tsx:58-60 | same length; every value is max(0, v + draw − 10): a positive result moved by exactly the draw minus 10, and 0 only when v + draw − 10 ≤ 0 |
| DataVisualization.DriftedSummary | components/DataVisualization.tsx:56-64 | after an update of a non-empty series the minimum is ≥ 0, the peak ≥ the minimum and the total ≥ 0 |
| DataVisualization.Chart.constructor | components/DataVisualization.tsx:38-40 | line chart, the initial series, not refreshing |
| DataVisualization.Chart.IntervalTick | components/DataVisualization.tsx:56-64 | the series becomes `Drifted(old, draws)` |
| DataVisualization.Chart.RefreshData | components/DataVisualization.tsx:47-49 | refreshing starts; reports "data-refresh" |
| DataVisualization.Chart.RefreshDone | components/DataVisualization.tsx:50-53 | the new series replaces the old one and refreshing stops |
| DataVisualization.Chart.SelectChartType | components/DataVisualization.tsx:152-155 | the chart type changes; reports "chart-type-change" |
| HomePage.HandleInteraction | app/page.tsx:37-43 | interactions +1; clicks +1 iff the type is "click", unchanged otherwise; time spent unchanged |
| HomePage.TimerTick | app/page.tsx:27-31 | time spent is the whole seconds elapsed; counters unchanged |
| HomePage.ReplayCounts | app/page.tsx:28-41 | after any events, interactions and clicks have grown by exactly the number of interactions and of clicks among them |
| HomePage.ClicksNeverExceedInteractions | app/page.tsx:18-41 | from the initial zeros, clicks ≤ interactions after any sequence of interactions and timer ticks |
| HomePage.Home.constructor | app/page.tsx:16-22 | modal closed, overview tab, zero statistics |
| HomePage.Home.OnInteraction | app/page.tsx:37-43 | statistics become `HandleInteraction(old, type)` |
| HomePage.Home.OnTimer | app/page.tsx:27-31 | statistics become `TimerTick(old, elapsed)` |
| HomePage.Home.SelectTab | app/page.tsx:86-92 | the tab becomes active; one interaction that is not a click is counted |
| HomePage.Home.ExploreFeatures | app/page.tsx:70-74 | the modal opens and one click is counted |
| HomePage.Home.CloseModal | app/page.tsx:143 | the modal closes; nothing else changes |

## Left out

- Process metrics: the rounding of the memory percentage (floating-point division) and the MB figures. The percentage arrives as a whole number.
- Time stamps, output strings and `details` of the health checks, and the `info` block. One consequence: the unguarded `process.uptime()` call that fills `info.uptime` (app/api/healthz/route.ts:28) runs outside every `try`. A throw there escapes the handler, and this model does not capture that case.
- `NextResponse` and JSON serialisation; the response body is a datatype.
- The `/api/health` and `/api/live` routes and `server.js`, which return fixed process facts. They are not part of this model.
- Timers and randomness. The timeouts and intervals are separate methods called when they fire. Random choices and the clock are parameters.
- `generateRandomData` and `formatTime` from `lib/utils`. They are not part of this model: the initial and refreshed chart series are parameters.
- The chart's average `Math.round(sum / length)`, which is floating-point division.
- react-hook-form internals. Validity is computed from the declared rules over the current field values. In the source, each field's inline `onChange` comes after the spread of `register(...)` and replaces the handler it supplies. The library may therefore never see the edits, so in the source the submit button may stay disabled. The model does not capture that interplay.
- react-beautiful-dnd: drag indices are inputs, required to be in range.
- `localeCompare`, `toLowerCase` and `Date` parsing are abstract. Lower-casing is per character, so case mappings that change the length are not modelled.
- Strings are sequences of Unicode characters. Lengths in the source count UTF-16 code units, so the length rules of the form differ for characters outside the Basic Multilingual Plane.
- SearchFilter.SortInPlace: does not state stability. JavaScript's sort is stable, and this insertion sort only swaps strictly misordered rows, but stability is not proved.
- SearchFilter.SearchState.FilteredUsers: assumes `localeCompare` is a total preorder. With an inconsistent comparator, the order JavaScript produces is implementation-defined.
- Presentation: animations, styles, charts rendering, scrolling, `Modal`, `AnimatedCards` and `Header`. Also the chat's online-user count, its emoji button (which only reports "emoji-click"), and message time stamps.
- Ready.Get: an exception thrown by the allocation test is caught inside; any other throw is represented only by the memory measurement throwing.
- DynamicForm.ContactForm.Submit: does not model the browser's own constraint validation of the `type="email"` field (the form has no `noValidate`). An address the pattern accepts but the HTML valid-email-address syntax rejects, such as `a@b..cd` or `a@-b.cd`, blocks the submit event in a browser, while the model starts the request.
