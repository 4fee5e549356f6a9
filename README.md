# Developer dashboard exchange — a Dafny model of its core

This project models the logic inside a mocked React dashboard for AI agents.
The dashboard has a chat side for users and a console side for developers.
Most of the repository only renders markup. Three parts hold logic:

- **The info panel renderer** (`InfoPanel.tsx`). It turns markdown into HTML with a fixed chain of
  eleven global regular-expression replacements. The model follows ECMAScript regular-expression
  semantics:
  - With the `g` flag, matches do not overlap and are found left to right.
  - Under the `m` flag, `^` and `$` match at all four line terminators (LF, CR, U+2028, U+2029), and `.` never crosses one.
  - The `i` flag matters only for `<li`.
  - `(.*)` is greedy: it runs from the first opener on a line to the last closer on that line.
  - The fence `[\s\S]*?` is lazy, so it ends at the nearest closing fence. The inline-code `[^`]*` cannot pass a backtick, so it also ends at the nearest one. Both cross lines.
  - The last step replaces each `\n` with `<br />`.

  Modules: `Text` holds the matching primitives, `InfoPanel` the chain, `InfoPanelLemmas` its
  structural lemmas and `InfoPanelProperties` the promised behaviour.
- **The chat**:
  - `ChatInput`: the compose box, with its send guard and attachment list.
  - `ChatContainer`: the message list and the lookup of the latest agent info.
  - `ChatDashboard`: the toggle between the agent picker and the chat.
  - `UserDashboard`: the user's agent picker.
- **The developer console**:
  - `DevDashboard`: the agent list, usage aggregates and upload.
  - `AgentCreator`: the create form, with its validation and defaults.
  - `AgentUploader`: the upload card.
  - `AgentDetails`: the edit-and-save page.

`Agents` holds the `Agent` record of `src/components/types/Agent.ts`; `Wrappers` holds `Option` and `Result`.

Components whose `useState` variables change are classes:
- Each field is a state variable, and each method is a handler.
- A `toast.promise` success callback runs at once, inside the method that starts it.
- What a callback prop receives (`onSendMessage`, `onAgentAdded`, `onUpdate`, `onInfoUpdate`) is the method's out-parameter.
- The current date and `Date.now()` ids are parameters.

Two behaviours of the code worth noting:
- Two adjacent `- ` lines give two separate `<ul>` wrappers joined by `<br />`, not one list.
- No code makes agent replies, echoes the user's text, or keeps a `sending` flag. `ChatDashboard` renders `ChatContainer` and `ChatInput` without props, so send is not connected to the message list. `isSending` is a parameter of the send guard.

## Model

| member | source | states |
|---|---|---|
| InfoPanel.Render | src/components/InfoPanel.tsx:15-35 | rendering is defined for every input, and the output contains no `\n` because the last step turns each one into `<br />` |
| InfoPanel.BreakLines | src/components/InfoPanel.tsx:35 | no `\n` is left, and text without one passes through unchanged |
| InfoPanel.GreedySpan | src/components/InfoPanel.tsx:21-27 | a greedy `A(.*)B` match on one line runs from the first opener to the last closer after it; with no match, no closer follows an opener |
| InfoPanel.PairSpan | src/components/InfoPanel.tsx:29-31 | a lazy pair runs from the first delimiter to the nearest delimiter after it, with no delimiter in between |
| InfoPanel.Pairs | src/components/InfoPanel.tsx:29-31 | a code rule never shortens the text: each delimiter pair it replaces becomes longer tags |
| InfoPanel.RewriteLine | src/components/InfoPanel.tsx:17-27 | a per-line rule adds no characters except those of its own markup |
| InfoPanel.MapLines | src/components/InfoPanel.tsx:17-27 | a per-line rule applied to every line adds no characters except those of its markup |
| InfoPanelLemmas.RenderLineByLine | src/components/InfoPanel.tsx:15-35 | for backtick-free input, two lines render separately and are joined by `<br />`; no line rule crosses a line end |
| InfoPanelLemmas.RenderOneLine | src/components/InfoPanel.tsx:15-35 | a backtick-free line renders as the line rules in source order, ending with the blockquote rule |
| InfoPanelLemmas.BreakLinesConcat | src/components/InfoPanel.tsx:35 | newline replacement distributes over concatenation |
| InfoPanelLemmas.PairsStep | src/components/InfoPanel.tsx:29-31 | the pair scan wraps the first pair and continues after its closing delimiter |
| InfoPanelLemmas.PairsWithoutBacktick | src/components/InfoPanel.tsx:29-31 | without a backtick, the fence and inline-code steps change nothing |
| InfoPanelLemmas.LineStagesFirstLine | src/components/InfoPanel.tsx:17-27 | the first seven steps act on the first line independently of the rest |
| InfoPanelProperties.RenderPlain | src/components/InfoPanel.tsx:15-35 | text with no `#`, `*`, backtick or `<li` (in any case), and no line starting with `- ` or `> `, renders as itself with each `\n` replaced by `<br />` |
| InfoPanelProperties.ListTagInPlainText | src/components/InfoPanel.tsx:27 | a line `<li>t</li>` typed as text is still wrapped in a `<ul>`, so plain text must also avoid `<li` |
| InfoPanelProperties.RenderH1 | src/components/InfoPanel.tsx:19 | a line `# T` renders exactly as the h1 element around T |
| InfoPanelProperties.RenderH2 | src/components/InfoPanel.tsx:18 | a line `## T` renders exactly as the h2 element around T |
| InfoPanelProperties.RenderH3 | src/components/InfoPanel.tsx:17 | a line `### T` renders exactly as the h3 element around T, never as an h1 or h2 |
| InfoPanelProperties.HeadersIdleIff | src/components/InfoPanel.tsx:17-19 | the header rules change a line if and only if it starts with `# `, `## ` or `### `; `#T` is untouched |
| InfoPanelProperties.QuoteChangesIff | src/components/InfoPanel.tsx:33 | the blockquote rule changes a line if and only if it starts with `> ` |
| InfoPanelProperties.RenderListItem | src/components/InfoPanel.tsx:25-27 | a line `- x` renders as its own `<ul>` holding one `<li>` with x |
| InfoPanelProperties.RenderTwoListItems | src/components/InfoPanel.tsx:25-35 | two adjacent list lines give two separate `<ul>` wrappers joined by `<br />` |
| InfoPanelProperties.WrapListItem | src/components/InfoPanel.tsx:27 | the wrapper step puts a whole `<li>…</li>` line inside one `<ul>` |
| InfoPanelProperties.GreedyChangesIff | src/components/InfoPanel.tsx:21-27 | a greedy line rule changes a line if and only if an opener is followed by a closer on it |
| InfoPanelProperties.BoldChangesIff | src/components/InfoPanel.tsx:21 | bold changes a line if and only if it holds two non-overlapping `**` |
| InfoPanelProperties.ItalicChangesIff | src/components/InfoPanel.tsx:23 | italic changes a line if and only if it holds two `*` |
| InfoPanelProperties.BoldGreedy | src/components/InfoPanel.tsx:21 | `**w**` becomes one `<strong>` around all of w, even when w holds `**` |
| InfoPanelProperties.BoldStep | src/components/InfoPanel.tsx:21 | the bold match ends at the last `**` on the line, and the italic pair after it is left alone |
| InfoPanelProperties.RenderBoldThenItalic | src/components/InfoPanel.tsx:21-23 | `**a**m*b*` renders as a `<strong>` a, then m, then an `<em>` b |
| InfoPanelProperties.RenderBoldAndItalicExample | src/components/InfoPanel.tsx:21-23 | `**bold** and *italic*` renders as strong "bold", " and ", em "italic" |
| InfoPanelProperties.PairNearest | src/components/InfoPanel.tsx:29-31 | a fence or backtick opener pairs with the nearest following delimiter, across lines, and the scan continues after it |
| InfoPanelProperties.LonePair | src/components/InfoPanel.tsx:29-31 | one delimited span becomes exactly the opening tag, its text and the closing tag |
| InfoPanelProperties.FencePair | src/components/InfoPanel.tsx:29 | a backtick-free fenced block becomes the `<pre><code>` element around its text |
| InfoPanelProperties.RenderFenceRewritten | src/components/InfoPanel.tsx:17-29 | text inside a fence is rewritten by the earlier steps: `**w**` inside it shows as `<strong>` |
| InfoPanelProperties.UnclosedPair | src/components/InfoPanel.tsx:29-31 | an unclosed fence or a lone backtick stays literal |
| InfoPanelProperties.InlineCodeParity | src/components/InfoPanel.tsx:31 | inline code consumes backticks in pairs, so at most one stays: the parity of the input's count |
| Text.FirstMatch | src/components/InfoPanel.tsx:29-31 | the leftmost match at or after a position, or none |
| Text.LastMatch | src/components/InfoPanel.tsx:21-27 | the rightmost match on a line, or none |
| Text.Count | src/components/InfoPanel.tsx:31 | the number of occurrences is zero exactly when the character is absent |
| Text.CountConcat | src/components/InfoPanel.tsx:31 | occurrence counts add up over concatenation |
| Text.LineEnd | src/components/InfoPanel.tsx:17-33 | the first line ends at the first line terminator, or at the end |
| Text.MatchAtExact | src/components/InfoPanel.tsx:17-33 | for a pattern without letters, case-insensitive matching is plain equality of the slice |
| Text.TrimStart | src/components/chat/ChatInput.tsx:20 | `trim` removes exactly the leading whitespace |
| Text.TrimEnd | src/components/chat/ChatInput.tsx:20 | `trim` removes exactly the trailing whitespace |
| Text.TrimEmptyIff | src/components/chat/ChatInput.tsx:20 | a text trims to empty if and only if every character is whitespace |
| Text.NatToString | src/components/DevDashboard.tsx:120-121 | `toString` of a natural gives a non-empty digit string without a leading zero |
| Text.NatToStringRoundTrip | src/components/DevDashboard.tsx:120-121 | the decimal digits read back as the number |
| Text.NatToStringInjective | src/components/DevDashboard.tsx:120 | distinct counts give distinct ids |
| ChatInput.SendBlocked | src/components/chat/ChatInput.tsx:20 | send is refused exactly while sending, or when the text is all whitespace and there are no attachments |
| ChatInput.ChatInputState.constructor | src/components/chat/ChatInput.tsx:14-16 | the compose box starts with empty text, not recording and no attachments |
| ChatInput.ChatInputState.Type | src/components/chat/ChatInput.tsx:89 | typing sets the text to exactly the textarea's value and leaves the attachments and recording alone |
| ChatInput.ChatInputState.SendMessage | src/components/chat/ChatInput.tsx:19-24 | an accepted send calls `onSendMessage` once, with the untrimmed text and the attachments, then clears both; a refused one changes nothing |
| ChatInput.ChatInputState.KeyDown | src/components/chat/ChatInput.tsx:26-31 | Enter without Shift takes the send path; any other key sends nothing and changes nothing |
| ChatInput.ChatInputState.FileUpload | src/components/chat/ChatInput.tsx:33-38 | picked files go after the existing attachments, in order |
| ChatInput.RemoveAt | src/components/chat/ChatInput.tsx:41 | removing index i deletes exactly that element and keeps the others in order; an out-of-range index changes nothing |
| ChatInput.KeepOthersIs | src/components/chat/ChatInput.tsx:41 | the `filter` on `i !== index` is the list without that index |
| ChatInput.ChatInputState.RemoveAttachment | src/components/chat/ChatInput.tsx:40-42 | the attachments become the list without that index |
| ChatInput.ChatInputState.ToggleRecording | src/components/chat/ChatInput.tsx:44-63 | stopping clears `isRecording` and appends exactly one `voice-recording.mp3` of type `audio/mpeg`; starting records only if the microphone is granted |
| ChatInput.ChatInputState.AnalyzePrompt | src/components/chat/ChatInput.tsx:131-133 | the button sets the fixed analyze prompt and leaves the attachments alone |
| ChatInput.ChatInputState.SummarizePrompt | src/components/chat/ChatInput.tsx:143-145 | the button sets the fixed summarize prompt and leaves the attachments alone |
| ChatInput.ChatInputState.SendDisabled | src/components/chat/ChatInput.tsx:118 | the send button is disabled exactly when the send guard refuses |
| ChatInput.PromptsAreSendable | src/components/chat/ChatInput.tsx:131-145 | both prompt texts pass the send guard |
| ChatInput.RecordingIsSendable | src/components/chat/ChatInput.tsx:44-51 | after a recording, send is no longer blocked for lack of content |
| ChatContainer.Reverse | src/components/chat/ChatContainer.tsx:39 | the reversed copy holds the messages in opposite order |
| ChatContainer.Find | src/components/chat/ChatContainer.tsx:39 | `find` gives a message that carries info, or none when no message does |
| ChatContainer.FindFirst | src/components/chat/ChatContainer.tsx:39 | `find` gives the first message that carries info |
| ChatContainer.LatestInfoIsLast | src/components/chat/ChatContainer.tsx:39 | the lookup gives the info of the last agent message whose info is truthy |
| ChatContainer.LatestInfo | src/components/chat/ChatContainer.tsx:39-40 | the lookup is empty exactly when no agent message carries non-empty info, and a found info is non-empty |
| ChatContainer.LatestInfoIsLastCarried | src/components/chat/ChatContainer.tsx:39 | the reverse-then-find lookup agrees with a direct search from the end |
| ChatContainer.LastCarriedIsLast | src/components/chat/ChatContainer.tsx:39 | the direct search from the end finds the last carrying message |
| ChatContainer.AppendNonCarrying | src/components/chat/ChatContainer.tsx:39 | appending a user message, or an agent message without info, leaves the lookup unchanged |
| ChatContainer.AppendCarrying | src/components/chat/ChatContainer.tsx:39 | appending an agent message with info makes the lookup return that info |
| ChatContainer.ChatContainerState.constructor | src/components/chat/ChatContainer.tsx:25-26 | the list starts as `initialMessages` |
| ChatContainer.ChatContainerState.Reset | src/components/chat/ChatContainer.tsx:30-32 | the list is replaced wholesale when the prop changes |
| ChatContainer.ChatContainerState.InfoUpdate | src/components/chat/ChatContainer.tsx:38-42 | `onInfoUpdate` is called exactly when some agent message carries info, with the last such info; the list is left unchanged |
| ChatDashboard.ChatDashboardState.constructor | src/components/chat/ChatDashboard.tsx:21-22 | the selection screen shows exactly when no initial agent is given, and the selected agent is the initial agent or none |
| ChatDashboard.ChatDashboardState.AgentSelect | src/components/chat/ChatDashboard.tsx:24-27 | selecting stores the agent and leaves the selection screen, also from the dropdown while chatting; the invariant holds |
| ChatDashboard.ChatDashboardState.BackToSelection | src/components/chat/ChatDashboard.tsx:29-32 | going back shows the selection screen and clears the agent; the invariant holds |
| UserDashboard.ShownAgents | src/components/UserDashboard.tsx:39 | no shown agent is disabled, and every shown agent comes from the list |
| UserDashboard.ShownAgentsKeeps | src/components/UserDashboard.tsx:39 | an agent is shown if and only if it is listed and not disabled |
| UserDashboard.ShownAgentsConcat | src/components/UserDashboard.tsx:39 | the filter keeps the original order |
| UserDashboard.ShownFixture | src/components/UserDashboard.tsx:8-39 | with the fixture, exactly the first two agents are shown, and "Research Helper" is dropped |
| UserDashboard.UserDashboardState.constructor | src/components/UserDashboard.tsx:35-36 | the dashboard starts with no agent chosen |
| UserDashboard.UserDashboardState.Render | src/components/UserDashboard.tsx:41-72 | while no agent is chosen the filtered list shows; afterwards the chat opens with the chosen agent |
| UserDashboard.UserDashboardState.ClickCard | src/components/UserDashboard.tsx:54-72 | a click chooses that card's agent, and the chat receives it as `initialAgent` |
| DevDashboard.ActiveCount | src/components/DevDashboard.tsx:139 | the active count is at most the number of agents; it is zero, or the whole list, exactly when none, or all, are active |
| DevDashboard.TotalUsage | src/components/DevDashboard.tsx:138 | with non-negative usages, the summed usage is non-negative |
| DevDashboard.TotalUsageConcat | src/components/DevDashboard.tsx:138 | the left-fold usage sum is additive over concatenation |
| DevDashboard.ActiveCountConcat | src/components/DevDashboard.tsx:139 | the active count is additive over concatenation |
| DevDashboard.TotalUsageOne | src/components/DevDashboard.tsx:138 | the sum over one agent is its usage |
| DevDashboard.TotalBoundsEach | src/components/DevDashboard.tsx:138 | with non-negative usages, the total bounds each agent's usage |
| DevDashboard.FixtureAggregates | src/components/DevDashboard.tsx:138-139 | with the fixture, total usage is 1740 and three agents are active |
| DevDashboard.UploadedAgent | src/components/DevDashboard.tsx:119-126 | the new agent has id `n+1`, name `New Agent n+1`, usage 0 and status pending |
| DevDashboard.UploadKeepsAggregates | src/components/DevDashboard.tsx:128-139 | appending the uploaded agent changes neither total usage nor the active count |
| DevDashboard.NumberedIdsDistinct | src/components/DevDashboard.tsx:119-121 | agents numbered 1..n have distinct ids |
| DevDashboard.FixtureNumbered | src/components/DevDashboard.tsx:20-53 | the fixture's ids are 1..n in order |
| DevDashboard.DevDashboardState.constructor | src/components/DevDashboard.tsx:76-78 | the dashboard starts with the fixture, not dragging and no files |
| DevDashboard.DevDashboardState.FileChange | src/components/DevDashboard.tsx:80-85 | picking files replaces the selection |
| DevDashboard.DevDashboardState.DragOver | src/components/DevDashboard.tsx:87-90 | drag-over sets `isDragging` |
| DevDashboard.DevDashboardState.DragLeave | src/components/DevDashboard.tsx:92-94 | drag-leave clears `isDragging` |
| DevDashboard.DevDashboardState.Drop | src/components/DevDashboard.tsx:96-104 | a drop clears `isDragging` and replaces the selection |
| DevDashboard.DevDashboardState.Upload | src/components/DevDashboard.tsx:106-136 | an empty selection is refused with nothing changed; otherwise exactly one agent is appended, the selection cleared and the message counts the files; the aggregates and distinct numbered ids are kept |
| Agents.SetField | src/components/dev/AgentDetails.tsx:51-54 | a field edit sets exactly the named field and leaves every other property alone |
| Agents.SameFields | src/components/types/Agent.ts:1-14 | agents equal in every property are the same record |
| Agents.SetFieldLastWins | src/components/dev/AgentDetails.tsx:53 | editing a field twice keeps the last value |
| Agents.SetFieldCommutes | src/components/dev/AgentDetails.tsx:53 | edits to different fields commute |
| AgentCreator.InitialForm | src/components/dev/AgentCreator.tsx:17-24 | the form starts with empty texts, version `1.0.0` and status pending |
| AgentCreator.AgentCreatorState.constructor | src/components/dev/AgentCreator.tsx:17-25 | the creator starts with the initial form and no files |
| AgentCreator.SetFormField | src/components/dev/AgentCreator.tsx:27-30 | an input change sets exactly the named field |
| AgentCreator.AgentCreatorState.InputChange | src/components/dev/AgentCreator.tsx:27-30 | the text inputs update their field of the form |
| AgentCreator.AgentCreatorState.SelectChange | src/components/dev/AgentCreator.tsx:32-35 | the status select updates only the status |
| AgentCreator.AgentCreatorState.FileChange | src/components/dev/AgentCreator.tsx:37-54 | picking or dropping files replaces the selection |
| AgentCreator.CreateCheck | src/components/dev/AgentCreator.tsx:57-66 | create is refused for an empty name first, then for no files, and accepted otherwise |
| AgentCreator.BlankNamePasses | src/components/dev/AgentCreator.tsx:58 | the name is not trimmed: a non-empty name made only of whitespace, which trims to nothing, passes the check |
| AgentCreator.CreatedAgent | src/components/dev/AgentCreator.tsx:73-84 | the created agent takes name, status, category, author and version from the form, has usage 0, and a default description when the form's is empty |
| AgentCreator.TypedTextIsCreated | src/components/dev/AgentCreator.tsx:73-84 | a typed field reaches the created agent, except an empty description |
| AgentCreator.AgentCreatorState.CreateAgent | src/components/dev/AgentCreator.tsx:57-91 | the outcome is the guard's refusal or the created agent |
| AgentCreator.AgentCreatorState.CreateDisabled | src/components/dev/AgentCreator.tsx:234 | the Create button is disabled exactly when the guard would refuse |
| AgentUploader.UploadedAgent | src/components/dev/AgentUploader.tsx:56-63 | the uploaded agent is named `New Agent from Upload`, described `Recently uploaded agent`, with usage 0 and status pending |
| AgentUploader.UploadMessage | src/components/dev/AgentUploader.tsx:68 | the message reads `Successfully uploaded n file(s)` with n's decimal digits between the two fixed parts, and those digits read back as n |
| AgentUploader.AgentUploaderState.constructor | src/components/dev/AgentUploader.tsx:14-15 | the card starts not dragging and with no files |
| AgentUploader.AgentUploaderState.FileChange | src/components/dev/AgentUploader.tsx:17-22 | picking files replaces the selection |
| AgentUploader.AgentUploaderState.DragOver | src/components/dev/AgentUploader.tsx:24-27 | drag-over sets `isDragging` |
| AgentUploader.AgentUploaderState.DragLeave | src/components/dev/AgentUploader.tsx:29-31 | drag-leave clears `isDragging` |
| AgentUploader.AgentUploaderState.Drop | src/components/dev/AgentUploader.tsx:33-41 | a drop clears `isDragging` and replaces the selection |
| AgentUploader.AgentUploaderState.Upload | src/components/dev/AgentUploader.tsx:43-73 | with no files it is refused and `onAgentAdded` is not called; otherwise it is called once with the uploaded agent, the selection is cleared and the message counts the files |
| AgentUploader.AgentUploaderState.UploadDisabled | src/components/dev/AgentUploader.tsx:124 | the upload button is disabled exactly when the selection is empty |
| AgentDetails.Saved | src/components/dev/AgentDetails.tsx:62-66 | the saved record is the edited one with only `lastUpdated` set to the date |
| AgentDetails.SavedEdit | src/components/dev/AgentDetails.tsx:51-68 | an edited text reaches `onUpdate`, and every other field is the original's |
| AgentDetails.AgentDetailsState.constructor | src/components/dev/AgentDetails.tsx:48-49 | `editedAgent` starts as a copy of the agent, with no file |
| AgentDetails.AgentDetailsState.InputChange | src/components/dev/AgentDetails.tsx:51-54 | an input change updates only the named field |
| AgentDetails.AgentDetailsState.StatusChange | src/components/dev/AgentDetails.tsx:51-54 | the status select updates only the status |
| AgentDetails.AgentDetailsState.FileChange | src/components/dev/AgentDetails.tsx:56-60 | the first file is stored when at least one is given; otherwise the selection is unchanged |
| AgentDetails.AgentDetailsState.SaveChanges | src/components/dev/AgentDetails.tsx:62-70 | `onUpdate` receives the edited record with only `lastUpdated` replaced |
| AgentDetails.AgentDetailsState.UploadCode | src/components/dev/AgentDetails.tsx:72-89 | with no file it is refused; a success clears the selected file |
| AgentDetails.AgentDetailsState.UploadDisabled | src/components/dev/AgentDetails.tsx:352 | the upload button is disabled exactly when no file is selected |

## Left out

- Timers and toasts: the `setTimeout`/`toast.promise` delay, the loading and error states, and every toast text except the upload success message. Each success callback runs at once, inside its handler.
- Stale closures: a success callback reads the state captured when its handler ran, so edits made while an upload is pending are lost in the source. Because the model runs the callback at once, it has no pending window and does not show this.
- Clock and ids: `new Date().toISOString().split('T')[0]` and `Date.now().toString()` are parameters (`today`, `id`).
- ChatInput.ChatInputState.ToggleRecording: starting a recording needs `getUserMedia`, a browser API whose outcome is the `micGranted` parameter. The toasts are not modelled.
- `triggerFileInput`, scrolling to the last message and `preventDefault` are DOM side effects with no state, so they are not modelled.
- File contents and sizes: a `File` is its name and MIME type. `File.size` formatting is floating point.
- Charts, analytics and the progress percentages (`activeAgents / agents.length * 100`) are floating point and static fixtures.
- Presentation-only components: headers, layout, message bubbles, the agent selector's tick, status colours and the agent-details sections. They hold no state logic.
- `ChatDashboard`'s own `mockAgents` are partial records cast to `Agent`. The model keeps only the selection state, which holds any `Agent`.
- No escaping: the rendered HTML is injected without sanitisation, and the model adds none.
- The last replacement turns only `\n` into `<br />`. CR, U+2028 and U+2029 still end lines for the earlier steps but stay in the output.
- InfoPanelProperties.RenderPlain: "plain" text here also excludes `<li` in any case, because `<li…</li>` typed as text is wrapped by the list step (see ListTagInPlainText).
- InfoPanelProperties.RenderH1: like RenderH2, RenderH3, RenderListItem and RenderBoldThenItalic, it is stated for header text free of `*`, backticks and `<`. Text with those characters is rewritten further by the later steps.
- InfoPanelProperties.BoldGreedy: "at most one `<strong>` per line" is stated through GreedySpan: one span per line, from the first `**` to the last. The model does not count tags in the output.
- AgentCreator.AgentCreatorState.SelectChange: the select offers active, inactive and pending, so `Disabled` is excluded by a precondition.
- AgentDetails.AgentDetailsState.StatusChange: this select offers the same three options, so the same precondition applies.
