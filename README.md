# Nota document sync, modelled in Dafny

Nota is a VS Code custom text editor for markdown. The extension host owns the text document. A webview shows it, either as a plain textarea or through a block-editor adapter. The two sides keep each other up to date by exchanging whole-document messages:

- `ready` and `contentChange` go from the webview to the host.
- `init` and `update` go from the host to the webview.

Each side has an echo guard. While it applies a change that came from the other side, it does not send that change back.

This project models that bridge and the two small loggers beside it. Each endpoint is a class whose methods are its events. The asynchronous parts are explicit steps:

- the settling of `workspace.applyEdit`;
- the animation frame that clears a guard;
- a clock tick that fires the debounce timer.

Where an endpoint's behaviour is stated as a pure function, each class method's `ensures` ties the new state to that function. The lemmas about the function then carry the properties.

| module | file | models |
|---|---|---|
| `VsCode` | `vscode_bridge.dfy` | `webview-ui/src/vscode.ts`: message types, the `init`/`update` filter, post helpers, persisted state, listeners, the development-mode stand-in |
| `MarkdownEditorProvider` | `host_editor.dfy` | `src/editor/MarkdownEditorProvider.ts`: the message handler, `sendContentToWebview`, the change listener with `isApplyingEdit`, disposal, `generateNonce` |
| `App` | `app.dfy` | `webview-ui/src/App.tsx`: `getInitialState`, `handleExtensionMessage`, `handleChange`, the mount effect |
| `BlockNoteEditor` | `block_note_editor.dfy` | `webview-ui/src/components/BlockNoteEditor.tsx`: the markdown schema, the debounced `handleChange`, `handleExternalContent`, the one-shot initial load, the unmount cleanup |
| `LogLevels`, `HostLogger`, `WebviewLogger` | `log_levels.dfy`, `host_logger.dfy`, `webview_logger.dfy` | the two `logger.ts` files |
| `SyncScenarios` | `sync_scenarios.dfy` | the two endpoints wired together through the message layer |
| `Wrappers` | `wrappers.dfy` | `Option`, for `T \| undefined` |

Modelling choices:

- **Applying an edit.** The host's `workspace.applyEdit` is split in two steps. The call replaces the whole text and delivers this document's change notification while `isApplyingEdit` is set. The awaited promise settles later, in `ApplyEditSettles`, which clears the guard. `inFlight` counts the edits that have not settled yet.
- **The debounce timer.** It is a single slot: `Idle` or `Pending(deadline, markdown)`. So "at most one timer is pending" holds by construction. A change at time `t` sets the deadline to `t + 300`. `Tick(now)` fires the timer once `now` has reached the deadline.
- **Block-editor conversions.** Markdown-to-blocks parsing and blocks-to-markdown serialisation are functions given to the adapter. Parsing returns `None` where the library throws.
- **Time, randomness and JSON.** Timestamps, `Math.random()` draws and the JSON text of log data are parameters.

Behaviour worth noting:

- The host sends `update` on every external change to the document. It does not compare against the last text it observed (`src/editor/MarkdownEditorProvider.ts:90-99`).
- The textarea webview sends `ready` whenever it runs inside VS Code, including when it restored saved state (`webview-ui/src/App.tsx:83-86`).
- The textarea webview sends every unguarded edit at once. Only the block-editor adapter debounces (`webview-ui/src/components/BlockNoteEditor.tsx:114-120`).
- The guard is one flag for all edits. An external change to the document is not forwarded while the guard is set (`ExternalChangeDuringApplyIsNotForwarded`). When an `applyEdit` settles, the guard is cleared to `false`, not restored to its earlier value (`src/editor/MarkdownEditorProvider.ts:84`). So when two webview edits overlap, the first settlement clears the guard while the second is still outstanding, and an external change made after that is forwarded (`SettlementClearsGuardForAllEdits`).

## Model

| member | source | states |
|---|---|---|
| `MarkdownEditorProvider.Decode` | src/editor/MarkdownEditorProvider.ts:57-64 | a message is `ready` exactly when its type is `ready`, and a `contentChange` exactly when its type is `contentChange` and its content is a string; the content is carried unchanged |
| `MarkdownEditorProvider.DecodeToHostInbound` | src/editor/MarkdownEditorProvider.ts:53-64 | the host decodes every message the webview's post helpers send as that same message |
| `MarkdownEditorProvider.ReadyPostsInit` | src/editor/MarkdownEditorProvider.ts:46-61 | on `ready` the host posts exactly one `init` carrying the current text and changes nothing else |
| `MarkdownEditorProvider.ContentChangeAppliesWithoutEcho` | src/editor/MarkdownEditorProvider.ts:64-84 | after a `contentChange` the document equals its content and nothing was posted; identical content is a complete no-op; different content leaves one edit outstanding with the guard set |
| `MarkdownEditorProvider.OtherMessagesIgnored` | src/editor/MarkdownEditorProvider.ts:57-64 | any other type, or a `contentChange` without string content, changes nothing |
| `MarkdownEditorProvider.ApplyThenSettle` | src/editor/MarkdownEditorProvider.ts:72-84 | a differing `contentChange` followed by its settlement leaves the text replaced, the guard clear and nothing posted |
| `MarkdownEditorProvider.ExternalChangePostsUpdate` | src/editor/MarkdownEditorProvider.ts:90-99 | an external change to this document outside an edit posts `update` with the full new text; a change to a document with another URI leaves the session unchanged |
| `MarkdownEditorProvider.ExternalChangeDuringApplyIsNotForwarded` | src/editor/MarkdownEditorProvider.ts:72-96 | an external change that lands right after a differing `contentChange`, while the guard is still set, updates the document but is not sent to the webview |
| `MarkdownEditorProvider.SettlementClearsGuardForAllEdits` | src/editor/MarkdownEditorProvider.ts:72-98 | after two overlapping differing edits and one settlement, the guard is clear with one edit still outstanding, and an external change is then posted as `update` |
| `MarkdownEditorProvider.StepKeepsGuardInvariant` | src/editor/MarkdownEditorProvider.ts:72-84 | every event keeps "guard set implies an edit outstanding" |
| `MarkdownEditorProvider.RunKeepsGuardInvariant` | src/editor/MarkdownEditorProvider.ts:72-84 | over any run of events, in every state with no edit outstanding the guard is false |
| `MarkdownEditorProvider.StepWithoutExternalEditPostsOnlyInit` | src/editor/MarkdownEditorProvider.ts:46-99 | an event other than an external edit of this document posts at most an `init` |
| `MarkdownEditorProvider.NoUpdateWithoutExternalEdits` | src/editor/MarkdownEditorProvider.ts:53-99 | in any run without external edits to this document, the host posts nothing but `init` replies, however many webview edits it applies and in whatever order they settle, provided each edit's change notification arrives before any settlement that follows it (see "## Left out") |
| `MarkdownEditorProvider.NothingPostedAfterDispose` | src/editor/MarkdownEditorProvider.ts:103-107 | once the panel is disposed, no event posts anything |
| `MarkdownEditorProvider.SendContent` | src/editor/MarkdownEditorProvider.ts:46-50 | exactly one message is appended; it carries the full current text and is `init` exactly when asked for `init`; nothing else changes |
| `MarkdownEditorProvider.ApplyEdit` | src/editor/MarkdownEditorProvider.ts:74-82 | the text becomes the new text and nothing else but `posted` changes; the notification posts nothing under the guard or after disposal, and otherwise posts `update` with the new text |
| `MarkdownEditorProvider.DocumentEdited` | src/editor/MarkdownEditorProvider.ts:90-99 | an edit to another document changes nothing; an edit to this one sets the text, and posts `update` with the new text exactly when the guard is clear and the panel is not disposed |
| `MarkdownEditorProvider.Disposed` | src/editor/MarkdownEditorProvider.ts:103-107 | only the disposed flag changes; with `NothingPostedAfterDispose`, nothing is posted afterwards |
| `MarkdownEditorProvider.ChangeListener` | src/editor/MarkdownEditorProvider.ts:90-99 | the listener ignores other URIs and a set guard, and otherwise appends `update` with the full text |
| `MarkdownEditorProvider.OnMessage` | src/editor/MarkdownEditorProvider.ts:53-87 | handling one message starts at most one edit |
| `MarkdownEditorProvider.EditSettled` | src/editor/MarkdownEditorProvider.ts:82-84 | settling with nothing outstanding changes nothing |
| `MarkdownEditorProvider.NonceCharsAlphanumeric` | src/editor/MarkdownEditorProvider.ts:12 | the nonce alphabet has 62 characters, each an ASCII letter or digit |
| `MarkdownEditorProvider.GenerateNonce` | src/editor/MarkdownEditorProvider.ts:11-16 | for 32 draws in [0, 1) the nonce has length 32 and every character is in the alphabet and alphanumeric |
| `MarkdownEditorProvider.EditorSession.constructor` | src/editor/MarkdownEditorProvider.ts:43 | a new session holds the document text with the guard clear, nothing outstanding and nothing posted |
| `MarkdownEditorProvider.EditorSession.SendContentToWebview` | src/editor/MarkdownEditorProvider.ts:46-50 | posts the current full text as `init` or `update` |
| `MarkdownEditorProvider.EditorSession.OnDidChangeTextDocument` | src/editor/MarkdownEditorProvider.ts:90-99 | the new state is `ChangeListener` of the old |
| `MarkdownEditorProvider.EditorSession.ApplyWorkspaceEdit` | src/editor/MarkdownEditorProvider.ts:74-82 | replaces the whole text and delivers this document's change notification |
| `MarkdownEditorProvider.EditorSession.OnDidReceiveMessage` | src/editor/MarkdownEditorProvider.ts:53-85 | the new state is `OnMessage` of the old, and the guard invariant is kept |
| `MarkdownEditorProvider.EditorSession.ApplyEditSettles` | src/editor/MarkdownEditorProvider.ts:82-84 | the awaited edit settles and the guard is cleared, keeping the invariant |
| `MarkdownEditorProvider.EditorSession.ExternalEdit` | src/editor/MarkdownEditorProvider.ts:90-99 | the new state is `DocumentEdited` of the old |
| `MarkdownEditorProvider.EditorSession.Dispose` | src/editor/MarkdownEditorProvider.ts:103-107 | marks both subscriptions disposed |
| `VsCode.Accept` | webview-ui/src/vscode.ts:75-80 | data is forwarded if and only if it is present and its type is `init` or `update`, with type and content unchanged |
| `VsCode.AcceptToWindowData` | webview-ui/src/vscode.ts:75-80 | every message the host posts passes the filter unchanged |
| `VsCode.ToHostInbound` | webview-ui/src/vscode.ts:56-66 | `ready` is sent as `{type:'ready'}` and `contentChange` as `{type:'contentChange', content}` with the content unchanged |
| `VsCode.ToWindowData` | webview-ui/src/vscode.ts:14-16 | a host message arrives as an object with its type tag and its content |
| `VsCode.Api.constructor` | webview-ui/src/vscode.ts:36-48 | inside VS Code the platform's saved state is kept; the stand-in starts with none |
| `VsCode.Api.PostMessage` | webview-ui/src/vscode.ts:38-48 | inside VS Code a message is appended to what the host receives; the stand-in only logs it |
| `VsCode.Api.SendReady` | webview-ui/src/vscode.ts:56-58 | posts exactly `ready` |
| `VsCode.Api.SendContentChange` | webview-ui/src/vscode.ts:64-66 | posts `contentChange` with the content unchanged |
| `VsCode.Api.SaveEditorState` | webview-ui/src/vscode.ts:89-91 | delegates to `setState`: inside VS Code the stored state becomes the given one |
| `VsCode.Api.GetEditorState` | webview-ui/src/vscode.ts:96-98 | delegates to `getState`; outside VS Code the result is always undefined |
| `VsCode.Api.OnExtensionMessage` | webview-ui/src/vscode.ts:72-83 | registers a new listener under the next unused id: ids are handed out in increasing order, so an unsubscribed id is never reused |
| `VsCode.Api.Unsubscribe` | webview-ui/src/vscode.ts:82 | removes exactly that listener |
| `VsCode.Api.Deliver` | webview-ui/src/vscode.ts:75-81 | a registered listener receives exactly what the filter forwards; a removed one receives nothing |
| `App.GetInitialState` | webview-ui/src/App.tsx:32-49 | non-empty saved content is restored and initialized; otherwise outside VS Code the placeholder, initialized; otherwise empty and waiting for `init` |
| `App.InitialStateWaitsExactlyWhenEmpty` | webview-ui/src/App.tsx:32-49 | the webview starts initialized iff there is non-empty saved content or it runs outside VS Code, and starts empty iff it is not initialized |
| `App.TextareaApp.constructor` | webview-ui/src/App.tsx:52-57 | the first render takes `getInitialState` of the stored state, with the guard clear |
| `App.TextareaApp.Mount` | webview-ui/src/App.tsx:77-86 | subscribes exactly one listener under the next fresh id, advancing the id counter, and sends `ready` exactly when running in VS Code, whether or not saved state was restored |
| `App.TextareaApp.Unmount` | webview-ui/src/App.tsx:88-91 | removes exactly its own listener, if subscribed, and leaves every other listener and the id counter alone |
| `App.TextareaApp.HandleExtensionMessage` | webview-ui/src/App.tsx:60-74 | sets the content, persists the same content, marks the state initialized, and raises the guard with a frame queued to clear it |
| `App.TextareaApp.OnWindowMessage` | webview-ui/src/App.tsx:60-80 | while subscribed, accepted `init`/`update` data reaches the handler: the content is taken over and persisted, the state is initialized and the guard raised with a frame queued; anything else leaves content, initialized flag, guard, frame and saved state unchanged; nothing is posted and the listeners stay as they are |
| `App.TextareaApp.AnimationFrame` | webview-ui/src/App.tsx:70-72 | the queued frame callback clears the guard |
| `App.TextareaApp.HandleChange` | webview-ui/src/App.tsx:95-105 | a user edit always updates the content and the persisted state, and posts `contentChange` only when the guard is clear |
| `BlockNoteEditor.MarkdownSchemaSize` | webview-ui/src/components/BlockNoteEditor.tsx:35-64 | the schema admits exactly 8 block types, 4 styles and 2 inline-content types, and none of the omitted ones |
| `BlockNoteEditor.Step` | webview-ui/src/components/BlockNoteEditor.tsx:114-120 | a change replaces any pending timer by one due 300 ms later, emitting nothing; a tick fires a due timer exactly once and leaves anything else alone |
| `BlockNoteEditor.BurstKeepsOnePending` | webview-ui/src/components/BlockNoteEditor.tsx:105-120 | while the debounce window never runs out, nothing is emitted and the single pending timer holds the last change's markdown |
| `BlockNoteEditor.TicksFireOnce` | webview-ui/src/components/BlockNoteEditor.tsx:118-120 | ticks alone emit the pending markdown exactly once if one reaches the deadline, and nothing otherwise |
| `BlockNoteEditor.BurstEmitsLastMarkdownOnce` | webview-ui/src/components/BlockNoteEditor.tsx:110-120 | a burst followed by a quiet period that reaches the deadline emits exactly one string, the markdown of the last change |
| `BlockNoteEditor.CloseChangesStayWithinWindow` | webview-ui/src/components/BlockNoteEditor.tsx:114-120 | on a monotone clock, changes each less than 300 ms after the previous one, ending with a change, keep every event inside the window |
| `BlockNoteEditor.BurstOfCloseChangesEmitsOnce` | webview-ui/src/components/BlockNoteEditor.tsx:110-120 | changes each less than 300 ms apart, followed by ticks reaching the last deadline, yield exactly one `onContentChange` carrying the last markdown |
| `BlockNoteEditor.IdleTicksEmitNothing` | webview-ui/src/components/BlockNoteEditor.tsx:176-182 | with the timer cleared, no tick emits anything |
| `BlockNoteEditor.Adapter.constructor` | webview-ui/src/components/BlockNoteEditor.tsx:95-98 | the refs start cleared: no guard, no timer, nothing loaded |
| `BlockNoteEditor.Adapter.HandleChange` | webview-ui/src/components/BlockNoteEditor.tsx:105-121 | under the guard nothing changes; otherwise the timer becomes `Step` of a change carrying the document's markdown |
| `BlockNoteEditor.Adapter.UserEdit` | webview-ui/src/components/BlockNoteEditor.tsx:105-121 | an edit replaces the document and, unguarded, schedules its markdown 300 ms later |
| `BlockNoteEditor.Adapter.Tick` | webview-ui/src/components/BlockNoteEditor.tsx:118-120 | the timer and the `onContentChange` calls follow `Step` of a tick |
| `BlockNoteEditor.Adapter.LoadMarkdown` | webview-ui/src/components/BlockNoteEditor.tsx:126-139 | raises the guard, replaces the document only if parsing succeeds, queues the frame that clears the guard, and leaves the timer alone |
| `BlockNoteEditor.Adapter.HandleExternalContent` | webview-ui/src/components/BlockNoteEditor.tsx:124-140 | external content replaces the document exactly when it parses, and neither schedules nor emits anything, also when the parent calls the kept handler after unmount |
| `BlockNoteEditor.Adapter.LoadInitialContent` | webview-ui/src/components/BlockNoteEditor.tsx:148-173 | initial content is loaded at most once, and only when it is non-empty |
| `BlockNoteEditor.Adapter.AnimationFrame` | webview-ui/src/components/BlockNoteEditor.tsx:137-139 | the frame clears the guard whatever the parse outcome |
| `BlockNoteEditor.Adapter.Unmount` | webview-ui/src/components/BlockNoteEditor.tsx:176-182 | the pending timer is cleared, so the pending edit is dropped, not flushed |
| `LogLevels.Rank` | src/utils/logger.ts:17-22 | ranks lie in 0..3, with rank 0 only for `debug` and rank 3 only for `error` |
| `LogLevels.Name` | src/utils/logger.ts:4 | level names are non-empty lower-case ASCII words of at most five letters, so `toUpperCase().padEnd(5)` never has to cut a name |
| `LogLevels.Passes` | src/utils/logger.ts:31-33 | every threshold admits its own level, `error` always passes, the `debug` threshold admits everything, and `debug` is refused under any higher threshold |
| `LogLevels.RanksStrictlyOrdered` | src/utils/logger.ts:17-22 | debug < info < warn < error, and distinct levels have distinct ranks |
| `LogLevels.PassesMonotone` | src/utils/logger.ts:31-33 | the threshold filter is monotone in the level |
| `LogLevels.ErrorAlwaysPasses` | src/utils/logger.ts:31-33 | `error` passes every threshold, and the `debug` threshold passes every level |
| `LogLevels.ThresholdIsLeastAdmitted` | webview-ui/src/lib/logger.ts:21-23 | a threshold admits itself, and two thresholds that admit the same levels are equal, so changing the level always changes what is logged |
| `HostLogger.ToUpper` | src/utils/logger.ts:26 | `toUpperCase` on ASCII: same length, each lower-case letter mapped to its upper-case letter, anything else kept |
| `HostLogger.DataSuffix` | src/utils/logger.ts:27 | the suffix is empty exactly when no data was given; otherwise it is a space followed by the JSON text |
| `HostLogger.Logger.ShouldLog` | src/utils/logger.ts:31-33 | the current level admits itself and `error`, the `debug` level admits everything, and `debug` is refused under any higher level |
| `HostLogger.PadEnd` | src/utils/logger.ts:26 | pads with spaces to the width, keeping the string as its prefix |
| `HostLogger.LevelFieldIsUpperNamePadded` | src/utils/logger.ts:26 | the level field is the upper-cased name padded to width 5: `DEBUG`, `INFO `, `WARN `, `ERROR` |
| `HostLogger.FormatMessage` | src/utils/logger.ts:24-29 | a line is `[timestamp] [`, the level field, `] `, the message, and the data suffix, at these exact positions |
| `HostLogger.Logger.constructor` | src/utils/logger.ts:14-15 | no channel, and the level `debug` |
| `HostLogger.Logger.Log` | src/utils/logger.ts:39-61 | a line is appended only when the level passes and the channel exists; with no channel nothing is written |
| `HostLogger.Logger.InitLogger` | src/utils/logger.ts:71-78 | creates the named channel holding the `Logger initialized` line when `info` passes |
| `HostLogger.Logger.SetLogLevel` | src/utils/logger.ts:83-85 | replaces the level and nothing else |
| `WebviewLogger.FormatData` | webview-ui/src/lib/logger.ts:25-36 | undefined gives `''`, a string is returned unchanged, other values give their JSON text or the `String` fallback |
| `WebviewLogger.Entry` | webview-ui/src/lib/logger.ts:51-74 | each console call's text is `[Nota] ` followed by the message, with an empty detail for undefined data |
| `WebviewLogger.Logger.ShouldLog` | webview-ui/src/lib/logger.ts:21-23 | the current level admits itself and `error`, the `debug` level admits everything, and `debug` is refused under any higher level |
| `WebviewLogger.Logger.constructor` | webview-ui/src/lib/logger.ts:19 | the level starts at `debug` |
| `WebviewLogger.Logger.Log` | webview-ui/src/lib/logger.ts:51-74 | one console call when the level passes and none otherwise, so every call carries the prefix |
| `WebviewLogger.Logger.SetLogLevel` | webview-ui/src/lib/logger.ts:41-43 | replaces the level and nothing else |
| `SyncScenarios.HandshakeThenEdit` | src/editor/MarkdownEditorProvider.ts:53-84 | `ready`, then `init`, then a frame, then a user edit: the document ends as the typed text, the host sent only `init`, and its guard is clear |
| `SyncScenarios.ExternalUpdateIsNotEchoed` | webview-ui/src/App.tsx:60-104 | an external edit reaches the webview as `update`, and a change event in the same frame sends nothing back |
| `SyncScenarios.RestoredStateStillSendsReady` | webview-ui/src/App.tsx:32-92 | restored content is shown at once and `ready` is still sent; after unmount a host message no longer reaches the textarea |
| `SyncScenarios.RemountGetsFreshListener` | webview-ui/src/App.tsx:77-91 | mounting again after an unmount subscribes under a different id, a message for the old id reaches nobody, and `ready` is sent on each mount |

## Left out

- `getHtmlForWebview` and the webview options are left out. They assemble the HTML, the CSP and the asset URIs. Only the nonce generator is modelled.
- Extension activation (`src/index.ts`), React mounting (`webview-ui/src/main.tsx`) and the build configuration are left out. They are wiring.
- BlockNoteEditor.MarkdownSchemaSize: the schema sets are stated but do not constrain documents. A block's type ranges over all twelve kinds, so the model's `parse` may return blocks the schema excludes, such as images.
- BlockNote's parser, serialiser, `replaceBlocks`, toolbar and side menu are left out. They belong to the library. The conversions are parameters, and a block is reduced to its type and text.
- Real timers, `requestAnimationFrame` and message delivery are replaced by explicit steps and lists.
- The awaited calls inside the block-editor handlers run atomically. These are `blocksToMarkdownLossy` in `handleChange` and `tryParseMarkdownToBlocks` in `handleExternalContent` and in the initial load. Events that could interleave while they are pending are not modelled.
- BlockNoteEditor.Adapter.HandleChange: requires a mounted view, because the editor only notifies a mounted component. A conversion still pending at unmount, which could schedule a timer after the cleanup, is not captured.
- MarkdownEditorProvider.ApplyEdit: the change notification for a webview edit is delivered inside the `applyEdit` call, before any later settlement. The interleaving where an earlier edit settles (clearing the guard, `src/editor/MarkdownEditorProvider.ts:84`) before a later edit's notification arrives is not modelled. In the source that notification would be posted back as `update` (lines 93-98), so `NoUpdateWithoutExternalEdits` holds only under this ordering.
- `workspace.applyEdit` failure is left out. The source ignores the result, so the edit always succeeds here.
- The document's positions and ranges are left out. An edit is a whole-text replacement, which is what the source's range from offset 0 to the text length amounts to.
- `Math.random()`, `new Date().toISOString()`, `JSON.stringify` and `String(data)` are not modelled. Their results are parameters.
- `console.*` and `OutputChannel.appendLine` are recorded as lists of calls and lines.
- `log.show` is left out. It only reveals the output channel.
- The `log.*` calls made inside the sync handlers are left out. They affect nothing but the logs.
- `toUpperCase` is modelled on ASCII only. The level names are ASCII.
- VsCode.Accept: the webview's filter checks the type tag only. The model's window data always carries string content, because the host only ever posts strings.
- A webview-to-host message whose `content` is missing or not a string is represented as having no content.
- The `onExternalUpdate` registration effect (`webview-ui/src/components/BlockNoteEditor.tsx:143-145`) is not a separate step. The parent calls `HandleExternalContent` directly.
- React rendering is left out: the character count, the placeholder text and the status bar.
