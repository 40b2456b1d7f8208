# Live presentation cursor and memory-verse game, in Dafny

This project models the live presentation feature of a weekly study-series site.

A leader steps a shared cursor through a week's outline of sections and content items:
- moving forward and back;
- jumping to an item;
- revealing a scripture;
- highlighting one discussion question.

Projector screens mirror that cursor through a broadcast event. The model covers:
- the server side: the per-week `presentation_states` record, the leader-only endpoints that change it, the participant view without leader notes, and the broadcast event;
- the client side: the `usePresentation` hook that applies replies and events, the realtime client's connection settings (page-shell meta tags, then `initializeEcho`), the projector's screen selection, and the control center's flat outline, button and key rules;
- the memory-verse game that grades typed answers.

Module layout follows the program:
- `Outline`, `Week`, `PresentationState`, `StateEvent` and `Controller`: the Laravel side. `Controller.PresentationController` is a class holding the week-id → record table.
- `Wire`, `UsePresentation` (class `PresentationHook`), `ReverbMeta`, `EchoClient` (class `EchoModule`), `Present` and `Control`: the browser side.
- `VerseText`, `Levenshtein` and `MemoryVerse` (class `Game`): the game.
- `Wrappers`, `Seqs`, `Decimal` and `JsText`: shared helpers. They cover options, order-preserving filtering, decimal text, and the JavaScript `trim`, whitespace class and `Number`.

Each endpoint and client action is a method whose `ensures` gives the complete new state and result in terms of pure transition functions. Lemmas prove what those functions promise, for example:
- `next` is the successor in section-major order;
- `previous` undoes a moving `next`;
- a toggle flips exactly one item;
- a leader that was in step with the record stays in step after each action;
- the matrix fill computes the edit-distance recurrence;
- normalising is idempotent and an exact recall scores 1.

Behaviours the source has, shown by lemmas rather than reported as defects:
- Indices depend on the view: they are taken in the full view by `getCurrentContentItem` and the control center, and in the participant view by `next`, `previous` and the projector.
- A jump keeps the highlight.
- `previous` into a section with only leader notes stores content index -1.
- A server without a configured port advertises port 0, and the client keeps that 0.

## Model

| member | source | states |
|---|---|---|
| Outline.ScriptureKeyInjective | app/Models/PresentationState.php:62 | the "s-c" key of non-negative indices determines both indices |
| Week.ParticipantSection | app/Models/Week.php:40-45 | a section keeps its title and icon; its content becomes the in-order non-leader-note items, empty when the key was missing |
| Week.ParticipantSections | app/Models/Week.php:36-47 | same number and order of sections, null sections read as none, titles and icons unchanged, each content the in-order filter of the original, no leader note anywhere |
| Week.ParticipantSectionsIdempotent | app/Models/Week.php:41-44 | filtering the participant view again returns it unchanged |
| Week.ParticipantSectionsOfMissing | app/Models/Week.php:38-41 | null sections give an empty view; a section without content gets an empty list |
| Week.ParticipantItemsExactly | app/Models/Week.php:41-43 | an item survives exactly when it was in the section and is not a leader note |
| PresentationState.Defaults | app/Http/Controllers/PresentationController.php:26-35 | the firstOrCreate defaults: cursor (0, 0), nothing revealed or highlighted, inactive, leader as given |
| PresentationState.GetCurrentContentItem | app/Models/PresentationState.php:38-58 | none when the section index names no full-view section or the content index names no item of it; otherwise that section and item with both indices unchanged |
| PresentationState.IsScriptureExpanded | app/Models/PresentationState.php:60-65 | true exactly when the "s-c" key sits at some position of the expanded list, so never for an empty list |
| StateEvent.ChannelNameInjective | app/Events/PresentationStateUpdated.php:21-26 | different weeks broadcast on different channels |
| StateEvent.StateUpdated.BroadcastOn | app/Events/PresentationStateUpdated.php:21-26 | exactly one channel, "presentation." followed by the week id |
| StateEvent.StateUpdated.BroadcastAs | app/Events/PresentationStateUpdated.php:28-31 | the name is "state.updated" whatever the action |
| StateEvent.StateUpdated.BroadcastWith | app/Events/PresentationStateUpdated.php:33-45 | the payload is the action plus all five public fields copied from the record |
| StateEvent.NewStateUpdated | app/Events/PresentationStateUpdated.php:16-19 | the event carries the record, and the action defaults to "update" |
| Controller.FullPatch | app/Http/Controllers/PresentationController.php:151-160 | the updateState reply state carries all five public fields of the saved record |
| Controller.NavPatch | app/Http/Controllers/PresentationController.php:197-205 | the next/previous reply state carries the saved section index, content index, expanded list and highlight, and no isActive |
| Controller.NextCursor | app/Http/Controllers/PresentationController.php:173-190 | no result when the section index names no participant section; otherwise the highlight is cleared, the other fields are kept, and the three cases are: one item forward, or (s+1, 0), or stay at the last item |
| Controller.PreviousCursor | app/Http/Controllers/PresentationController.php:219-230 | highlight cleared and other fields kept; one item back when c > 0; moves to (s-1, count-1) when s > 0, with no result when section s-1 is missing; stays at (0, 0) |
| Controller.ToggleKey | app/Http/Controllers/PresentationController.php:263-269 | the key ends up present exactly when it was absent; a present key has every copy removed (filter order kept); an absent key is appended; other entries are neither lost nor invented |
| Controller.IsLeader | app/Http/Controllers/PresentationController.php:305-310 | a guest never passes, and a signed-in user passes exactly when they are a leader |
| Controller.ValidUpdate | app/Http/Controllers/PresentationController.php:124-130 | every field is optional, so an empty body and a null highlight pass; present indices must be non-negative |
| Controller.ValidToggle | app/Http/Controllers/PresentationController.php:255-258 | a body missing either index fails; a passing body has both indices non-negative |
| Controller.ValidHighlight | app/Http/Controllers/PresentationController.php:289-291 | null passes, and an index passes exactly when it is non-negative |
| Controller.ApplyUpdate | app/Http/Controllers/PresentationController.php:144-145 | exactly the supplied fields are overwritten, the rest are kept, and the leader is recorded |
| Controller.PresentationController.constructor | database/migrations/2025_12_11_204546_create_presentation_states_table.php:37 | an empty table, one record per week id |
| Controller.PresentationController.FirstOrCreate | app/Http/Controllers/PresentationController.php:132-142 | an existing row is returned untouched; a missing one is created with the defaults |
| Controller.PresentationController.Present | app/Http/Controllers/PresentationController.php:20-63 | creates the row without a leader if missing, and renders the participant view with the record's five fields |
| Controller.PresentationController.Control | app/Http/Controllers/PresentationController.php:68-115 | a non-leader is refused and nothing changes; a leader's row is created with the leader if missing, and the full view is rendered |
| Controller.PresentationController.UpdateState | app/Http/Controllers/PresentationController.php:120-161 | 403 for non-leaders and 422 for invalid bodies, both with nothing written or broadcast; otherwise the row (created if missing) gets ApplyUpdate, is saved, answered in full and broadcast as "update" |
| Controller.PresentationController.Next | app/Http/Controllers/PresentationController.php:166-206 | 403 for non-leaders and 404 without a row, nothing changed; `success: false` and nothing saved or broadcast for an invalid section; otherwise NextCursor is saved, answered without isActive and broadcast as "next" |
| Controller.PresentationController.Previous | app/Http/Controllers/PresentationController.php:211-246 | 403 / 404 as for next; a server error with nothing saved when the previous section is missing; otherwise PreviousCursor is saved, answered and broadcast as "previous" |
| Controller.PresentationController.ToggleScripture | app/Http/Controllers/PresentationController.php:251-280 | 403, then 422 without both indices, then 404 without a row; otherwise the "s-c" key is toggled, saved, returned and broadcast as "toggleScripture" |
| Controller.PresentationController.HighlightQuestion | app/Http/Controllers/PresentationController.php:285-303 | 403, 422 for a negative index, 404 without a row; otherwise only the highlight is set, saved, returned and broadcast as "highlightQuestion" |
| Controller.PositionBound | app/Http/Controllers/PresentationController.php:183-190 | a valid cursor's section-major position is below the total item count |
| Controller.NextWithinSection | app/Http/Controllers/PresentationController.php:183-185 | one item forward inside the section is the next position and stays valid |
| Controller.NextAcrossSections | app/Http/Controllers/PresentationController.php:187-190 | from the last item of a section that is not the last, next goes to item 0 of section s+1 (which is non-empty under NoEmptySections), the next position |
| Controller.NextAtLastItem | app/Http/Controllers/PresentationController.php:191 | on the last item of the last section next keeps the cursor, which is the last position |
| Controller.NextIsSuccessor | app/Http/Controllers/PresentationController.php:183-190 | with no empty section, next from a valid cursor stays valid and is the successor position, or the same cursor on the last item |
| Controller.PreviousIsPredecessor | app/Http/Controllers/PresentationController.php:222-230 | with no empty section, previous from a valid cursor stays valid and is the predecessor position, or the same cursor on the first item |
| Controller.NextPreviousInverse | app/Http/Controllers/PresentationController.php:183-230 | previous undoes a next that moved, and next undoes a previous that moved, up to the cleared highlight |
| Controller.PositionInjective | app/Http/Controllers/PresentationController.php:183-230 | different valid cursors have different positions |
| Controller.PreviousIntoEmptySection | app/Http/Controllers/PresentationController.php:226-229 | previous into a section holding only a leader note stores content index -1 |
| Controller.IndicesDependOnView | app/Models/PresentationState.php:40-55 | the same cursor (0, 0) names a leader note in the full view and a different item in the participant view |
| Controller.JumpKeepsHighlight | app/Http/Controllers/PresentationController.php:144-146 | an update that omits the highlight keeps it, while next and previous clear it |
| Controller.ToggleTwice | app/Http/Controllers/PresentationController.php:265-269 | toggling twice restores the key's membership, and restores the list exactly when the key was absent |
| Controller.ToggleKeepsOthers | app/Http/Controllers/PresentationController.php:266 | a toggle leaves the count of every other key unchanged |
| Controller.ToggleFlipsOneItem | app/Models/PresentationState.php:60-65 | after a toggle isScriptureExpanded flips for the toggled item and is unchanged for every other item |
| Controller.ApplyUpdateIdempotent | app/Http/Controllers/PresentationController.php:144-146 | replaying the same update changes nothing more (a one-step consequence of the field-by-field overwrite) |
| UsePresentation.Merge | resources/js/hooks/use-presentation.ts:81 | every field present in the reply replaces the old one and every absent field keeps its value |
| UsePresentation.AfterNavigate | resources/js/hooks/use-presentation.ts:73-85 | a non-2xx status, `success: false` or a throw leaves the state alone; a success merges the reply state |
| UsePresentation.AfterGoTo | resources/js/hooks/use-presentation.ts:107-113 | only `success: true` changes the state, by merging the reply state |
| UsePresentation.AfterToggle | resources/js/hooks/use-presentation.ts:135-141 | a success replaces only expandedScriptures; anything else changes nothing |
| UsePresentation.AfterHighlight | resources/js/hooks/use-presentation.ts:162-168 | a success replaces only the highlight; anything else changes nothing |
| UsePresentation.PresentationHook.constructor | resources/js/hooks/use-presentation.ts:10-14 | starts from the initial state, not connected, no issue, no channel |
| UsePresentation.PresentationHook.Subscribe | resources/js/hooks/use-presentation.ts:17-30 | without Echo: not connected, the missing-client issue, nothing subscribed; with Echo: issue cleared and the week's channel subscribed |
| UsePresentation.PresentationHook.OnStateUpdated | resources/js/hooks/use-presentation.ts:33-36 | an event replaces the whole state and nothing else |
| UsePresentation.PresentationHook.OnSubscribed | resources/js/hooks/use-presentation.ts:37-40 | connected, issue cleared |
| UsePresentation.PresentationHook.OnChannelError | resources/js/hooks/use-presentation.ts:41-45 | not connected, with the channel-error issue |
| UsePresentation.PresentationHook.Teardown | resources/js/hooks/use-presentation.ts:47-49 | leaves exactly the channel that was subscribed |
| UsePresentation.PresentationHook.Navigate | resources/js/hooks/use-presentation.ts:58-86 | a viewer sends nothing and keeps its state; a controller posts to next/previous and applies AfterNavigate |
| UsePresentation.PresentationHook.GoToItem | resources/js/hooks/use-presentation.ts:88-114 | viewer: nothing; controller: posts both indices to the state endpoint and applies AfterGoTo |
| UsePresentation.PresentationHook.ToggleScripture | resources/js/hooks/use-presentation.ts:116-142 | viewer: nothing; controller: posts to toggle-scripture and applies AfterToggle |
| UsePresentation.PresentationHook.HighlightQuestion | resources/js/hooks/use-presentation.ts:144-169 | viewer: nothing; controller: posts the question index and applies AfterHighlight |
| UsePresentation.ViewerFollowsBroadcast | resources/js/hooks/use-presentation.ts:35 | a viewer applying an event holds exactly the record's public fields (a one-step consequence of OnStateUpdated's replacement) |
| UsePresentation.LeaderStaysInStep | resources/js/hooks/use-presentation.ts:81-164 | for each of the five actions, merging the server's success reply into a leader in step with the record gives the new record's public fields |
| UsePresentation.MergeFullPatch | resources/js/hooks/use-presentation.ts:109 | a full reply overwrites whatever the client held |
| UsePresentation.MergeIdempotent | resources/js/hooks/use-presentation.ts:81 | merging the same reply twice is merging it once (a one-step consequence of the spread) |
| ReverbMeta.Host | resources/views/app.blade.php:47-56 | the configured host when truthy and not a bind address, otherwise the request host |
| ReverbMeta.Port | resources/views/app.blade.php:48 | the configured port, or 0 when none is configured |
| ReverbMeta.Scheme | resources/views/app.blade.php:49 | the configured scheme when truthy, otherwise the request scheme |
| ReverbMeta.MetaTags | resources/views/app.blade.php:58-61 | exactly four tags carrying the key (empty when unset), host, decimal port and scheme |
| ReverbMeta.HostIsConnectable | resources/views/app.blade.php:53-56 | the advertised host is never empty or a bind address unless the request's own host is |
| EchoClient.ReadMeta | resources/js/echo.ts:30-33 | the tag's content when the page has it, else null |
| EchoClient.ResolveConnection | resources/js/echo.ts:35-69 | none exactly when the key is missing or empty; otherwise the key, host and port from their chains, wssPort equal to wsPort, forceTLS equal to useTLS, and only the matching transport |
| EchoClient.EchoModule.constructor | resources/js/echo.ts:11 | not initialised, no client |
| EchoClient.EchoModule.InitializeEcho | resources/js/echo.ts:17-87 | an initialised module returns its client unchanged; no key gives null with the flag down; a throwing constructor gives null with the flag down, so a later call retries; otherwise the resolved client is stored and the flag raised |
| EchoClient.EchoModule.GetEcho | resources/js/echo.ts:92-94 | returns the stored client or null |
| EchoClient.SecurePageForcesTLS | resources/js/echo.ts:43-53 | on an https page the client uses TLS and only wss, whatever the configured scheme |
| EchoClient.ClientUsesShellValues | resources/js/echo.ts:55-56 | with no build variables the client uses the shell's key, host and port; with no configured port that port is 0, not the default |
| EchoClient.NoKeyNoConnection | resources/js/echo.ts:37-41 | a server without a key advertises an empty key, and the client makes no connection |
| JsText.Trim | resources/js/components/study/MemoryVerse.tsx:90 | the result is a slice s[a..b] of the input with only whitespace before a and from b on, and it neither starts nor ends with whitespace |
| JsText.TrimIdempotent | resources/js/components/study/MemoryVerse.tsx:90 | trimming twice is trimming once |
| JsText.ToNumber | resources/js/echo.ts:56 | blank text is 0, and trimmed digit text is its decimal value |
| JsText.ToNumberOfIntToString | resources/js/echo.ts:56 | Number reads back every integer the page shell prints |
| Present.Prompts | resources/js/pages/presentation/present.tsx:60-100 | only the highlighted question when it exists and is non-empty, otherwise all questions in order |
| Present.ItemScreen | resources/js/pages/presentation/present.tsx:157-192 | each item kind gets its own screen and only a leader note is the unknown type; a scripture screen has the item's reference and text and is expanded exactly when the cursor's "s-c" key is recorded |
| Present.CurrentContent | resources/js/pages/presentation/present.tsx:131-193 | waiting exactly when no section is at the cursor; the section header when no item is; otherwise that item's screen |
| Present.ViewerNeverShowsUnknown | resources/js/pages/presentation/present.tsx:190-191 | the projector, fed the participant view, never reaches "Unknown content type" |
| Present.ScriptureRevealedIffExpanded | resources/js/pages/presentation/present.tsx:158-170 | a scripture is revealed exactly when its "s-c" key is recorded |
| Present.DotStatus | resources/js/pages/presentation/present.tsx:249-255 | current iff i is the section index, done iff below it, pending iff above it |
| Present.FooterDots | resources/js/pages/presentation/present.tsx:246-257 | one dot per section, each with its status |
| Present.FooterOneCurrent | resources/js/pages/presentation/present.tsx:246-257 | on a valid section exactly one dot is current and exactly the dots before it are done |
| Present.StatusText | resources/js/pages/presentation/present.tsx:234 | "Connected", else the issue, else "Connecting..." |
| Control.Flatten | resources/js/pages/presentation/control.tsx:146-152 | the nested loops build every item of every section, leader notes included, in section-major order with its indices |
| Control.FlatLength | resources/js/pages/presentation/control.tsx:146-152 | the flat list holds as many entries as the sections hold items |
| Control.FlatAt | resources/js/pages/presentation/control.tsx:146-152 | item c of section s sits at its section-major position |
| Control.FlatEntryShape | resources/js/pages/presentation/control.tsx:146-152 | every entry is the item at its own indices and position |
| Control.FindIndex | resources/js/pages/presentation/control.tsx:154-156 | the first entry with the given indices, or -1 exactly when there is none |
| Control.CurrentFlatIndexIsPosition | resources/js/pages/presentation/control.tsx:154-156 | the current flat index is the cursor's section-major position in the full view, or -1 when the cursor names no item |
| Control.DisabledRules | resources/js/pages/presentation/control.tsx:258-275 | Previous is disabled exactly on the first item and Next exactly on the last; off the outline only Next can be disabled, and only for an empty outline |
| Control.KeyCommand | resources/js/pages/presentation/control.tsx:160-169 | ArrowRight and space go forward, ArrowLeft back, Escape clears the highlight, every other key does nothing |
| Control.QuestionClick | resources/js/pages/presentation/control.tsx:90-92 | a click clears the highlight when it is that question, else highlights it |
| Control.QuestionClickTwice | resources/js/pages/presentation/control.tsx:90-92 | a second click undoes a click that cleared, and clears a click that highlighted (a one-step consequence of QuestionClick) |
| Control.ActiveIsCurrentEntry | resources/js/pages/presentation/control.tsx:227 | an outline item is active exactly when it is the one at the current flat index |
| Control.RevealButtonShown | resources/js/pages/presentation/control.tsx:49-58 | the reveal button shows only on a scripture item whose indices are the state's |
| Control.QuestionButtonsShown | resources/js/pages/presentation/control.tsx:76-83 | the question buttons show only on a prompts item with questions whose indices are the state's |
| Control.CurrentEntryShowsControls | resources/js/pages/presentation/control.tsx:58-83 | the current flat entry does show the reveal button when it is a scripture and the question buttons when it is a prompts item with questions |
| Control.AtMostOneItemShowsControls | resources/js/pages/presentation/control.tsx:226-229 | only the entry at the current flat index can show the reveal or question controls, so two entries that show them are the same entry |
| Control.RevealLabel | resources/js/pages/presentation/control.tsx:70 | the button reads "Hide Verse" exactly when the item's own "s-c" key is in the expanded list (line 229), else "Reveal Verse" |
| Control.RevealLabelMatchesProjector | resources/js/pages/presentation/control.tsx:228-229 | on the active outline entry the label reads "Hide Verse" exactly when the projector shows the scripture expanded |
| Control.SelectionAfterLeaderNote | resources/js/pages/presentation/control.tsx:239 | selecting the item after a leader note sends full-view indices that show only the section header on the projector |
| Control.NextEnabledButStays | resources/js/pages/presentation/control.tsx:275 | Next can be enabled while the server's participant walk stays put |
| Seqs.Filter | app/Models/Week.php:41-44 | the filtered list is no longer than the input, and holds exactly the kept elements |
| Seqs.FilterIdempotent | app/Models/Week.php:41-44 | filtering twice is filtering once |
| Seqs.FilterMultiplicity | app/Http/Controllers/PresentationController.php:266 | every kept value occurs as often as before; a removed value vanishes |
| Decimal.ParseNatToString | app/Models/PresentationState.php:62 | the decimal text of n is read back as n |
| Decimal.NatToStringInjective | app/Events/PresentationStateUpdated.php:24 | distinct numbers have distinct decimal texts |
| VerseText.SplitOn | resources/js/components/study/MemoryVerse.tsx:107-108 | at least one piece, and no piece contains the separator |
| VerseText.JoinSplitOn | resources/js/components/study/MemoryVerse.tsx:107-108 | joining the pieces with the separator gives back the text |
| VerseText.SplitOnJoin | resources/js/components/study/MemoryVerse.tsx:107-108 | splitting a join of separator-free pieces gives back the pieces |
| VerseText.Collapse | resources/js/components/study/MemoryVerse.tsx:89 | empty exactly when the input is; all whitespace becomes single spaces, no two in a row; every other character comes from the input |
| VerseText.SplitRuns | resources/js/components/study/MemoryVerse.tsx:49 | at least one word |
| VerseText.SplitRunsIsSplitOfCollapse | resources/js/components/study/MemoryVerse.tsx:49 | splitting at whitespace runs is splitting the collapsed text at single spaces |
| VerseText.VerseWords | resources/js/components/study/MemoryVerse.tsx:49 | the words contain no whitespace, and joined by spaces they give the collapsed verse |
| VerseText.Lower | resources/js/components/study/MemoryVerse.tsx:87 | same length, each character lower-cased |
| VerseText.Normalize | resources/js/components/study/MemoryVerse.tsx:86-90 | the normalised text holds only lower-case word characters and single spaces, with none at either end |
| VerseText.NormalizeFixed | resources/js/components/study/MemoryVerse.tsx:86-90 | a normalised text is its own normal form |
| VerseText.NormalizeIdempotent | resources/js/components/study/MemoryVerse.tsx:86-90 | normalising twice is normalising once |
| VerseText.NormalizedWordsNonEmpty | resources/js/components/study/MemoryVerse.tsx:86-90 | a non-empty normalised text has no empty word |
| VerseText.Level1Display | resources/js/components/study/MemoryVerse.tsx:52-61 | one cell per word with its index; a cell is blank exactly when (i+1) % 3 == 0 and the word is unrevealed |
| VerseText.BlankIndices | resources/js/components/study/MemoryVerse.tsx:76 | exactly the blank positions below the word count |
| VerseText.BlankCount | resources/js/components/study/MemoryVerse.tsx:76 | a verse of n words has n / 3 blanks |
| VerseText.AllRevealedNoBlanks | resources/js/components/study/MemoryVerse.tsx:52-61 | no blank is shown exactly when every blank position is revealed |
| VerseText.ShortVerseHasNoBlanks | resources/js/components/study/MemoryVerse.tsx:54 | a verse of fewer than three words has no blanks |
| VerseText.MaskShape | resources/js/components/study/MemoryVerse.tsx:66-68 | the mask keeps length and first character, replaces later letters with '_', and keeps every later non-letter |
| VerseText.MaskIdempotent | resources/js/components/study/MemoryVerse.tsx:66-68 | masking a masked word changes nothing |
| VerseText.MaskAll | resources/js/components/study/MemoryVerse.tsx:65-68 | each word masked, in order |
| VerseText.Level2Display | resources/js/components/study/MemoryVerse.tsx:64-70 | the masked line shows the space-joined words character by character, each shown as is or as '_' for a letter |
| VerseText.Level2ShowsVerse | resources/js/components/study/MemoryVerse.tsx:64-70 | the level-2 line has the collapsed verse's length and shows each of its characters or '_' for a letter |
| Levenshtein.LevenshteinDistance | resources/js/components/study/MemoryVerse.tsx:120-138 | the matrix method returns the edit distance of the standard recurrence |
| Levenshtein.FillRow | resources/js/components/study/MemoryVerse.tsx:127-134 | the inner loop fills row j with the recurrence from row j-1 |
| Levenshtein.DistanceToEmpty | resources/js/components/study/MemoryVerse.tsx:123-124 | the distance to the empty string is the other length |
| Levenshtein.DistanceProperties | resources/js/components/study/MemoryVerse.tsx:120-138 | zero exactly for equal strings, at most the longer length, at least the length difference, and symmetric |
| MemoryVerse.Matches | resources/js/components/study/MemoryVerse.tsx:111-115 | never more matches than words examined |
| MemoryVerse.CalculateSimilarity | resources/js/components/study/MemoryVerse.tsx:106-118 | the loop counts words at the same position that are equal or within distance 2 of a non-empty verse word, divided by the larger word count |
| MemoryVerse.Passes | resources/js/components/study/MemoryVerse.tsx:92-98 | passes exactly when the normalised answer's similarity to the normalised verse reaches the threshold |
| MemoryVerse.SimilarityBounds | resources/js/components/study/MemoryVerse.tsx:117 | the similarity lies in [0, 1] |
| MemoryVerse.Threshold | resources/js/components/study/MemoryVerse.tsx:117 | similarity ≥ p/10 exactly when 10 × matches ≥ p × larger word count |
| MemoryVerse.Level2Threshold | resources/js/components/study/MemoryVerse.tsx:280 | level 2 passes exactly when 10 × matches ≥ 7 × the larger word count |
| MemoryVerse.Level3Threshold | resources/js/components/study/MemoryVerse.tsx:98 | level 3 passes exactly when 10 × matches ≥ 8 × the larger word count |
| MemoryVerse.NormalizedSelfScoresOne | resources/js/components/study/MemoryVerse.tsx:106-118 | a non-empty normalised text scores 1 against itself |
| MemoryVerse.ExactRecallScoresOne | resources/js/components/study/MemoryVerse.tsx:84-98 | typing the verse exactly scores 1 unless the verse normalises to nothing |
| MemoryVerse.ScoreAgainstEmpty | resources/js/components/study/MemoryVerse.tsx:112 | against the empty text every answer scores 0 |
| MemoryVerse.EmptyVerseScoresZero | resources/js/components/study/MemoryVerse.tsx:92-98 | a verse that normalises to nothing scores 0 against every answer |
| MemoryVerse.ShortWordsAlwaysMatch | resources/js/components/study/MemoryVerse.tsx:112 | words of at most two characters match any non-empty verse word of at most two characters |
| MemoryVerse.Advance | resources/js/components/study/MemoryVerse.tsx:140-152 | below level 3 the next level, not completed; from 3 on level 3 completed; always a saveable progress |
| MemoryVerse.AdvanceReachesMastered | resources/js/components/study/MemoryVerse.tsx:140-152 | from any level three completions reach level 3 mastered, which then stays |
| MemoryVerse.BlankClickCompletesExactly | resources/js/components/study/MemoryVerse.tsx:76-79 | when every click is on a hidden blank, the completion test fires exactly on the last one |
| MemoryVerse.Game.constructor | resources/js/components/study/MemoryVerse.tsx:35-40 | display screen, level 1, not completed, nothing revealed, empty input, no hint |
| MemoryVerse.Game.LoadProgress | resources/js/components/study/MemoryVerse.tsx:43-47 | takes the stored level and completion, or level 1 not completed when nothing is stored |
| MemoryVerse.Game.LevelComplete | resources/js/components/study/MemoryVerse.tsx:140-152 | below 3: next level, revealed and input cleared; at 3: completed on the success screen; the saved progress is Advance of the old level, and the game invariant is kept |
| MemoryVerse.Game.StartPractice | resources/js/components/study/MemoryVerse.tsx:154-158 | playing screen, revealed and input cleared, progress kept |
| MemoryVerse.Game.ResetProgress | resources/js/components/study/MemoryVerse.tsx:160-167 | level 1, not completed, cleared, display screen, and saves level 1 not completed |
| MemoryVerse.Game.BlankClick | resources/js/components/study/MemoryVerse.tsx:72-82 | adds the index to the revealed words and reports completion when the old count plus one reaches the blank count |
| MemoryVerse.Game.SetInput | resources/js/components/study/MemoryVerse.tsx:269-271 | only the input changes |
| MemoryVerse.Game.Submit | resources/js/components/study/MemoryVerse.tsx:84-104 | passes exactly when the grade reaches the threshold; a pass completes the level, a failure shows the hint and changes nothing else |
| MemoryVerse.Game.AfterCheck | resources/js/components/study/MemoryVerse.tsx:98-103 | a pass runs the level completion, a failure only shows the hint |
| MemoryVerse.Game.HideHint | resources/js/components/study/MemoryVerse.tsx:102 | only the hint is hidden |
| MemoryVerse.Game.BackToDisplay | resources/js/components/study/MemoryVerse.tsx:322-327 | only the screen returns to display |

## Left out

- Delivery and network: WebSocket transport, the Pusher/Echo/Reverb libraries, the broadcast fan-out (including its `toOthers` exclusion), delivery order and retries. They are foreign code and network behaviour. The model keeps the payload, the channel name and whether a channel was subscribed.
- Concurrency: concurrent requests, the atomicity of `firstOrCreate`, and the asynchronous interleaving of `fetch` replies with events. The table is a sequential map, and each client action takes its server reply as a parameter.
- Routing and lookups: the `auth` middleware's redirect or 401 for guests is routing and not modelled. The series/week lookup that precedes `present` and `control` (a 404 when it fails) is also left out. Both endpoints take the week directly.
- Validation rules beyond the ones listed: Laravel's validator is a predicate over already-typed fields. Non-integer and non-boolean inputs are not represented. `expanded_scriptures` is taken to be a list of strings, while the rule `array` accepts any array.
- HighlightQuestion: a request with no `question_index` key at all reads an undefined array key in PHP, which the model does not represent. The parameter is a present, possibly null index.
- Null `expanded_scriptures` rows: every write path in the modelled code stores a list, so the record field is a list, and the `?? []` fallbacks in `toggleScripture` and `isScriptureExpanded` are the identity on it.
- Rendering: React rendering, Tailwind classes and HTML strings, including the `<span class="highlight">` rewriting and the `dangerouslySetInnerHTML` of callouts. Also the wake lock, the QR code button and the clipboard. The model keeps which screen or control is shown and with which text.
- Side effects of the game: `localStorage` and `JSON.parse` become `Progress` values passed in (`LoadProgress`) and returned (`LevelComplete`, `ResetProgress`). An unreadable entry is passed as none. A stored object with other fields or levels is taken as given. The `typeof window` checks are not modelled.
- Timers: the 500 ms delay after the last blank and the 3 s hint timer. `BlankClick` returns whether the level completes, and the caller runs `LevelComplete`. `HideHint` is the hint timer firing.
- MemoryVerse.Game.Submit: one method for both answer buttons. It takes the threshold in per cent, 70 for "Check Answer" and 80 for "Submit Final Answer".
- JsText.ToNumber: only decimal integer text (optionally signed, surrounded by whitespace) is computed. Fractions, exponents, hexadecimal, `Infinity` and NaN become `OtherNumber`, and "-0" reads as 0.
- MemoryVerse.Similarity: the division is on exact reals, not IEEE doubles.
- Strings are sequences of characters, not UTF-16 code units. So `charAt(0)` of a word starting with an astral character, and lower-casing beyond ASCII (which can change length for some characters), are not modelled. `VerseText.LowerChar` lower-cases ASCII letters only.
- ReverbMeta.Port: `(int)` of the configured port is taken as an already-integral configuration value. PHP's string-to-int cast of arbitrary text is not modelled.
- Connection diagnostics: the console logging, the `import.meta.env.DEV` switch and the `connected`/`disconnected`/`error` bindings in echo.ts only log.
- Control.Flatten: requires every section to carry its `content` list, as the TypeScript `Section` type demands. A week with null sections, or a stored section without `content`, makes the control page throw while rendering. That throw is not modelled.
- The control center's header shows "Connected" or "Connecting..." without the issue text, and that header is not modelled. `Present.StatusText` is the projector's header.
