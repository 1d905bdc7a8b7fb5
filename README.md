# Mention suggestions of the chat form editor, in Dafny

This project models the mention feature of Tabby's chat form editor
(`ee/tabby-ui/components/chat/form-editor/mention.tsx`). Typing the trigger
character opens a dropdown, `MentionList`, that lists files, symbols or a
"changes" command from the workspace. Choosing an entry inserts a mention
node. When exported as plain text, the node becomes a placeholder such as
`[[file:"src/a.ts"]]`.

The model has three parts.

- **The list controller** (`mention_list.dfy`, class `MentionList`). Its
  fields are the component's state: `items`, `selectedIndex`, `mode`,
  `isLoading` and `isFirstShow`. The staleness flags of `latestPromiseRef`
  are kept as `tokens`, one `isCurrent` flag per started fetch, in start
  order. The awaits of `fetchOptions` become explicit events that a caller
  may run in any order: `StartFetch`, `ResolveFetch`, `FailFetch` and
  `Teardown`. User events are `OnKeyDown`, `HandleSelect`, `Hover` and
  `GoBack`. The invariant `Valid()` says five things:
  - only the latest fetch can be current;
  - while mounted, the latest fetch is current;
  - no fetch is current after teardown;
  - with a single source, the mode stays that source's kind;
  - once a fetch has started outside the first show, `isFirstShow` is false.

  That `isFirstShow` only goes from true to false comes from the methods'
  postconditions, not from `Valid()`.
- **What a fetch computes** (`fetch_results.dfy`, `uniq_by.dfy`,
  `fetch_tokens.dfy`). The result list is a pure function, `Assemble`, of
  what the fetch captured when it started and of the answers of the
  workspace calls. `UniqById` is lodash `uniqBy(…, 'id')`, first occurrence
  kept. `Enrich` is the description step. The token functions model the
  commit guard as written and as evidently intended.
- **The mention node** (`mention_node.dfy`). It covers the attribute
  defaults, `renderText` and the `renderHTML` rule of each attribute. A
  small placeholder reader, `Parse`, is the partner: every rendered
  placeholder is proved to read back as its kind and body.

`items.dfy` holds the shared datatypes. It also holds stand-ins for the
adapters defined outside `mention.tsx`.

Behaviours of the code worth knowing; the model follows the code in each:
- The commit guard reads the flag of the *latest* fetch, not that of the
  resolving one, so latest-started-wins does not hold (see Findings).
- Symbol results keep the *first* item of each id, as `uniqBy` does.
- `isLoading` starts out false. It goes true when the first fetch starts.
- A failing label resolution in `handleSelect` is not caught. It propagates
  out of `onKeyDown`, shown as `Threw`.
- A failed fetch clears `isLoading` whether or not it is the latest fetch.

## Model

| member | source | states |
|---|---|---|
| `MentionItems.ModeOfId` | ee/tabby-ui/components/chat/form-editor/mention.tsx:336-339 | 'category' gives the category mode and 'file' the file mode; any other id acts as symbol mode |
| `FetchResults.Categories` | ee/tabby-ui/components/chat/form-editor/mention.tsx:186-198 | One category per configured source, Files before Symbols, only those present, never the category mode |
| `FetchResults.SingleModeIffOneSource` | ee/tabby-ui/components/chat/form-editor/mention.tsx:200-207 | `isSingleMode` holds iff exactly one of the file and symbol sources is given; otherwise the initial mode is 'category' and the menu is shown |
| `FetchResults.SingleSourceFixesMode` | ee/tabby-ui/components/chat/form-editor/mention.tsx:200-207 | With exactly one source the mode becomes that source's kind and the category menu is never shown |
| `FetchResults.HeaderSelectsItsMode` | ee/tabby-ui/components/chat/form-editor/mention.tsx:245-256 | Each header row is a root item whose id selects the mode of the category it stands for |
| `FetchResults.EffectiveQuery` | ee/tabby-ui/components/chat/form-editor/mention.tsx:214 | A fetch uses the raw query on first show and the debounced query otherwise |
| `FetchResults.CommandMatchIgnoresCase` | ee/tabby-ui/components/chat/form-editor/mention.tsx:233-238 | The changes-command match does not depend on the case of the query |
| `FetchResults.CommandMatchesEmptyAndOwnName` | ee/tabby-ui/components/chat/form-editor/mention.tsx:233-238 | An empty query, and the command's own name in either case, match the changes command iff `getChanges` is given |
| `FetchResults.RequestOf` | ee/tabby-ui/components/chat/form-editor/mention.tsx:222-273 | The menu and file mode ask the file source, symbol mode asks the symbol source, each with the effective query and only when configured; the changes source is never called |
| `FetchResults.AssembleReadsOnlyRequested` | ee/tabby-ui/components/chat/form-editor/mention.tsx:220-276 | The assembled list does not depend on the answer of a call `RequestOf` does not make |
| `FetchResults.Assemble` | ee/tabby-ui/components/chat/form-editor/mention.tsx:220-276 | The root-category items of an assembled list are exactly its leading headers, one per category, and only in the category menu with an empty query |
| `FetchResults.CategoryMenuEmptyQuery` | ee/tabby-ui/components/chat/form-editor/mention.tsx:243-262 | Empty query in the menu: headers of the configured sources in order, then the changes command iff `getChanges` is given, then all file answers in order; only the headers are root items |
| `FetchResults.CategoryMenuWithQuery` | ee/tabby-ui/components/chat/form-editor/mention.tsx:226-242 | Non-empty query in the menu: no headers; the changes command appears, first, iff it is configured and its lowercased name starts with the lowercased query; otherwise the list is exactly the file answers |
| `FetchResults.SpecificModeResults` | ee/tabby-ui/components/chat/form-editor/mention.tsx:264-273 | File mode lists the file answers; symbol mode lists the symbol answers with distinct ids, each id present, each the first of its id, in order; no root items |
| `FetchResults.SingleSourceListsNoHeaders` | ee/tabby-ui/components/chat/form-editor/mention.tsx:206-207 | With one source no fetch lists a root-category item |
| `FetchResults.Describe` | ee/tabby-ui/components/chat/form-editor/mention.tsx:284-290 | An item keeps everything but its description; a file item that has a `fileItem` whose path the describer accepts gets that description; any other item is unchanged |
| `FetchResults.Enrich` | ee/tabby-ui/components/chat/form-editor/mention.tsx:283-292 | Enrichment changes only descriptions, and only of file items whose path the describer accepts; a throwing describer leaves the item unchanged |
| `UniqBy.UniqById` | ee/tabby-ui/components/chat/form-editor/mention.tsx:272 | Dedup by id keeps one item per id of the input, each the first item of its id, as a subsequence of the input |
| `UniqBy.UniqSubsequence` | ee/tabby-ui/components/chat/form-editor/mention.tsx:272 | The scan keeps the input's order |
| `UniqBy.UniqIds` | ee/tabby-ui/components/chat/form-editor/mention.tsx:272 | The scan keeps exactly the ids not seen before |
| `UniqBy.UniqDistinct` | ee/tabby-ui/components/chat/form-editor/mention.tsx:272 | The scan never keeps an id twice |
| `UniqBy.UniqKeepsFirst` | ee/tabby-ui/components/chat/form-editor/mention.tsx:272 | Every kept item is the first of its id in the input |
| `UniqBy.UniqByIdIdempotent` | ee/tabby-ui/components/chat/form-editor/mention.tsx:272 | Deduplicating twice equals deduplicating once |
| `FetchTokens.InvalidateLatest` | ee/tabby-ui/components/chat/form-editor/mention.tsx:216-218 | Only the latest fetch's flag is cleared, and no other flag changes |
| `FetchTokens.StartToken` | ee/tabby-ui/components/chat/form-editor/mention.tsx:278-279 | Starting a fetch clears the previous latest flag and appends a current flag for the new fetch |
| `FetchTokens.StepKeepsOnlyLatestCurrent` | ee/tabby-ui/components/chat/form-editor/mention.tsx:216-279 | Start and teardown keep "only the latest fetch is current"; teardown leaves none current |
| `FetchTokens.ReplayOnlyLatestCurrent` | ee/tabby-ui/components/chat/form-editor/mention.tsx:216-279 | After any sequence of starts and teardowns only the latest fetch is current, and none after a final teardown |
| `FetchTokens.NoCommitAfterTeardown` | ee/tabby-ui/components/chat/form-editor/mention.tsx:328-334 | After teardown no resolve commits, under either guard |
| `FetchTokens.StaleFetchCommitsAsWritten` | ee/tabby-ui/components/chat/form-editor/mention.tsx:294 | After two starts, the first (stale) fetch passes the guard as written |
| `FetchTokens.AsWrittenCommitsEverySuperseded` | ee/tabby-ui/components/chat/form-editor/mention.tsx:294-299 | Right after a start, every earlier fetch passes the guard as written and fails the own-token guard |
| `FetchTokens.OwnTokenLatestStartedWins` | ee/tabby-ui/components/chat/form-editor/mention.tsx:278-294 | With the own-token guard only the latest started fetch can commit, in any resolve order |
| `FetchTokens.GuardsAgreeOnLatest` | ee/tabby-ui/components/chat/form-editor/mention.tsx:294 | While only the latest fetch can be current, the own-token guard (`CommitsOwnToken`) passes for a fetch iff the guard as written (`CommitsAsWritten`) passes and that fetch is the latest |
| `MentionNode.NodeAttrs` | ee/tabby-ui/components/chat/form-editor/mention.tsx:100-143 | A command payload gives category `command` and its command; an item payload gives its category and file item; the label is the payload's text; id stays null, fileItem null for commands, command null for items |
| `MentionNode.CommandName` | ee/tabby-ui/components/chat/form-editor/mention.tsx:88 | The command name is the command, or `default` when it is null or empty; it is never empty |
| `MentionNode.RenderText` | ee/tabby-ui/components/chat/form-editor/mention.tsx:82-97 | Rendering throws exactly for a file or unknown category with a null file item |
| `MentionNode.RenderTextReadsBack` | ee/tabby-ui/components/chat/form-editor/mention.tsx:82-97 | A rendered placeholder reads back as `contextCommand` with the command name, `symbol` with the file item's JSON, or `file` with the path's JSON, by category |
| `MentionNode.FileTextDeterminesPath` | ee/tabby-ui/components/chat/form-editor/mention.tsx:91-95 | With an injective string encoder, two file mentions render the same text iff they have the same path |
| `MentionNode.RenderHtml` | ee/tabby-ui/components/chat/form-editor/mention.tsx:100-143 | Each HTML attribute is present iff its attribute is truthy, carries that attribute's value, and `data-id` follows the file item, not the id |
| `MentionNode.DefaultAttrsRenderCategoryOnly` | ee/tabby-ui/components/chat/form-editor/mention.tsx:100-143 | A node with only default attributes renders just `data-category="file"` |
| `MentionNode.CommandMentionHtml` | ee/tabby-ui/components/chat/form-editor/mention.tsx:126-142 | A command mention renders category, command and label, and no id or file |
| `MentionListController.Select` | ee/tabby-ui/components/chat/form-editor/mention.tsx:336-363 | A root item with several sources switches to the mode its id names; otherwise a command item emits a command mention with its name as command and label, a symbol item a symbol mention with its file item and name, a file item a file mention with the label the resolver returns, and a header that does not switch a category mention with its file item and name; it throws exactly for a file item with no file item or a throwing resolver |
| `MentionListController.SelectSwitchesOnlyOnRootItems` | ee/tabby-ui/components/chat/form-editor/mention.tsx:336-363 | Selection switches mode iff the item is a root item and several sources exist; a non-root, non-file item always emits |
| `MentionListController.SelectHeaderSwitchesToItsMode` | ee/tabby-ui/components/chat/form-editor/mention.tsx:336-340 | Choosing a menu header switches to its category's mode and emits nothing |
| `MentionListController.SelectedMentionReadsBack` | ee/tabby-ui/components/chat/form-editor/mention.tsx:342-362 | The mention emitted for a command, symbol or file item renders to the placeholder of that kind with the item's name, file item or path |
| `MentionListController.ArrowIndex` | ee/tabby-ui/components/chat/form-editor/mention.tsx:370-379 | ArrowUp gives `max(0, i-1)`, ArrowDown `min(n-1, i+1)`, and an in-range index stays in range |
| `MentionListController.ArrowsStayInRange` | ee/tabby-ui/components/chat/form-editor/mention.tsx:370-393 | Any run of arrow keys from an in-range index stays in range |
| `MentionListController.RepeatedArrowDown` | ee/tabby-ui/components/chat/form-editor/mention.tsx:377-378 | m presses of ArrowDown give `min(n-1, i+m)` |
| `MentionListController.RepeatedArrowUp` | ee/tabby-ui/components/chat/form-editor/mention.tsx:374-375 | m presses of ArrowUp give `max(0, i-m)` |
| `MentionListController.ArrowDownOnEmptyList` | ee/tabby-ui/components/chat/form-editor/mention.tsx:377-378 | ArrowDown on an empty list gives index -1 |
| `MentionListController.MentionList.constructor` | ee/tabby-ui/components/chat/form-editor/mention.tsx:177-204 | Mounting starts with the prop items, index 0, the memo's mode, not loading, first show, and no fetch |
| `MentionListController.MentionList.StartFetch` | ee/tabby-ui/components/chat/form-editor/mention.tsx:209-279 | Starting a fetch sets loading, marks the previous latest stale, installs a current token, and captures mode, menu flag and effective query; nothing else changes |
| `MentionListController.MentionList.ResolveFetch` | ee/tabby-ui/components/chat/form-editor/mention.tsx:281-299 | The guard passes exactly while the list is mounted, whichever fetch resolves; then the enriched assembled list of this fetch replaces the items, the index becomes 0, loading ends and first show ends if the fetch began on it; after teardown nothing visible changes |
| `MentionListController.MentionList.FailFetch` | ee/tabby-ui/components/chat/form-editor/mention.tsx:300-304 | A failing fetch clears loading and keeps the items, stale or not |
| `MentionListController.MentionList.Teardown` | ee/tabby-ui/components/chat/form-editor/mention.tsx:328-334 | Teardown marks the latest fetch stale, leaving no fetch current |
| `MentionListController.MentionList.HandleSelect` | ee/tabby-ui/components/chat/form-editor/mention.tsx:336-363 | Selection switches the mode only for a root item with several sources, and otherwise returns the payload to emit |
| `MentionListController.MentionList.Hover` | ee/tabby-ui/components/chat/form-editor/mention.tsx:428 | Hovering a row selects it |
| `MentionListController.MentionList.GoBack` | ee/tabby-ui/components/chat/form-editor/mention.tsx:404-414 | The back button returns to the category mode |
| `MentionListController.MentionList.OnKeyDown` | ee/tabby-ui/components/chat/form-editor/mention.tsx:366-394 | While loading every key returns false and changes nothing; arrows move the index by `ArrowIndex` and return true; Enter returns true, selects the current item if it exists and resets the index after a root item; other keys return false and change nothing |
| `MentionListController.StaleResolveScenario` | ee/tabby-ui/components/chat/form-editor/mention.tsx:281-299 | Two fetches, the newer resolving first: the older one's list is what stays committed |

## Findings

| source | as written | input that shows it | evidently intended | confidence | as-written member | corrected member |
|---|---|---|---|---|---|---|
| ee/tabby-ui/components/chat/form-editor/mention.tsx:294 | The commit guard reads `latestPromiseRef.current.isCurrent`, the flag of the latest fetch. It is true while the component is mounted, whichever fetch resolves (`ResolveFetch` states this). | Start fetch A, start fetch B, B resolves and commits, then A resolves: A's list is committed over B's | The resolving fetch checks its own flag (`currentPromise.isCurrent`), so a superseded fetch is dropped and the latest started wins | medium, not executed | `FetchTokens.StaleFetchCommitsAsWritten`, `MentionListController.StaleResolveScenario` | `FetchTokens.OwnTokenLatestStartedWins` |

The controller class keeps the guard as written, `CommitsAsWritten`,
because that is what the program does. The own-token guard,
`CommitsOwnToken`, is defined next to it. `OwnTokenLatestStartedWins`
proves that under it the latest started fetch wins.

## Left out

- Rendering is not modelled: JSX, `MentionComponent`, `OptionItemView`, icons, CSS classes, `scrollIntoView`, the loading overlay and the empty-list messages. They are presentation with no state of the controller.
- The debounce timers (100 ms and 150 ms) are not modelled. `debouncedQuery` is an argument of `StartFetch`, and the debounced loading flag only gates the overlay.
- Promise scheduling is not modelled. A caller runs start, resolve, fail and teardown events in any order.
- The model does not enforce that the effect at lines 317-326 starts a fetch after every change of mode, query, debounced query, `isFirstShow` or `shouldShowCategoryMenu`. So the refetch with the debounced query that follows the first commit (which clears `isFirstShow`) is not forced either. The caller decides when `StartFetch` runs.
- The workspace callbacks are not modelled. They become presence flags in `Sources`, and their answers are passed to `ResolveFetch`.
- The adapters defined outside this file are minimal stand-ins, because their code is not part of this model:
  - a file item's id and name are its path (the real adapter shows the base name);
  - a symbol's id is taken from its record;
  - the changes command's name is the parameter `changesName`.
- `JSON.stringify` is left uninterpreted, as the encoder record `Json`.
- `convertFromFilepath` and `formatFileDescription` are not modelled. They become the parameter `describe`. A description of `undefined` is not told apart from a returned string.
- `resolveFileNameForDisplay` is not modelled. It becomes the parameter `fileLabel`.
- Case folding covers ASCII only. `toLowerCase` folds Unicode letters too.
- The header rows' empty `fileItem` object is modelled as absent. No reachable path reads it: a listed header always switches the mode, because headers are listed only when several sources exist. A header passed in the prop items in single-source mode would render `[[file:undefined]]` in the source, where the model's `RenderText` throws.
- The mode starts already switched by the `categories` memo. The render before that switch, with mode 'category' in single-source mode, is not modelled.
- The item descriptions are updated as values. In the source they are mutated in place, but every item of a fetch is built fresh by that fetch, so nothing else can see the mutation.
- The workspace callbacks are fixed for the life of the list. A change of props while mounted is not modelled.
- TipTap's `parseHTML`, the insertion of the node into the document and the closing of the dropdown are not modelled.
