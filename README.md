# MCA Decision Making Pathway — navigation and summary text, in Dafny

The MCA Decision Making Pathway is a browser questionnaire. It walks a user through a fixed
decision tree about mental capacity, one node (question or result) at a time. This project
models the two parts of it that have logic:

- **Navigation** (`navigation.dfy`, from `app/page.tsx`). The page keeps a current node id
  and a stack of previously visited ids. Choosing an option pushes the current id and moves
  to the option's target. Back pops the stack, and does nothing on an empty stack. Restart
  clears the stack and returns to the start node. The views derived from this state are the
  step counter, whether Back is shown, whether Restart is shown, and the three-way styling of
  the node (question, capacity result, other result). The state is the class
  `DecisionTree`, whose handlers update `currentNodeId` and `history` in place. Each handler
  is specified by a pure function on a `Session` value (`Start`, `Choose`, `Back`), and the
  lemmas are stated about those functions.
- **Summary text** (`summary.dfy`, from `app/components/SummaryModal.tsx`). This covers the
  plain-text summary copied to the clipboard, the on-screen line for each established fact
  and the status banner, all as functions over `string`.
- **Data shapes** (`types.dfy`, from `types/index.ts`). `Option`, `Node` and `FlowchartData`
  are datatypes. Optional properties are `Optional<T>` (`wrappers.dfy`), and `type` and
  `status` are enumerations. The property `label` of `Option` is named `labelText`, because
  `label` is a Dafny keyword.

The flowchart itself is a parameter. `WellFormed` states what the page assumes of it without
checking: the start id and every option's target are keys of `nodes`. `app/page.tsx:19`
looks up the current node and dereferences it without a check. So `WellFormed` is the
constructor's precondition and part of the class invariant `Valid()`. Under it, every
transition keeps the current id and every history entry inside the tree.

Two details follow the code exactly:

- Back on an empty history is a no-op (`app/page.tsx:27`). There is no welcome screen to
  return to.
- The pop is guarded by `if (prevNodeId)` (`app/page.tsx:31`). A popped empty-string id
  therefore shrinks the history but leaves the current node in place. `Back` models this,
  and `BackAfterChooseFromEmptyId` shows the consequence. The undo lemmas therefore require
  non-empty ids.

`handleOptionClick` accepts any string, but its only caller passes the target of one of the
current node's options (`app/page.tsx:90-93`). `HandleOptionClick` requires exactly that.

The page has no welcome screen and no recovery from a missing node, and the summary dialog
receives its items as input.

## Model

| member | source | states |
|---|---|---|
| Types.OptionsOf | types/index.ts:13 | a node's options in display order; none when the optional property is absent |
| Types.WellFormed | app/page.tsx:16-19 | the assumption the page makes silently when it dereferences `data.nodes[currentNodeId]`: the start id (a plain string in types/index.ts:19) and every option's `nextNodeId` are keys of `nodes`; its consequences are stated by `StartConsistent`, `ChooseKeepsConsistent` and `ChooseAllKeepsConsistent` |
| Types.Targets | app/page.tsx:90-93 | one button target per option, in display order, each the option's `nextNodeId` |
| Navigation.Start | app/page.tsx:16-17 | the initial state has the start id current and an empty history |
| Navigation.Choose | app/page.tsx:21-24 | a choice appends exactly one history entry, the previous current id, keeps all earlier entries and makes the target current |
| Navigation.Back | app/page.tsx:26-32 | back on an empty history changes nothing; otherwise it removes exactly the last entry and makes it current, unless that entry is the empty string, which leaves current unchanged |
| Navigation.StepNumber | app/page.tsx:117 | the step counter is the history length plus one, so at least 1 |
| Navigation.BackOffered | app/page.tsx:51 | the Back button is shown iff the history is non-empty |
| Navigation.AppearanceOf | app/page.tsx:39-76 | question styling iff the node is a question; capacity styling iff a result with status capacity; non-capacity styling iff a result with any other or no status |
| Navigation.RestartOffered | app/page.tsx:103-110 | the restart button is shown exactly on nodes not styled as questions, i.e. result nodes |
| Navigation.StartConsistent | app/page.tsx:16-19 | on a well-formed tree the initial state refers only to nodes of the tree |
| Navigation.ChooseKeepsConsistent | app/page.tsx:90-93 | choosing an option of the current node keeps the current id and every history entry inside the tree |
| Navigation.BackKeepsConsistent | app/page.tsx:26-32 | back keeps the current id and every history entry inside the tree |
| Navigation.BackUndoesChoose | app/page.tsx:21-32 | back right after a choice restores the exact prior (current id, history) pair when the pushed id is non-empty |
| Navigation.BackAfterChooseFromEmptyId | app/page.tsx:29-31 | with an empty current id, choose then back leaves the chosen node current and only restores the history |
| Navigation.BackOfferedIffBackActs | app/page.tsx:51-53 | the Back button is shown exactly when pressing it changes the state |
| Navigation.ChooseAllPushes | app/page.tsx:21-24 | after n choices with no back, the history is the old history, the old current id and all chosen ids but the last; the last chosen id is current |
| Navigation.StepsAfterChoices | app/page.tsx:117 | after n choices from the start the step counter reads n + 1 |
| Navigation.BackTimesUndoesChooseAll | app/page.tsx:21-32 | n backs after n choices return to the state before them, when no id involved is empty |
| Navigation.ChooseAllKeepsConsistent | app/page.tsx:90-93 | any run of option clicks from a state inside a well-formed tree stays inside it |
| Navigation.DecisionTree.constructor | app/page.tsx:15-17 | a new page holds the given well-formed tree, starts at the start id with an empty history, and satisfies the invariant |
| Navigation.DecisionTree.CurrentNode | app/page.tsx:19 | the node on screen is the tree's node for the current id, and under the invariant the lookup cannot fail |
| Navigation.DecisionTree.HandleOptionClick | app/page.tsx:21-24 | the new state is `Choose` of the old one, and the invariant is kept |
| Navigation.DecisionTree.HandleBack | app/page.tsx:26-32 | the new state is `Back` of the old one, and the invariant is kept |
| Navigation.DecisionTree.HandleRestart | app/page.tsx:34-37 | from any state the new state is the start id with an empty history, so restarting twice is the same as once |
| Summary.OrElse | app/components/SummaryModal.tsx:38 | JavaScript's logical or on an optional string: the string when present and non-empty, the fallback when absent or empty |
| Summary.CopyLine | app/components/SummaryModal.tsx:38 | an item's copied line is its non-empty statement, otherwise `question - answer` |
| Summary.DisplayLine | app/components/SummaryModal.tsx:104 | an item's on-screen line is its non-empty statement, otherwise `question (answer)` |
| Summary.CopyLineIsDisplayLineIffStatement | app/components/SummaryModal.tsx:104 | the copied line (line 38) and the displayed line agree iff the item has a non-empty statement; the two fallbacks always differ |
| Summary.JoinLines | app/components/SummaryModal.tsx:39 | joining no lines gives the empty string; otherwise the text starts with the first line |
| Summary.JoinLinesAppend | app/components/SummaryModal.tsx:39 | for any non-empty list of lines, appending a line adds exactly one newline and then that line |
| Summary.SplitJoinLines | app/components/SummaryModal.tsx:39 | cutting joined lines at newlines gives back exactly the lines, in order, when none contains a newline: single separators, none leading or trailing |
| Summary.CopyLines | app/components/SummaryModal.tsx:37-38 | one copied line per item, in input order |
| Summary.StatementsLayout | app/components/SummaryModal.tsx:37-39 | no items give an empty fact block; otherwise, when no copied line contains a newline, the block consists of exactly one line per item, in input order |
| Summary.Statements | app/components/SummaryModal.tsx:37-39 | the fact block of the copied text: empty for no items, otherwise starting with the first item's copied line; its full layout is `StatementsLayout` |
| Summary.StatusPhrase | app/components/SummaryModal.tsx:42 | the non-empty phrase the copied text uses for a status; `StatusPhrasesDiffer` and `StatusSectionDistinguishes` state that the two statuses get different text |
| Summary.StatusPhrasesDiffer | app/components/SummaryModal.tsx:42 | the two status phrases are different |
| Summary.StatusSection | app/components/SummaryModal.tsx:41-43 | the status section is empty without a status, otherwise a blank line and `Current Status: ` followed by the phrase for that status |
| Summary.StatusSectionDistinguishes | app/components/SummaryModal.tsx:41-43 | the copied status sections for the two statuses differ |
| Summary.BannerText | app/components/SummaryModal.tsx:89-92 | the banner text for a status, which starts with `Current Status: `; `BannerMatchesCopy` ties it to the copied text |
| Summary.BannerMatchesCopy | app/components/SummaryModal.tsx:89-92 | for either status the on-screen banner is the copied status section without its leading blank line |
| Summary.CopyText | app/components/SummaryModal.tsx:45 | the clipboard text, which starts with `Assessment Summary:`, a blank line and the fact block; its full layout is `CopyTextLayout` |
| Summary.CopyTextLayout | app/components/SummaryModal.tsx:45 | the copied text opens with `Assessment Summary:` and a blank line; the outcome paragraph directly follows the facts and the status section; the text is exactly that up to the outcome paragraph when the email template is absent or empty, and is followed directly by the template otherwise |

## Left out

- Rendering, CSS classes, icons and the `cn` class-name helper (`app/page.tsx:10-12`): presentation and calls into foreign libraries.
- The clipboard write and its promise continuation, the `copied` flag and its two-second reset timer (`app/components/SummaryModal.tsx:47-50`): asynchronous browser APIs and UI timing.
- Body-scroll locking (`app/components/SummaryModal.tsx:23-32`) and the dialog's `isOpen` early return: DOM side effects and rendering.
- The contents of `data/flowchart.json`: data/flowchart.json is not part of this model; the tree is a parameter constrained only by `WellFormed`.
- Page metadata, structured data, the web-app manifest and the HTTP header configuration (`app/layout.tsx`, `app/components/StructuredData.tsx`, `app/manifest.ts`, `next.config.ts`): static configuration with no behaviour.
- React's state scheduling: `setHistory` and `setCurrentNodeId` are applied as one atomic update of the two fields, which is what a single event handler produces.
