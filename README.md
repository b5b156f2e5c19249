# Prompt workbench core, modelled in Dafny

This project models the logic of a single-page prompt workbench. The front
end sends a seed idea plus modality parameters to a hosted language model,
streams back an "enhanced" master prompt, and keeps a history and bookmarks
of the results. Four pieces of that front end are modelled:

- **Shell** (`shell.dfy`, App.tsx) is the application shell. It holds the
  history, capped at 10 entries with the newest first. It also holds the
  bookmarks, the template waiting to be injected, and the active tab.
  `App` is a class whose handler methods replace those fields. Each new value
  comes from a pure list function: `WithNewest`, `ToggledBookmarks`,
  `FlippedHistory`.
- **Workspace** (`workspace.dfy`, components/Workspace.tsx) is the composer.
  Each handler is a pure update of the `WorkspaceState` record: the parameter
  change, the modality switch, "Reset Params", the reasoning switch, seed
  editing and template injection. The `Composer` class holds that record,
  the visible output and the generating flag. Its `Generate` method runs the
  trimmed-seed guard and builds the output one chunk at a time.
- **PromptLibrary** (`library.dfy`, components/PromptLibrary.tsx) is the
  template filter. It keeps order and takes a search term, ignoring case, plus
  one category selection. It also gives the list of category buttons.
- **GeminiService** (`service.dfy`, geminiService.ts) is the enhancement
  client. It builds the `k: v, k: v` parameters string, the user prompt and
  the thinking budget. It then relays the streamed chunks. The hosted service
  is represented by a `Stream`: the chunks that arrive, each with or without
  text, and whether the request or the stream then fails.

Support modules:

- `Strings`: ASCII case mapping, `includes`, ECMAScript `trim`, concatenation
  and `join`.
- `Seqs`: order-preserving selection.
- `Types`: the records of types.ts.
- `ParamList`: a parameter record as an association list. This keeps the
  insertion order that `Object.entries` reports.

Behaviour of the code that the model keeps as it is:

- The failure path appends one fixed diagnostic and does not classify the
  error (geminiService.ts:56-59).
- The library filter matches the search term against title and description
  only, and takes one category selection: "All" or a single category
  (components/PromptLibrary.tsx:11-19).
- geminiService.ts makes one streamed request per generation
  (`enhancePrompt`), and nothing else.
- `toggleBookmark` inverts the history flag instead of setting it to the new
  bookmark membership (App.tsx:41). The model keeps that. `ToggleKeepsAgreement`
  shows that agreement between history flags and bookmarks survives a toggle
  only if it already held. `ToggleKeepsDrift` shows that an entry that
  disagrees is never repaired.
- Toggling the same prompt twice restores the bookmarks whenever its id was
  not bookmarked. When it was, it comes back as one flagged copy at the end,
  which moves it unless it was already last (`ToggleTwice`,
  `ToggleTwiceLast`).

## Model

| member | source | states |
|---|---|---|
| `Strings.Contains` | components/PromptLibrary.tsx:15-16 | the definition of `includes`: the term is a prefix of the string or of one of its suffixes; `ContainsIffOccurs` and `ContainsEmpty` state its meaning |
| `Strings.Lower` | components/PromptLibrary.tsx:15-16 | lower-casing keeps the length and maps every character through the ASCII lower-case mapping |
| `Strings.Upper` | geminiService.ts:34 | upper-casing keeps the length and maps every character through the ASCII upper-case mapping |
| `Strings.LowerForgetsCase` | components/PromptLibrary.tsx:15-16 | lower-casing a string, or its capitalised form, gives the same result, and lower-casing is idempotent |
| `Strings.ContainsIffOccurs` | components/PromptLibrary.tsx:15-16 | the recursive `includes` search succeeds exactly when the term occurs at some index |
| `Strings.ContainsEmpty` | components/PromptLibrary.tsx:11-16 | every string contains the empty search term |
| `Strings.TrimStart` | components/Workspace.tsx:51 | the result is the suffix of the input that starts at its first non-whitespace character; everything dropped is whitespace |
| `Strings.TrimEnd` | components/Workspace.tsx:51 | the result is the prefix of the input that ends at its last non-whitespace character; everything dropped is whitespace |
| `Strings.Trim` | components/Workspace.tsx:51 | the definition of `trim`: leading whitespace dropped (`TrimStart`), then trailing whitespace (`TrimEnd`); `TrimEmptyIff` gives the guard's meaning |
| `Strings.TrimEmptyIff` | components/Workspace.tsx:51 | a seed trims to the empty string exactly when every character is whitespace |
| `Strings.Join` | geminiService.ts:31 | the definition of `join`: the elements with the separator between neighbours; `JoinSnoc` and `ParametersStringMentions` state its properties |
| `Strings.JoinSnoc` | geminiService.ts:31 | a list joined with one more element gives the old join, the separator, then the new element |
| `ParamList.Lookup` | components/Workspace.tsx:130 | the definition of `params[name]`: the value of the first entry with that key, none when there is none; `LookupIff` and `Set` state its properties |
| `ParamList.LookupIff` | components/Workspace.tsx:130 | in a record without repeated keys, the lookup finds exactly the stored entries, and finds nothing for an absent key |
| `ParamList.Set` | components/Workspace.tsx:46 | the key maps to the new value and every other key keeps its value; an existing key keeps its place and the key order is unchanged; a new key is appended at the end |
| `ParamList.SetInPlace` | components/Workspace.tsx:46 | in a record without repeated keys, setting a stored key overwrites exactly that entry at its index |
| `GeminiService.RenderEntries` | geminiService.ts:30 | each parameter is rendered as `key: value`, one per entry, in entry order |
| `GeminiService.ParametersString` | geminiService.ts:29-31 | the definition of the parameters string: the rendered entries joined with `, `; `ParametersStringAppend`, `ParametersStringEmptyIff`, `ParametersStringMentions` and `WithParamRendering` state its properties |
| `GeminiService.ParametersStringAppend` | geminiService.ts:29-31 | a parameter added last is rendered last, after `, `, or alone when it is the only one |
| `GeminiService.ParametersStringEmptyIff` | geminiService.ts:29-31 | the parameters string is empty exactly when there are no parameters |
| `GeminiService.ParametersStringMentions` | geminiService.ts:29-31 | every parameter's `key: value` occurs in the parameters string |
| `GeminiService.UserPrompt` | geminiService.ts:33-39 | the definition of the user prompt: the template literal's fixed text, with the capitalised modality, the seed and the parameters string in their places; `PromptEmbedsState` states what it carries |
| `GeminiService.PromptEmbedsState` | geminiService.ts:33-39 | the user prompt contains the capitalised modality name, the seed verbatim and the parameters string |
| `GeminiService.ThinkingBudget` | geminiService.ts:47 | the budget is 24576 when deeper reasoning is on and 0 when it is off |
| `GeminiService.BuildRequest` | geminiService.ts:42-50 | the definition of what is sent besides the fixed system instruction: the user prompt and the thinking budget; `EnhancePrompt` sends exactly this |
| `GeminiService.NonEmptyTexts` | geminiService.ts:52-55 | the definition of what the relay loop forwards: each chunk's text when present and non-empty, in arrival order; `NonEmptyTextsSnoc`, `NonEmptyTextsExact`, `NonEmptyTextsInOrder` and `NonEmptyTextsConcat` state its properties |
| `GeminiService.NonEmptyTextsSnoc` | geminiService.ts:52-55 | one more chunk adds its text at the end when the text is present and non-empty, and adds nothing otherwise |
| `GeminiService.NonEmptyTextsExact` | geminiService.ts:52-55 | no relayed text is empty, and every chunk with non-empty text is relayed |
| `GeminiService.NonEmptyTextsInOrder` | geminiService.ts:52-55 | the relayed texts keep arrival order: they are an order-preserving selection of all chunk texts |
| `GeminiService.NonEmptyTextsConcat` | geminiService.ts:52-55 | skipping the chunks that have no text does not change the concatenated text |
| `GeminiService.Delivered` | geminiService.ts:52-59 | the definition of every callback call: the forwarded texts, then the diagnostic once on failure; `DeliveredConcat` and `EnhancePrompt` state its properties |
| `GeminiService.DeliveredConcat` | geminiService.ts:41-59 | an accumulating caller ends with all streamed text, followed by the diagnostic exactly when the request or the stream failed |
| `GeminiService.EnhancePrompt` | geminiService.ts:41-59 | sends the prompt and budget built from the workspace; hands the callback each non-empty chunk text in order, then the fixed diagnostic once on failure; always returns normally |
| `Workspace.InitialState` | components/Workspace.tsx:14-19 | the definition of the initial workspace: text modality, empty seed and parameters, reasoning off; `HandlersKeepWellFormed` and `Composer.constructor` use it |
| `Workspace.WithModality` | components/Workspace.tsx:86 | the definition of the modality switch; `ModalitySwitchFrame` states its properties |
| `Workspace.WithoutParams` | components/Workspace.tsx:118 | the definition of "Reset Params"; `ResetParamsFrame` states its properties |
| `Workspace.WithThinkingToggled` | components/Workspace.tsx:168 | the definition of the reasoning switch; `ThinkingToggleFrame` states its properties |
| `Workspace.WithSeed` | components/Workspace.tsx:108 | the definition of seed editing: only the seed is replaced; `Composer.EditSeed` applies it |
| `Workspace.TemplateState` | components/Workspace.tsx:27-32 | the definition of the workspace a template is injected as; `ApplyPendingOnce` and `InjectIntoWorkspace` state its use |
| `Workspace.ApplyPending` | components/Workspace.tsx:25-35 | the definition of the injection effect, with and without a pending template; `ApplyPendingOnce` and `Composer.ApplyTemplate` state its properties |
| `Workspace.BlankSeed` | components/Workspace.tsx:51 | the definition of the generate guard: the seed trims to empty; `TrimEmptyIff` gives its meaning and `Composer.Generate` uses it |
| `Workspace.Record` | components/Workspace.tsx:64-71 | the definition of the record handed to `onGenerated`; `Composer.Generate` and `GenerateIntoHistory` state what it holds |
| `Workspace.WithParam` | components/Workspace.tsx:43-48 | the changed parameter holds the new value; every other parameter, the modality, the seed and the reasoning flag are unchanged |
| `Workspace.ApplyPendingOnce` | components/Workspace.tsx:25-35 | injection sets modality, seed and parameters exactly to the template's and switches reasoning off; the pending template is cleared, so applying the effect again changes nothing |
| `Workspace.HandlersKeepWellFormed` | components/Workspace.tsx:14-48 | the initial workspace and every handler keep parameter keys distinct (injection does so for a template without repeated keys) |
| `Workspace.ModalitySwitchFrame` | components/Workspace.tsx:86 | choosing a modality sets it and empties the parameters; seed and reasoning flag are kept; parameters chosen before the switch are forgotten |
| `Workspace.ResetParamsFrame` | components/Workspace.tsx:118 | "Reset Params" empties the parameters and changes nothing else; resetting twice is resetting once |
| `Workspace.ThinkingToggleFrame` | components/Workspace.tsx:168 | the reasoning switch flips the flag and changes nothing else; flipping twice restores the workspace |
| `Workspace.WithParamRendering` | components/Workspace.tsx:46 | after a parameter change, a new key is rendered last in the parameters string; a changed key keeps its place in the key order |
| `Workspace.Composer.constructor` | components/Workspace.tsx:14-22 | the composer starts in text modality with empty seed and parameters, reasoning off, no output and not generating |
| `Workspace.Composer.HandleParamChange` | components/Workspace.tsx:43-48 | the workspace becomes the parameter update of the old one; output and generating flag are unchanged |
| `Workspace.Composer.SelectModality` | components/Workspace.tsx:86 | the workspace takes the modality with empty parameters; output and generating flag are unchanged |
| `Workspace.Composer.ResetParams` | components/Workspace.tsx:118 | the workspace loses its parameters; output and generating flag are unchanged |
| `Workspace.Composer.ToggleThinking` | components/Workspace.tsx:168 | the workspace's reasoning flag is flipped; output and generating flag are unchanged |
| `Workspace.Composer.EditSeed` | components/Workspace.tsx:108 | the workspace takes the typed seed; output and generating flag are unchanged |
| `Workspace.Composer.ApplyTemplate` | components/Workspace.tsx:25-35 | with a pending template the workspace becomes the template's and the caller is told to clear it; without one nothing changes |
| `Workspace.Composer.Accumulate` | components/Workspace.tsx:55-60 | after the callback has run on every delivery, the accumulated text and the shown output are the in-order concatenation of the deliveries; workspace and generating flag are unchanged |
| `Workspace.Composer.Generate` | components/Workspace.tsx:50-72 | a seed that trims to empty sends nothing, changes nothing and emits nothing; otherwise the request sent is the one built from the workspace at the call, the output is the in-order concatenation of every delivery, generating is off afterwards, and the emitted record holds that output, the seed and modality at the call, and `isBookmarked = false` |
| `PromptLibrary.CategoryFilters` | components/PromptLibrary.tsx:21 | seven buttons: "All" first, then the six categories in their declaration order (types.ts:30-37), with pairwise distinct labels |
| `PromptLibrary.CategoryFiltersComplete` | components/PromptLibrary.tsx:21 | every category selection, "All" included, has a button |
| `PromptLibrary.MatchesSearch` | components/PromptLibrary.tsx:15-16 | the definition of the search test; `FilterIgnoresCase` and `FilterInitialShowsAll` state its properties |
| `PromptLibrary.MatchesCategory` | components/PromptLibrary.tsx:17 | the definition of the category test |
| `PromptLibrary.Keeps` | components/PromptLibrary.tsx:15-18 | the definition of the filter callback: search and category both match; `Filter` and `FilterCount` state the result in its terms |
| `PromptLibrary.Filter` | components/PromptLibrary.tsx:14-19 | a template is in the result exactly when it is in the catalogue and its title or description contains the search term, ignoring case, and the category is "All" or its own; the result keeps catalogue order |
| `PromptLibrary.FilterCount` | components/PromptLibrary.tsx:14-19 | each template occurs in the result as often as in the catalogue when it matches, and not at all otherwise |
| `PromptLibrary.FilterInitialShowsAll` | components/PromptLibrary.tsx:11-19 | with the initial empty search and "All", the whole catalogue is returned |
| `PromptLibrary.FilterIdempotent` | components/PromptLibrary.tsx:14-19 | filtering the result again with the same search and category returns it unchanged |
| `PromptLibrary.FilterIgnoresCase` | components/PromptLibrary.tsx:15-16 | under the ASCII case mapping, searching for the term in capitals or in lower case gives the same result as the term itself |
| `PromptLibrary.FilterIgnoresUnsearched` | components/PromptLibrary.tsx:15-18 | tags, seed and parameters are never consulted: blanking them before or after filtering gives the same list |
| `Shell.WithNewest` | App.tsx:31-33 | the new prompt comes first and the length is min(10, old + 1); below the cap every old entry follows in order; at the cap the oldest entry is dropped |
| `Shell.AfterGenerationsKeepsNewest` | App.tsx:31-33 | after any number of generations, history is the generated records newest first, then the earlier history, cut at 10 |
| `Shell.WithoutId` | App.tsx:38 | removal keeps exactly the entries with another id, in their original order, and changes nothing when the id is absent |
| `Shell.WithoutIdCount` | App.tsx:38 | each entry with another id occurs as often as before, and entries with the removed id do not occur |
| `Shell.ToggledBookmarks` | App.tsx:36-40 | the definition of the new bookmarks: every entry with the id removed if there is one, else one flagged copy appended; `ToggleCases`, `ToggleKeepsWellFormed` and `ToggleTwice` state its properties |
| `Shell.FlippedHistory` | App.tsx:41 | length and order are unchanged; the flag is inverted on exactly the entries with the toggled id; every other entry is unchanged |
| `Shell.ToggleKeepsWellFormed` | App.tsx:35-40 | toggling keeps bookmark ids pairwise distinct and every bookmark flagged |
| `Shell.ToggleCases` | App.tsx:36-39 | toggling a bookmarked id removes all its entries and keeps the rest in order; toggling a new id appends one flagged copy after the unchanged old list |
| `Shell.ToggleTwice` | App.tsx:35-41 | toggling twice restores history always, and restores bookmarks when the id was not bookmarked; otherwise it leaves one flagged copy at the end |
| `Shell.ToggleTwiceLast` | App.tsx:36-40 | a bookmark that is already last, as the flagged copy of the toggled prompt, comes back exactly: two toggles restore the list |
| `Shell.ToggleKeepsAgreement` | App.tsx:35-41 | if history flags agree with bookmark membership before a toggle, they agree after it |
| `Shell.ToggleKeepsDrift` | App.tsx:41 | a history entry whose flag disagrees with bookmark membership still disagrees after its id is toggled |
| `Shell.App.constructor` | App.tsx:11-14 | the shell starts on the workspace tab with empty history and bookmarks and no pending template |
| `Shell.App.AddToHistory` | App.tsx:31-33 | history becomes the capped prepend of the old history; everything else is unchanged and history stays within 10 |
| `Shell.App.ToggleBookmark` | App.tsx:35-42 | bookmarks and history become their toggled forms; bookmarks stay well-formed; tab and pending template are unchanged |
| `Shell.App.InjectTemplate` | App.tsx:44-47 | the pending template becomes the given one and the active tab becomes the workspace; history and bookmarks are unchanged |
| `Shell.App.SelectTab` | App.tsx:97 | the active tab becomes the chosen one and nothing else changes |
| `Shell.App.ClearTemplate` | App.tsx:69 | the pending template is cleared and nothing else changes |
| `Shell.InjectIntoWorkspace` | App.tsx:44-71 | injecting from the library shows the workspace tab and mounts a new composer; that composer holds the template's workspace, with empty output and not generating; no template is left pending; history and bookmarks are unchanged |
| `Shell.GenerateIntoHistory` | App.tsx:66-67 | a blank seed sends nothing and leaves history and the composer alone; otherwise the request built from the composer's workspace is sent, history gains the generated record first, capped at 10, and the composer shows the full output and is not generating; the composer's workspace, the bookmarks, the pending template and the tab are unchanged |

## Left out

- Rendering, CSS, the scroll-to-bottom effect (components/Workspace.tsx:37-41), the sidebar open flag, and all of Sidebar.tsx, Header.tsx and ResultCard.tsx are presentation. This covers the clipboard writes, the "copied" timer and the date formatting.
- Loading and saving history and bookmarks in `localStorage` is browser storage I/O (App.tsx:17-29). The shell starts empty.
- The SDK client, the model name, the text of the system instruction, `temperature: 0.8` and the `console.error` logging are left out. They are passed through to a network service or a log. The service is represented by the `Stream` value.
- The record's id (`Math.random`) and timestamp (`Date.now`) are not modelled. They are parameters of `Generate`.
- The static template catalogue and the per-modality control lists in constants.tsx hold data, not logic.
- Shell.App.SelectTab: leaving the workspace tab unmounts the composer and discards its seed, parameters and output (App.tsx:65-71). The model mounts a new composer only on injection (`Shell.InjectIntoWorkspace`). `Shell.GenerateIntoHistory` takes the composer that is currently shown.
- React's batched, asynchronous state updates are not modelled. Neither is overlapping generations, which the UI prevents only by disabling the button. Each handler is one atomic step, run in sequence.
- Workspace.Composer.Generate: `onChunk` runs while the stream is read. The model first collects the deliveries, then appends them to the output in the same order. The output passes through the same sequence of values, but the interleaving of relay and rendering is not modelled.
- Strings.Lower: only ASCII letters are case-mapped. The full Unicode `toLowerCase`/`toUpperCase` tables are not modelled.
- ParamList.Set: keys keep insertion order. The model does not capture that `Object.entries` lists integer-like keys (such as "10") first, in numeric order. No parameter name in the application is integer-like.
