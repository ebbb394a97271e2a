# Linux editor discovery, modelled in Dafny

This project models how the desktop application finds the external code editors
installed on a Linux machine (`app/src/lib/editors/linux.ts`):

- the `ExternalEditor` enumeration with its seven string labels, and `parse`,
  which maps a label back to its editor;
- `getPathIfAvailable`, which reports a path when it exists;
- `getEditorPath`, which gives each of six editors one hardcoded `/usr/bin/...`
  path and tries SlickEdit's four versioned install directories newest first,
  stopping at the first that exists;
- `getAvailableEditors`, which resolves all seven editors, waits for all of
  them, and then pushes one `(editor, path)` record per non-null slot, in slot
  order.

The filesystem is a set `fs` of the paths that exist; probing a path is a
membership test in `fs`. `Promise.all` is modelled by `SettleProbes`, which runs
the seven probes in an arbitrary `completionOrder` (any permutation of the slot
indices) and lets each write only its own slot. The seven guarded pushes that
follow are the method `PushFound`, proved to return `Report(slots)`, the records
of the truthy slots in slot order. `GetAvailableEditors` runs the two in turn
and is proved to return `AvailableEditors(fs)` whatever the completion order is.

Everything is in module `LinuxEditors` (`linux_editors.dfy`); the `Option` type
used for `T | null` is in module `Wrappers` (`wrappers.dfy`).

### The Insiders slot is tagged `VSCode`

At `app/src/lib/editors/linux.ts:89-91` the record for the VS Code Insiders path
is pushed with the identifier `ExternalEditor.VSCode`, not
`ExternalEditor.VSCodeInsiders`. The result can therefore hold the identifier
`VSCode` twice; the model reproduces this. `SlotTag` states the tagging. As a
consequence:

- when both `/usr/bin/code` and `/usr/bin/code-insiders` exist, the result holds
  two `VSCode` records, `/usr/bin/code` first (`BothCodeBuildsScenario`,
  `BothCodeBuildsGiveTwoVSCodeRecords`);
- no record is ever tagged `VSCodeInsiders` (`NoInsidersRecord`,
  `TaggedPathsOfReport`).

The model makes no "no duplicate identifiers" claim. For every identifier other
than `VSCode` it proves that at most one record carries it.

## Model

| member | source | states |
|---|---|---|
| `LinuxEditors.Label` | app/src/lib/editors/linux.ts:7-15 | the declared string value of each enum member; every value is non-empty |
| `LinuxEditors.ParseAmong` | app/src/lib/editors/linux.ts:17-19 | the lookup standing for `parseEnumValue(ExternalEditor, label)`: a result is one of the candidates whose label equals the input exactly; no result means no candidate has that label |
| `LinuxEditors.LabelInjective` | app/src/lib/editors/linux.ts:7-15 | the seven enum labels are pairwise distinct |
| `LinuxEditors.Parse` | app/src/lib/editors/linux.ts:17-19 | a result is an editor whose label equals the input exactly; no result means no label equals the input |
| `LinuxEditors.ParseInvertsLabel` | app/src/lib/editors/linux.ts:7-19 | `parse` of an editor's label gives that editor, and `parse(s)` gives editor `e` exactly when `s` is `e`'s label |
| `LinuxEditors.ParseScenarios` | app/src/lib/editors/linux.ts:7-19 | `parse("Visual Studio Code")` is `VSCode`; `parse("Notepad")` is null |
| `LinuxEditors.PathIfAvailable` | app/src/lib/editors/linux.ts:21-23 | the result is non-null exactly when the path exists, and then it is that same path |
| `LinuxEditors.CandidatePaths` | app/src/lib/editors/linux.ts:27-45 | every editor has at least one candidate path, and each is a non-empty absolute path |
| `LinuxEditors.FirstHit` | app/src/lib/editors/linux.ts:46-52 | the index returned is that of the first existing candidate: all earlier ones are missing, and it exists unless no candidate does |
| `LinuxEditors.Resolve` | app/src/lib/editors/linux.ts:25-56 | a non-null resolution is one of the editor's candidate paths and exists; the resolution is null exactly when no candidate exists |
| `LinuxEditors.GetEditorPath` | app/src/lib/editors/linux.ts:25-56 | the switch and the SlickEdit loop with early return report `Resolve(editor, fs)`, and the probes made are exactly the candidates up to and including the first hit |
| `LinuxEditors.FixedPathResolution` | app/src/lib/editors/linux.ts:27-38 | Atom, VSCode, VSCodeInsiders, VSCodium, SublimeText and Typora each resolve to their hardcoded `/usr/bin/...` path when it exists and to null otherwise |
| `LinuxEditors.SlickEditPrefersNewest` | app/src/lib/editors/linux.ts:39-52 | SlickEdit resolves to its k-th versioned path exactly when that path exists and none of the newer ones does |
| `LinuxEditors.SlickEditScenario` | app/src/lib/editors/linux.ts:39-52 | with the 2018 and 2016 install directories both present, SlickEdit resolves to the 2018 one |
| `LinuxEditors.ProbesStopAtHit` | app/src/lib/editors/linux.ts:46-52 | every probe before the last missed; the last probe is the result when there is one; with no result every candidate was probed |
| `LinuxEditors.ResolvedPathTruthy` | app/src/lib/editors/linux.ts:81-107 | the JavaScript truth test `if (path)` on a resolution holds exactly when the resolution is non-null |
| `LinuxEditors.SlotTag` | app/src/lib/editors/linux.ts:85-91 | the Insiders slot's record is tagged `VSCode`, every other slot's record carries the slot's own editor, and no tag is ever `VSCodeInsiders` |
| `LinuxEditors.TruthySlotsBefore` | app/src/lib/editors/linux.ts:81-107 | the slots that pass `if (path)`, in strictly increasing order: a slot is listed exactly when its path is truthy |
| `LinuxEditors.ReportFollowsSlots` | app/src/lib/editors/linux.ts:81-107 | the seven guarded pushes give one record per truthy slot, in slot order, each carrying that slot's tag and path |
| `LinuxEditors.TaggedPathsOfReport` | app/src/lib/editors/linux.ts:81-107 | the `VSCode` records hold the truthy paths of the VS Code slot and then the Insiders slot; no record is tagged `VSCodeInsiders`; every other identifier holds only its own slot's truthy path |
| `LinuxEditors.ReportOfCodeOnlySlots` | app/src/lib/editors/linux.ts:81-107 | when only the VS Code and Insiders slots can be filled, the records are those two paths (each when truthy), both tagged `VSCode` |
| `LinuxEditors.AvailableEditorsInSlotOrder` | app/src/lib/editors/linux.ts:63-109 | the k-th record is the record of the k-th slot (in slot order) whose resolution is non-null, and there is one record per such slot |
| `LinuxEditors.AvailableEditorsBounded` | app/src/lib/editors/linux.ts:61-109 | the result has at most seven records and every record's path exists |
| `LinuxEditors.VSCodeRecordsOfAvailableEditors` | app/src/lib/editors/linux.ts:85-91 | the `VSCode` records of the result are the `/usr/bin/code` one then the `/usr/bin/code-insiders` one, each exactly when that path exists |
| `LinuxEditors.OwnRecordOfAvailableEditors` | app/src/lib/editors/linux.ts:81-107 | every identifier other than the two VS Code builds has one record, holding its resolution, when it resolves, and none otherwise |
| `LinuxEditors.NoInsidersRecord` | app/src/lib/editors/linux.ts:89-91 | no record of the result is tagged `VSCodeInsiders` |
| `LinuxEditors.BothCodeBuildsGiveTwoVSCodeRecords` | app/src/lib/editors/linux.ts:85-91 | with both VS Code builds installed, the `VSCode` records are `/usr/bin/code` and then `/usr/bin/code-insiders` |
| `LinuxEditors.EmptyFilesystemScenario` | app/src/lib/editors/linux.ts:58-110 | with no existing path the result is empty |
| `LinuxEditors.OnlyCodeScenario` | app/src/lib/editors/linux.ts:58-110 | with only `/usr/bin/code` present the result is exactly `[(VSCode, "/usr/bin/code")]` |
| `LinuxEditors.BothCodeBuildsScenario` | app/src/lib/editors/linux.ts:85-91 | with only the two VS Code builds present the result is two `VSCode` records, `/usr/bin/code` first |
| `LinuxEditors.SettleProbes` | app/src/lib/editors/linux.ts:63-79 | whatever order the seven probes finish in, slot j holds the resolution of the j-th editor |
| `LinuxEditors.PushFound` | app/src/lib/editors/linux.ts:81-109 | the seven `if (path) results.push(...)` statements, with the Insiders record tagged `VSCode`, return exactly `Report(slots)` |
| `LinuxEditors.GetAvailableEditors` | app/src/lib/editors/linux.ts:58-110 | the records pushed are `AvailableEditors(fs)`, whatever the probes' completion order |

## Left out

- `pathExists` from `fs-extra` is real filesystem I/O; it is modelled as membership in a fixed set `fs`. The model assumes the set does not change between probes, which a real filesystem does not guarantee, and it treats a probe that fails as a missing path.
- The asynchrony of `Promise.all` (app/src/lib/editors/linux.ts:71-79) is modelled as probes run one after another in an arbitrary completion order given as a parameter; suspension, and probes that never settle, are not modelled.
- `assertNever` and the fatal-error report in the `default` branch (app/src/lib/editors/linux.ts:53-54) are not modelled: Dafny's exhaustive `match` makes that branch impossible to reach.
- `parseEnumValue` (`../enum`) is not part of this model; `parse` is modelled as an exact-equality lookup over the seven labels in declaration order, with no case or whitespace handling.
- `IFoundEditor` (`./found-editor`) is not part of this model; it is modelled as the record `FoundEditor(editor, path)`.
