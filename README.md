# Lokislayer portal: a Dafny model of its navigation and scene logic

Lokislayer is a single-page portal to six external projects. A visitor lands on a
die that picks one of six scenes at random, or skips to a lobby that lists them. Each
scene presents the same six projects in its own way:

- a neural map of connected nodes;
- an anatomical figure;
- a Windows-95 style desktop;
- a radio;
- a control room;
- a vending machine.

This project models the parts of the portal that decide things, not the ones that
draw. That means:

- the global navigation store and its persisted subset;
- the shell's choice of screen;
- the two registries, of scenes and of projects;
- the small state machines of the scenes:
  - the desktop's window manager, icon double-click detector and boot sequence;
  - the vending keypad and dispenser;
  - the figure's select toggle;
  - the neural map's edge de-duplication;
  - the control-room panels and status line;
  - the two dice.

It mirrors the source file by file:

| Dafny file | module | source |
|---|---|---|
| common.dfy | `Wrappers`, `Seqs`, `Die` | `Array.prototype.find`/`findIndex`, the die's face draw |
| registry.dfy | `Registry` | src/config/interfaces.ts |
| catalog.dfy | `Catalog` | src/config/projects.ts |
| store.dfy | `Store` | src/store/useStore.ts |
| shell.dfy | `Shell` | src/App.tsx |
| icon.dfy | `RetroIcon` | src/components/interfaces/RetroOS/Icon.tsx |
| desktop.dfy | `RetroDesktop` | src/components/interfaces/RetroOS/Desktop.tsx |
| boot.dfy | `BootSequence` | src/components/interfaces/RetroOS/BootSequence.tsx |
| keypad.dfy | `VendingKeypad` | src/components/interfaces/VendingMachine/Keypad.tsx |
| vending.dfy | `VendingMachine` | src/components/interfaces/VendingMachine/index.tsx |
| connections.dfy | `NeuralConnections` | src/components/interfaces/NeuralMap/Connections.tsx |
| shipped_network.dfy | `ShippedNetwork` | the edge list of the shipped catalog (src/config/projects.ts through Connections.tsx) |
| body_map.dfy | `AnatomicalMap` | src/components/interfaces/AnatomicalMap/BodySVG.tsx |
| dice_landing.dfy | `DiceLanding` | src/components/core/DiceLanding/index.tsx |
| lobby_dice.dfy | `LobbyDice` | src/components/core/EntryLobby/Dice.tsx |
| interface_grid.dfy | `InterfaceGrid` | src/components/core/EntryLobby/InterfaceGrid.tsx |
| control_panel.dfy | `ControlPanel` | src/components/interfaces/ControlRoom/Panel.tsx |
| control_room.dfy | `ControlRoom` | src/components/interfaces/ControlRoom/index.tsx |

Modelling conventions:

- **State.** Code that mutates component or store state is a `class`. Its fields are
  the `useState` values, the store record, or the counters an interval captures. Each
  handler is a `method` whose `ensures` gives the whole new state. Tables and lookups
  are functions and lemmas.
- **Randomness.** Each draw of `Math.random()` is a `real` parameter in `[0, 1)`.
- **Timers.** Each interval tick and each timeout is an explicit event method, such as
  `Tick` or `DoneTimeout`. A timeout that captured a value when it was scheduled is a
  queue field holding that value, such as the dispenser's `pending` or the landing's
  `pendingNav`.
- **Nulls.** JavaScript's `null`/`undefined` is `Option.None`.
- **Screen encoding.** The store keeps the source's `number | null` encoding of the
  screen:
  - `None` is the dice landing;
  - `Some(-1)` is the lobby;
  - a positive id is a scene.

  Keeping this encoding lets two quirks be modelled as written:
  - `-1` is truthy, so entering the lobby records `-1` as visited;
  - an unregistered positive id renders no main screen.
- **Clients.** Methods outside a class that build fresh objects and drive them are
  clients of the model. Examples are `BootSequence.BootToCompletion`,
  `DiceLanding.RollToEnd` and `VendingMachine.ChooseWhileDispensing`. Each states what
  a whole interaction produces.

Two behaviours of the code are modelled as written:

- **Unknown scene id.** For a positive id that is not in the registry, `src/App.tsx`
  sets `showInterface` (App.tsx:26) but finds no `activeInterface` (App.tsx:19-21).
  It renders the back button over an empty main area and does not fall back to the
  landing (`Shell.UnknownSceneIsBlank`).
- **Entering the lobby.** `setInterface` records every truthy id (useStore.ts:48),
  and `-1` is truthy, so entering the lobby records `-1` as visited alongside the
  scene ids (`DiceLanding.SkipFromFresh`, `Store.LobbyEntryThenBack`).

## Model

| member | source | states |
|---|---|---|
| Seqs.FindIndex | src/config/interfaces.ts:86 | the index of the first element satisfying the predicate, or none exactly when no element does |
| Seqs.Find | src/config/interfaces.ts:86 | the first element satisfying the predicate, or none exactly when no element does |
| Seqs.FindUnique | src/config/projects.ts:158 | when the predicate holds at exactly one position, `find` returns that element |
| Die.FaceDraw | src/components/core/DiceLanding/index.tsx:105 | `Math.floor(r * 6) + 1` is a die face 1..6 for every draw |
| Registry.RandomInterfaceId | src/config/interfaces.ts:80-82 | every draw in [0,1) gives an id in 1..6 |
| Registry.RandomInterfaceIdReachesEvery | src/config/interfaces.ts:80-82 | every id 1..6 is produced by some draw, so no scene is unreachable |
| Registry.GetInterfaceById | src/config/interfaces.ts:85-87 | a found entry is in the table and has that id; nothing is found exactly when no entry has the id |
| Registry.InterfaceIdsAreTablePositions | src/config/interfaces.ts:16-77 | the ids are 1..6 in table order, hence unique, and the slugs are unique |
| Registry.GetInterfaceByIdResolves | src/config/interfaces.ts:85-87 | exactly the ids 1..6 resolve, each to its own entry; -1, 0 and ids above 6 do not |
| Registry.RandomIdResolves | src/config/interfaces.ts:80-87 | every id the dice can roll resolves to the entry with that id |
| Catalog.FindById | src/config/projects.ts:157-159 | a found project has the id and is in the catalog; none exactly when no project has it |
| Catalog.FindByIdUnique | src/config/projects.ts:157-159 | with unique ids, looking up a project's id returns that project |
| Catalog.GetProjectById | src/config/projects.ts:157-159 | the same lookup over the shipped catalog |
| Catalog.ProjectIdsInOrder | src/config/projects.ts:39-154 | the six catalog ids, in declared order |
| Catalog.ProjectIdsDistinct | src/config/projects.ts:39-154 | project ids are pairwise distinct |
| Catalog.ProjectFoundById | src/config/projects.ts:157-159 | every project is found by its own id |
| Catalog.GetProjectByIdFinds | src/config/projects.ts:157-159 | the lookup succeeds exactly for the six catalog ids |
| Catalog.ConnectionsInOrder | src/config/projects.ts:51-146 | the neural-map connection list of each project |
| Catalog.ConnectionsResolve | src/config/projects.ts:51-146 | every connection names an existing project, and none names its own project |
| Catalog.MappingsInOrder | src/config/projects.ts:52-151 | body part, vending slot and frequency of each project |
| Catalog.ColumnsDistinct | src/config/projects.ts:52-151 | the body part, slot and frequency columns repeat no value, and the slots are A1 to C2 |
| Catalog.MappingsDistinct | src/config/projects.ts:52-151 | body parts, slots and frequencies are pairwise distinct; the slots are exactly A1, A2, B1, B2, C1, C2 |
| Catalog.OnlyPodcastComingSoon | src/config/projects.ts:136-140 | a project is coming soon iff it is the podcast, whose url is `#` |
| Store.Visit | src/store/useStore.ts:48-50 | the visited list grows by at most one, as a prefix extension; it gains exactly the truthy id; no duplicates are introduced |
| Store.Truthy | src/store/useStore.ts:48 | JavaScript truthiness of a number-or-null: not null and not 0, so -1 is truthy |
| Store.LobbyTarget | src/store/useStore.ts:67 | back leads to the landing iff the source is the dice, and to the lobby (-1) otherwise |
| Store.Store.constructor | src/store/useStore.ts:37-41 | the initial state is null, null, false, false, [] |
| Store.Store.Rehydrate | src/store/useStore.ts:72-77 | a reload restores the two persisted fields and resets the other three |
| Store.Store.Partialize | src/store/useStore.ts:74-77 | the persisted projection is exactly audio preference and visited list |
| Store.Store.SetInterface | src/store/useStore.ts:43-52 | sets screen and source and appends a truthy, new id; audio and loading unchanged; no duplicates |
| Store.Store.RollDice | src/store/useStore.ts:54-58 | returns the drawn id in 1..6; the store now shows it, with source dice, and lists it as visited |
| Store.Store.SetLoading | src/store/useStore.ts:60 | changes only the loading flag |
| Store.Store.ToggleAudio | src/store/useStore.ts:62 | flips only the audio flag |
| Store.Store.GoToLobby | src/store/useStore.ts:64-70 | screen becomes the lobby target of the old source; source becomes null; visited unchanged |
| Store.VisitAllMonotone | src/store/useStore.ts:43-52 | over any sequence of entries the visited list only grows, never repeats an id, and holds exactly the truthy ids entered |
| Store.Reload | src/store/useStore.ts:72-77 | a reloaded store keeps audio and visited and resets screen, source and loading |
| Store.RollThenBack | src/store/useStore.ts:54-70 | roll then back: the scene is entered from the dice, and back returns to the landing with the scene still visited |
| Store.LobbyEntryThenBack | src/store/useStore.ts:43-70 | skip, enter scene 2 from the grid, back: the visitor returns to the lobby, and -1 and 2 are visited |
| Store.EnterTwice | src/store/useStore.ts:48-50 | entering the same id twice records it once, and 0 is never recorded |
| Store.ToggleTwice | src/store/useStore.ts:62-77 | two toggles restore the audio preference and the persisted record |
| Shell.ActiveInterface | src/App.tsx:19-21 | defined exactly for the ids 1..6, as the registry entry with that id |
| Shell.ShowDiceLanding | src/App.tsx:24 | the landing flag: set exactly for null |
| Shell.ShowSelection | src/App.tsx:25 | the lobby flag: set exactly for -1 |
| Shell.ShowInterface | src/App.tsx:26 | the scene flag: set for every positive value, registered or not |
| Shell.Render | src/App.tsx:28-58 | the audio toggle, the back button under the scene flag, and the three main-screen conditionals in order; `RenderCases` states the full case table |
| Shell.RenderCases | src/App.tsx:24-57 | at most one main screen: landing iff null, lobby iff -1, a scene iff a registry id, nothing otherwise; audio toggle always; back button iff positive |
| Shell.FlagsExclusive | src/App.tsx:24-26 | the three screen flags are pairwise exclusive, and 0 or values below -1 set none |
| Shell.ExactlyOneScreen | src/App.tsx:24-57 | every value the application stores (null, -1, 1..6) renders exactly one main screen |
| Shell.NavigationStaysRoutable | src/App.tsx:24-26 | a dice roll and the back action only lead to values that render exactly one screen |
| Shell.UnknownSceneIsBlank | src/App.tsx:32-50 | a positive id above 6 renders the back button and no main screen |
| RetroIcon.Icon.constructor | src/components/interfaces/RetroOS/Icon.tsx:25-26 | no click counted and no timer |
| RetroIcon.Icon.HandleClick | src/components/interfaces/RetroOS/Icon.tsx:28-43 | from 0 a click selects and starts the timer; from 1 it cancels the timer and is a double click; the count stays 0 or 1 |
| RetroIcon.Icon.TimerExpires | src/components/interfaces/RetroOS/Icon.tsx:33-35 | the timer resets the count to 0 |
| RetroIcon.ClickClick | src/components/interfaces/RetroOS/Icon.tsx:28-43 | click, click: one selection, then one double click |
| RetroIcon.ClickExpireClick | src/components/interfaces/RetroOS/Icon.tsx:28-43 | click, timer expiry, click: two selections and no double click |
| RetroDesktop.MaxZ | src/components/interfaces/RetroOS/Desktop.tsx:113-115 | the greatest z-index of a non-empty window list, attained by some window |
| RetroDesktop.IsActive | src/components/interfaces/RetroOS/Desktop.tsx:113-115 | the active rule: a shown window whose z-index is the greatest of all open windows; `Desktop.AtMostOneActive` proves at most one window meets it |
| RetroDesktop.InFront | src/components/interfaces/RetroOS/Desktop.tsx:113-115 | window k is active and every other window lies strictly below it |
| RetroDesktop.Opened | src/components/interfaces/RetroOS/Desktop.tsx:41-61 | the window list after `openWindow`: appended for a new project, raised and restored for an open one, that window in front |
| RetroDesktop.Raised | src/components/interfaces/RetroOS/Desktop.tsx:77-83 | `focusWindow`'s map on one entry: the matching window moves to the new layer and is restored, any other is kept |
| RetroDesktop.Lowered | src/components/interfaces/RetroOS/Desktop.tsx:68-72 | `minimizeWindow`'s map on one entry: only the matching window is minimised |
| RetroDesktop.Restored | src/components/interfaces/RetroOS/Desktop.tsx:46-51 | `openWindow`'s second map: the matching window is marked shown, the others are kept |
| RetroDesktop.Without | src/components/interfaces/RetroOS/Desktop.tsx:63-65 | keeps exactly the windows of other projects |
| RetroDesktop.WithoutAbsent | src/components/interfaces/RetroOS/Desktop.tsx:63-65 | closing a project that has no window leaves the list as it is |
| RetroDesktop.WithoutAt | src/components/interfaces/RetroOS/Desktop.tsx:63-65 | closing removes exactly the project's one position and keeps the others in order |
| RetroDesktop.SpliceKeepsDistinct | src/components/interfaces/RetroOS/Desktop.tsx:63-65 | removing a window keeps project ids and z-indices distinct |
| RetroDesktop.Desktop.constructor | src/components/interfaces/RetroOS/Desktop.tsx:18-21 | nothing selected, no windows, menu closed, counter 10 |
| RetroDesktop.Desktop.AtMostOneActive | src/components/interfaces/RetroOS/Desktop.tsx:113-115 | at most one window satisfies the active rule |
| RetroDesktop.Desktop.FocusWindow | src/components/interfaces/RetroOS/Desktop.tsx:75-84 | the matching window gets the counter plus one and is restored; every other entry is unchanged; the window is then strictly on top and active |
| RetroDesktop.RestoredShown | src/components/interfaces/RetroOS/Desktop.tsx:46-51 | restoring a window that focus has already shown changes nothing |
| RetroDesktop.AppendedOnTop | src/components/interfaces/RetroOS/Desktop.tsx:53-59 | a shown window appended above every layer is active and strictly on top |
| RetroDesktop.Desktop.OpenWindow | src/components/interfaces/RetroOS/Desktop.tsx:41-61 | the counter grows by one and the list is `Opened` from the old one: a new project is appended on top, an open one is raised and restored, and either way its window is in front; ids stay unique |
| RetroDesktop.Desktop.CloseWindow | src/components/interfaces/RetroOS/Desktop.tsx:63-65 | removes exactly that project's window; the rest keep order, contents and layers |
| RetroDesktop.Desktop.MinimizeWindow | src/components/interfaces/RetroOS/Desktop.tsx:67-73 | only the matching window is minimised, and no z-index or counter changes |
| RetroDesktop.Desktop.HandleDesktopClick | src/components/interfaces/RetroOS/Desktop.tsx:86-89 | clears the selected icon and closes the start menu, and nothing else |
| RetroDesktop.Desktop.SelectIcon | src/components/interfaces/RetroOS/Desktop.tsx:100 | selects the icon, and nothing else |
| RetroDesktop.Desktop.ToggleStartMenu | src/components/interfaces/RetroOS/Desktop.tsx:159 | flips the start menu, and nothing else |
| RetroDesktop.Desktop.IconClickAsWritten | src/components/interfaces/RetroOS/Desktop.tsx:92-101 | single or double click by the icon's count; the click bubbles to the desktop, so afterwards no icon is selected and the menu is closed; a single click leaves windows and counter as they were, a double click opens or focuses the window (counter plus one, list `Opened`) |
| RetroDesktop.Desktop.IconClickContained | src/components/interfaces/RetroOS/Desktop.tsx:92-101 | with the click contained: a single click selects the icon and changes nothing else; a double click opens or focuses the window (counter plus one, list `Opened`) and keeps the selection and the menu |
| RetroDesktop.Desktop.MinimizeButtonAsWritten | src/components/interfaces/RetroOS/Window.tsx:88-97 | the minimise click bubbles to the window's `onFocus`, so the window ends up raised and not minimised; it then reaches the desktop, which clears the selected icon and closes the menu |
| RetroDesktop.Desktop.MinimizeButtonContained | src/components/interfaces/RetroOS/Window.tsx:88-97 | with the click contained, the window is minimised, no layer changes, and the selected icon and the menu stay as they were |
| RetroDesktop.SelectIconByClick | src/components/interfaces/RetroOS/Desktop.tsx:92-101 | one click on an icon leaves nothing selected |
| RetroDesktop.SelectIconByContainedClick | src/components/interfaces/RetroOS/Desktop.tsx:92-101 | the contained click leaves the icon selected |
| RetroDesktop.MinimizeByButton | src/components/interfaces/RetroOS/Window.tsx:88-97 | open, then minimise by button: the window is shown, at layer 12 |
| RetroDesktop.MinimizeByContainedButton | src/components/interfaces/RetroOS/Window.tsx:88-97 | the contained press minimises the window, at layer 11 |
| BootSequence.Boot.constructor | src/components/interfaces/RetroOS/BootSequence.tsx:27-34 | phase bios, no lines, the interval running |
| BootSequence.ShowBootScreen | src/components/interfaces/RetroOS/BootSequence.tsx:59 | the boot screen is rendered until the phase is done |
| BootSequence.Boot.Tick | src/components/interfaces/RetroOS/BootSequence.tsx:34-42 | reveals the next boot line; once all twelve are shown, it stops the interval and schedules the logo; shown lines are always a prefix of the boot text |
| BootSequence.Boot.LogoTimeout | src/components/interfaces/RetroOS/BootSequence.tsx:40 | bios advances to logo, which schedules its own timer |
| BootSequence.Boot.DoneTimeout | src/components/interfaces/RetroOS/BootSequence.tsx:48-52 | logo advances to done, `onComplete` is called for the first and only time, and the screen is hidden |
| BootSequence.BootToCompletion | src/components/interfaces/RetroOS/BootSequence.tsx:31-59 | a whole boot: 13 ticks, every line in order, done, `onComplete` exactly once, the boot screen gone |
| VendingKeypad.LastTwo | src/components/interfaces/VendingMachine/Keypad.tsx:23 | `slice(-2)`: the last min(2, length) characters |
| VendingKeypad.CodeShape | src/components/interfaces/VendingMachine/Keypad.tsx:11-12 | a two-character input is a valid code iff it is a letter key followed by a digit key |
| VendingKeypad.ValidCodeFromLetterThenDigit | src/components/interfaces/VendingMachine/Keypad.tsx:11-28 | a key press yields a valid code iff the key is a digit key and the character before it is a letter key |
| VendingKeypad.Keypad.constructor | src/components/interfaces/VendingMachine/Keypad.tsx:15 | empty input |
| VendingKeypad.Keypad.HandleKeyPress | src/components/interfaces/VendingMachine/Keypad.tsx:17-32 | CLR clears and selects nothing; any other key keeps the last two characters and selects iff they form a valid code, scheduling one clear |
| VendingKeypad.Keypad.ClearTimeout | src/components/interfaces/VendingMachine/Keypad.tsx:30 | the deferred clear empties the input |
| VendingKeypad.LetterThenDigit | src/components/interfaces/VendingMachine/Keypad.tsx:17-32 | A then 1 selects A1; 1 then A selects nothing |
| VendingKeypad.SelectThenClear | src/components/interfaces/VendingMachine/Keypad.tsx:27-30 | B, 2 selects B2, and the clear empties the input |
| VendingKeypad.ShiftingBuffer | src/components/interfaces/VendingMachine/Keypad.tsx:23-28 | A, B, 1 selects B1 |
| VendingMachine.FindBySlot | src/components/interfaces/VendingMachine/index.tsx:33 | the first project stocked in the slot, or none exactly when no project is |
| VendingMachine.KeypadCodeSelects | src/components/interfaces/VendingMachine/index.tsx:32-37 | each keypad code selects the project in the same catalog position |
| VendingMachine.NonCodeSelectsNothing | src/components/interfaces/VendingMachine/index.tsx:32-37 | any other code selects nothing |
| VendingMachine.DispenseButton | src/components/interfaces/VendingMachine/index.tsx:143-149 | disabled iff dispensing or not live; the caption says which |
| VendingMachine.Machine.constructor | src/components/interfaces/VendingMachine/index.tsx:23-25 | nothing selected, not dispensing |
| VendingMachine.Machine.HandleSlotSelect | src/components/interfaces/VendingMachine/index.tsx:27-30 | sets slot and project together |
| VendingMachine.Machine.HandleKeypadSelect | src/components/interfaces/VendingMachine/index.tsx:32-37 | selects the slot's project or changes nothing; a new selection's slot is its project's slot |
| VendingMachine.Machine.HandleDispense | src/components/interfaces/VendingMachine/index.tsx:39-53 | no-op without a selection; otherwise starts dispensing and schedules a completion that captures the project |
| VendingMachine.Machine.PressDispense | src/components/interfaces/VendingMachine/index.tsx:140-150 | the button delivers a click only when enabled, so dispensing starts exactly for a live selection on an idle machine, queuing that project; otherwise nothing changes; a queue of live projects stays one |
| VendingMachine.Machine.DispenseComplete | src/components/interfaces/VendingMachine/index.tsx:45-52 | stops dispensing; opens the captured project's url iff it is live; clears both selections |
| VendingMachine.DispenseLive | src/components/interfaces/VendingMachine/index.tsx:32-52 | A1, a press on the dispense button, completion: LokiTunes opens and the machine is idle |
| VendingMachine.DispenseComingSoon | src/components/interfaces/VendingMachine/index.tsx:140-150 | C2 selects the podcast, whose button reads COMING SOON and is disabled; pressing it starts no dispense and schedules nothing |
| VendingMachine.DispenseNothing | src/components/interfaces/VendingMachine/index.tsx:39-40 | dispensing without a selection schedules nothing |
| VendingMachine.ChooseWhileDispensing | src/components/interfaces/VendingMachine/index.tsx:45-52 | a choice made while dispensing is discarded by the completion, which opens the earlier project |
| NeuralConnections.LexTrichotomy | src/components/interfaces/NeuralMap/Connections.tsx:25 | the default string order is asymmetric, irreflexive and total: of two different ids exactly one sorts first |
| NeuralConnections.LexTransitive | src/components/interfaces/NeuralMap/Connections.tsx:25 | the default string order is transitive, which with `LexTrichotomy` makes it a strict total order |
| NeuralConnections.LexLess | src/components/interfaces/NeuralMap/Connections.tsx:25 | `sort()`'s default string order: by character, a proper prefix first; `LexTrichotomy` and `LexTransitive` prove it a strict total order |
| NeuralConnections.PairKey | src/components/interfaces/NeuralMap/Connections.tsx:25 | `[a, b].sort().join('-')`: the two ids in ascending order joined by a dash; `PairKeySymmetric` and `PairKeyNamesPair` state its meaning |
| NeuralConnections.PairKeySymmetric | src/components/interfaces/NeuralMap/Connections.tsx:25 | the sorted-pair key does not depend on the order of the two ids |
| NeuralConnections.PairKeyByHead | src/components/interfaces/NeuralMap/Connections.tsx:25 | ids whose first characters differ are ordered by those characters |
| NeuralConnections.PairKeyNamesPair | src/components/interfaces/NeuralMap/Connections.tsx:25 | for dash-free ids, equal keys mean the same unordered pair |
| NeuralConnections.DeclsOf | src/components/interfaces/NeuralMap/Connections.tsx:23 | one declaration per entry of a project's list, in list order |
| NeuralConnections.Step | src/components/interfaces/NeuralMap/Connections.tsx:25-38 | one pass of the inner body: a seen key changes nothing; otherwise the key is added, and an edge is pushed iff the target is found |
| NeuralConnections.Run | src/components/interfaces/NeuralMap/Connections.tsx:20-39 | both accumulators after visiting declarations in order from empty ones; `RunInvariant` and `RunExtends` state its properties |
| NeuralConnections.Connections | src/components/interfaces/NeuralMap/Connections.tsx:16-43 | the memoised edge list, the edges of the run over all declarations; `BuildConnections` computes it and `ConnectionsWellFormed`, `UnorderedPairsOnce` and `SeenIffSamePair` are proved about it |
| NeuralConnections.BuildConnections | src/components/interfaces/NeuralMap/Connections.tsx:16-43 | the nested loops compute exactly the specified edge list |
| NeuralConnections.BodyExtendsRun | src/components/interfaces/NeuralMap/Connections.tsx:25-38 | each branch of the inner loop body (seen key, target not found, edge pushed) extends the run by the visited declaration |
| NeuralConnections.RunSnoc | src/components/interfaces/NeuralMap/Connections.tsx:20-39 | visiting one more declaration is one step of the run |
| NeuralConnections.DeclsSnoc | src/components/interfaces/NeuralMap/Connections.tsx:20-23 | the declarations of one more project are appended after the earlier ones |
| NeuralConnections.RunSeen | src/components/interfaces/NeuralMap/Connections.tsx:25-27 | `seen` holds exactly the keys of all visited declarations |
| NeuralConnections.RunEdges | src/components/interfaces/NeuralMap/Connections.tsx:29-38 | at most one edge per declaration, each from its declaring project to a found catalog project with both positions |
| NeuralConnections.RunKeysDistinct | src/components/interfaces/NeuralMap/Connections.tsx:25-27 | no two edges of a run have the same key |
| NeuralConnections.RunInvariant | src/components/interfaces/NeuralMap/Connections.tsx:20-39 | `seen` holds the keys of all visited declarations, found or not; at most one edge per declaration; each edge starts at its declaring project, ends at a catalog project, carries both positions; edge keys are distinct |
| NeuralConnections.EdgesFollowDecls | src/components/interfaces/NeuralMap/Connections.tsx:20-39 | the edges come from declarations at strictly increasing positions, so output order is project order, then list order |
| NeuralConnections.KeptInOrder | src/components/interfaces/NeuralMap/Connections.tsx:20-39 | the positions of the declarations that produced edges are strictly increasing and one per edge |
| NeuralConnections.KeptEdges | src/components/interfaces/NeuralMap/Connections.tsx:29-38 | each edge is the one built from the declaration at its kept position |
| NeuralConnections.RunExtends | src/components/interfaces/NeuralMap/Connections.tsx:20-39 | later declarations only append edges and seen keys |
| NeuralConnections.DeclsDeclared | src/components/interfaces/NeuralMap/Connections.tsx:20-23 | every declaration is one list entry of a catalog project, and there are as many as entries |
| NeuralConnections.ConnectionsWellFormed | src/components/interfaces/NeuralMap/Connections.tsx:20-39 | at most the number of declared connections; every edge goes from a catalog project to a catalog project with their positions; keys distinct |
| NeuralConnections.UnorderedPairsOnce | src/components/interfaces/NeuralMap/Connections.tsx:25-27 | no two edges share a sorted-pair key, so no pair of ids is drawn twice, in either direction |
| NeuralConnections.SeenIffSamePair | src/components/interfaces/NeuralMap/Connections.tsx:25-27 | with dash-free ids a declaration is skipped iff an earlier one names the same unordered pair |
| ShippedNetwork.ShippedDeclsInOrder | src/config/projects.ts:51-146 | the nine declared connections of the shipped catalog, in visiting order |
| ShippedNetwork.DeclsBySlices | src/config/projects.ts:51-146 | the declarations of a project list are the concatenation of the per-project slices |
| ShippedNetwork.ShippedIds | src/config/projects.ts:51-146 | the owner and target ids of the nine shipped declarations |
| ShippedNetwork.ShippedKey | src/components/interfaces/NeuralMap/Connections.tsx:25 | the key of each shipped declaration |
| ShippedNetwork.ShippedPairKey | src/components/interfaces/NeuralMap/Connections.tsx:25 | the sorted-pair key of each shipped id pair |
| ShippedNetwork.ShippedKeySet | src/components/interfaces/NeuralMap/Connections.tsx:25 | the nine declarations have exactly five distinct keys |
| ShippedNetwork.ShippedTargetsFound | src/components/interfaces/NeuralMap/Connections.tsx:29-30 | every shipped target is found in the catalog |
| ShippedNetwork.AllFoundCount | src/components/interfaces/NeuralMap/Connections.tsx:26-38 | when every target is found, there is one edge per distinct key |
| ShippedNetwork.DistinctKeysCount | src/components/interfaces/NeuralMap/Connections.tsx:25-27 | edges whose keys are pairwise distinct have exactly as many keys as edges |
| ShippedNetwork.EdgeKeysAreSeen | src/components/interfaces/NeuralMap/Connections.tsx:26-38 | when every target is found, the drawn edges' keys are exactly the keys seen |
| ShippedNetwork.ShippedConnections | src/components/interfaces/NeuralMap/Connections.tsx:16-43 | the shipped catalog draws exactly five edges, and their keys are exactly the five distinct pairs, so each pair is drawn once |
| ShippedNetwork.ShippedDashFree | src/config/projects.ts:41-146 | the shipped ids contain no dash |
| AnatomicalMap.ProjectForBodyPart | src/components/interfaces/AnatomicalMap/BodySVG.tsx:46-48 | the first project mapped to the part, or none exactly when no project is |
| AnatomicalMap.Hotspots | src/components/interfaces/AnatomicalMap/BodySVG.tsx:104-106 | a hotspot exactly for the parts that map to a project, carrying that project |
| AnatomicalMap.TooltipButton | src/components/interfaces/AnatomicalMap/BodySVG.tsx:149-155 | disabled iff not live; captioned Enter Portal or Coming Soon accordingly |
| AnatomicalMap.BodyMap.constructor | src/components/interfaces/AnatomicalMap/BodySVG.tsx:44 | nothing selected |
| AnatomicalMap.BodyMap.HandleClick | src/components/interfaces/AnatomicalMap/BodySVG.tsx:50-55 | an unmapped part changes nothing; the selected project's part deselects; any other part selects its project |
| AnatomicalMap.BodyMap.HandleVisit | src/components/interfaces/AnatomicalMap/BodySVG.tsx:57-61 | a url is opened iff a live project is selected, and it is that project's |
| AnatomicalMap.ShippedPartsMapped | src/components/interfaces/AnatomicalMap/BodySVG.tsx:46-48 | each of the six parts maps to the project in the same catalog position |
| AnatomicalMap.HotspotsWhenAllMapped | src/components/interfaces/AnatomicalMap/BodySVG.tsx:104-106 | when every part is mapped, there is one hotspot per part, in order |
| AnatomicalMap.ShippedHotspots | src/components/interfaces/AnatomicalMap/BodySVG.tsx:29-36 | the shipped figure shows six hotspots, in layout order, with their projects |
| AnatomicalMap.ClickTwice | src/components/interfaces/AnatomicalMap/BodySVG.tsx:50-55 | two clicks on one part select, then return to null |
| AnatomicalMap.ClickOther | src/components/interfaces/AnatomicalMap/BodySVG.tsx:53 | a click on another part moves the selection |
| AnatomicalMap.VisitHeartAndEye | src/components/interfaces/AnatomicalMap/BodySVG.tsx:57-61 | the heart's coming-soon project opens nothing; the eye's opens crym.space |
| AnatomicalMap.ClickUnmapped | src/components/interfaces/AnatomicalMap/BodySVG.tsx:50-55 | a click on an unmapped part keeps the selection |
| DiceLanding.DotPattern | src/components/core/DiceLanding/index.tsx:12-19 | defined exactly for the faces 1..6 |
| DiceLanding.DotPatternShape | src/components/core/DiceLanding/index.tsx:12-19 | face n has n pips, on the 3x3 grid, no two on one cell, and is symmetric under a half turn |
| DiceLanding.FaceRotation | src/components/core/DiceLanding/index.tsx:23-30 | defined exactly for the faces 1..6 |
| DiceLanding.DisplayedRotation | src/components/core/DiceLanding/index.tsx:162-164 | idle view before any face; otherwise the face's rotation, defined for 1..6 |
| DiceLanding.FaceRotationsDistinct | src/components/core/DiceLanding/index.tsx:23-30 | different faces have different rotations, and none is the idle view |
| DiceLanding.FinalFaceHasRotation | src/components/core/DiceLanding/index.tsx:134-135 | the rolled final face always has a rotation and a pip pattern |
| DiceLanding.ResultName | src/components/core/DiceLanding/index.tsx:165 | a name is shown iff the result is visible and the number is a scene id; it is that scene's name |
| DiceLanding.Landing.constructor | src/components/core/DiceLanding/index.tsx:85-88 | idle, no face, no result |
| DiceLanding.Landing.HandleRoll | src/components/core/DiceLanding/index.tsx:91-102 | no-op while rolling; otherwise hides the result and starts the count at 0 |
| DiceLanding.Landing.Tick | src/components/core/DiceLanding/index.tsx:104-138 | counts one tick; at tick 20 stops, shows and records the drawn scene id, and schedules the reveal |
| DiceLanding.MotionPhases | src/components/core/DiceLanding/index.tsx:109-123 | over twenty ticks the die rolls across for the first ten, bounces for the next five and settles for the last five |
| DiceLanding.MotionAt | src/components/core/DiceLanding/index.tsx:109-130 | the motion of tick n: rolling across up to 10, bouncing up to 15, settling after |
| DiceLanding.Landing.ShowTimeout | src/components/core/DiceLanding/index.tsx:142-148 | shows the result and schedules navigation to the same number |
| DiceLanding.Landing.NavTimeout | src/components/core/DiceLanding/index.tsx:146-148 | the store enters the captured scene with source dice |
| DiceLanding.Landing.HandleSkip | src/components/core/DiceLanding/index.tsx:154-156 | the store enters the lobby with no source |
| DiceLanding.RollToEnd | src/components/core/DiceLanding/index.tsx:102-148 | a roll is 20 ticks: 10 across, 5 bouncing, 5 settling; it ends on the drawn scene, shows its name, and enters that scene from the dice |
| DiceLanding.SkipDuringRoll | src/components/core/DiceLanding/index.tsx:103-151 | Skip during a roll opens the lobby at once, but nothing clears the roll's interval or timeouts, nor disables the button (index.tsx:298-307), so the store then enters the rolled scene, as reached by dice, with -1 and that scene visited |
| DiceLanding.RollIgnoredWhileRolling | src/components/core/DiceLanding/index.tsx:92 | a press while rolling changes nothing |
| DiceLanding.SkipFromFresh | src/components/core/DiceLanding/index.tsx:154-156 | skip opens the lobby, and -1 is recorded as visited |
| LobbyDice.Glyph | src/components/core/EntryLobby/Dice.tsx:65 | `diceFaces[face - 1]` is defined exactly for faces 1..6 |
| LobbyDice.Caption | src/components/core/EntryLobby/Dice.tsx:67 | Rolling... while rolling, Roll the Dice otherwise |
| LobbyDice.Roller.constructor | src/components/core/EntryLobby/Dice.tsx:9-10 | idle, showing face 1 |
| LobbyDice.Roller.HandleRoll | src/components/core/EntryLobby/Dice.tsx:12-20 | ignored while rolling; otherwise starts a fresh interval |
| LobbyDice.Roller.Tick | src/components/core/EntryLobby/Dice.tsx:20-35 | ticks 1-14 show random faces; tick 15 stops, calls `rollDice` once and shows its result |
| LobbyDice.Roller.StopTimeout | src/components/core/EntryLobby/Dice.tsx:31-33 | the button is enabled only when the timeout fires |
| LobbyDice.RollOnce | src/components/core/EntryLobby/Dice.tsx:12-38 | 15 ticks, one `rollDice` call, the rolled face's glyph shown, still rolling until the timeout |
| LobbyDice.PressWhileRolling | src/components/core/EntryLobby/Dice.tsx:13 | a press during a roll changes nothing |
| InterfaceGrid.CardFor | src/components/core/EntryLobby/InterfaceGrid.tsx:134-165 | a card shows its entry, marked iff its id has been visited |
| InterfaceGrid.Cards | src/components/core/EntryLobby/InterfaceGrid.tsx:134-135 | one card per registry entry, in registry order |
| InterfaceGrid.CardsFollowRegistry | src/components/core/EntryLobby/InterfaceGrid.tsx:134-160 | card k is scene k + 1, marked iff k + 1 is visited |
| InterfaceGrid.ThumbnailDecor | src/components/core/EntryLobby/InterfaceGrid.tsx:46-122 | a decoration exactly for the six registry slugs, none otherwise |
| InterfaceGrid.ThumbnailsDistinct | src/components/core/EntryLobby/InterfaceGrid.tsx:46-122 | every registry card is decorated, each differently |
| InterfaceGrid.ClickCard | src/components/core/EntryLobby/InterfaceGrid.tsx:141 | a click enters the card's scene with no source |
| InterfaceGrid.ClickThenBack | src/components/core/EntryLobby/InterfaceGrid.tsx:141 | a click enters scene k + 1, marks its card, and back returns to the lobby |
| ControlPanel.LaunchButtonFor | src/components/interfaces/ControlRoom/Panel.tsx:105-107 | disabled iff not live or not active; captioned Launch, Activate First or Coming Soon accordingly |
| ControlPanel.BarHeights | src/components/interfaces/ControlRoom/Panel.tsx:84-88 | each bar shows its level while active and 10 when idle |
| ControlPanel.Panel.constructor | src/components/interfaces/ControlRoom/Panel.tsx:24-25 | inactive, five zero bars |
| ControlPanel.Panel.HandleClick | src/components/interfaces/ControlRoom/Panel.tsx:28-43 | toggles the panel; switching it off resets the five bars to zero |
| ControlPanel.Panel.VuTick | src/components/interfaces/ControlRoom/Panel.tsx:34-36 | each of the five bars becomes 20 + 60r, within [20, 80) |
| ControlPanel.Panel.HandleLaunch | src/components/interfaces/ControlRoom/Panel.tsx:45-50 | a url is opened iff the project is live |
| ControlPanel.Panel.PressLaunch | src/components/interfaces/ControlRoom/Panel.tsx:102-108 | a press opens the url iff the project is live and the panel is active |
| ControlPanel.ActivateThenLaunch | src/components/interfaces/ControlRoom/Panel.tsx:41-50 | LokiTunes first asks for activation, then opens, and the panel stays on |
| ControlPanel.ComingSoonNeverLaunches | src/components/interfaces/ControlRoom/Panel.tsx:45-50 | the podcast panel never launches |
| ControlPanel.SwitchOffResets | src/components/interfaces/ControlRoom/Panel.tsx:28-36 | switching off after the bars moved puts them back to zero, drawn at 10 |
| ControlRoom.StatusLine.constructor | src/components/interfaces/ControlRoom/index.tsx:11 | the line starts at NOMINAL, which is the first message |
| ControlRoom.StatusLine.Tick | src/components/interfaces/ControlRoom/index.tsx:33-38 | the index advances by one modulo 4, and the line shows the message it names |
| ControlRoom.StatusAfter | src/components/interfaces/ControlRoom/index.tsx:32-40 | after n ticks the line shows message n mod 4 |
| ControlRoom.FullCycle | src/components/interfaces/ControlRoom/index.tsx:33-37 | one tick gives ALL SYSTEMS GO; four ticks return to NOMINAL |
| ControlRoom.PanelGrid | src/components/interfaces/ControlRoom/index.tsx:59-61 | one panel per project, in catalog order, keyed by id |
| ControlRoom.ShippedPanelsDistinct | src/components/interfaces/ControlRoom/index.tsx:59-61 | the six panel keys are distinct, and every project has its panel |

## Left out

- Rendering, animation and styling: framer-motion, CSS classes, SVG drawing, the roll positions of the landing die, the Bezier control points of neural-map edges, and the on-screen bar heights beyond the active/idle rule. These are presentation and floating-point trigonometry.
- The radio scene (`PirateBroadcast`). Its tuning is float distance against a 0.3 MHz threshold, `atan2`, clamping and rounding.
- `VendingMachine/Machine.tsx`. It is 3D rendering; its slot lookup is the same `find` as `FindBySlot`.
- `NeuralMap/Node.tsx`, `RetroOS/StartMenu.tsx` and the drag and visit handlers of `RetroOS/Window.tsx`. These are thin handlers over `window.open` and mouse coordinates.
- `Window.tsx`: the bubbling of its minimise button into `onFocus` is modelled (see Findings), but the bubbling of its close button into `onFocus` is not. That bubbling focuses a window that no longer exists, which only advances the z-index counter.
- Wiring and markup-only components: `WelcomeModal`, `TransitionWrapper`, `Loader`, `AudioToggle`, `BackButton`, `EntryLobby/index.tsx`, `RetroOS/index.tsx`, `AnatomicalMap/index.tsx` and `NeuralMap/index.tsx`.
- Persistence through `localStorage`, zustand's subscription mechanics, React batching, Suspense and lazy loading. A reload is modelled as a store rebuilt from `Partialize()` (`Store.Reload`).
- Clocks: `toLocaleTimeString` in the desktop and control-room status bars, and the real durations of intervals and timeouts. Only their order as events is modelled.
- `window.open`. Opening a url is modelled as returning it.
- Store.Truthy: a JavaScript `NaN` id, which is falsy, is not a value of the model.
- BootSequence.Boot.Tick: the interval's state updater reads the captured `lineIndex`. The model reads it at tick time, as React does when it applies the update eagerly.
- ControlPanel.Panel.HandleClick: the effect that resets the bars when the panel is switched off runs after the render. The model applies it as part of the click.
- ControlPanel.Panel.VuTick: the interval maps over the bar array captured when the effect started. The model relies only on that array's length, which is always five.
- LobbyDice.Roller.Tick: `rollDice` changes the screen, so the lobby and its die unmount. The model keeps the roller alive so that the timeout's final state can be stated.
- DiceLanding.Landing: a second roll can start once `isRolling` has dropped at tick 20, while the first roll's timeouts are still pending. The model keeps both queues, but no client drives that interleaving. Unmounting the landing is not modelled either; it would not change the outcome, since the source never clears the roll's interval or timeouts, so they go on to call `setInterface` (`DiceLanding.SkipDuringRoll`).
- NeuralConnections.LexLess: compares characters as Unicode scalar values, while JavaScript compares UTF-16 code units; the two orders differ only between a character from U+E000 to U+FFFF and one above U+FFFF, and the shipped ids are ASCII.
- Panel text (`project.name.toUpperCase()` and the panel icon). Case folding of strings is not modelled.

## Findings

| source | as written | input that shows it | evidently intended | confidence | as-written member | corrected member |
|---|---|---|---|---|---|---|
| src/components/interfaces/RetroOS/Desktop.tsx:92-101 | The icons sit inside the desktop `div`, whose `onClick` clears `selectedIcon`. The icon's own click handler calls `onSelect`, and the click then bubbles to the desktop, which deselects it again in the same event. | One click on any desktop icon, from a fresh desktop. | A single click leaves the icon highlighted (`isSelected`). | not executed; high, since the icon handler never stops propagation | RetroDesktop.SelectIconByClick | RetroDesktop.SelectIconByContainedClick |
| src/components/interfaces/RetroOS/Window.tsx:88-97 | The minimise button sits inside the window `div`, whose `onClick` is `onFocus`. `minimizeWindow` is applied, then `focusWindow` sets `isMinimized: false` and raises the window. | Open the crym window, then press its `_` button: the window is still shown, at layer 12. | The window is minimised and no layer changes. | not executed; high, since the button never stops propagation | RetroDesktop.MinimizeByButton | RetroDesktop.MinimizeByContainedButton |
