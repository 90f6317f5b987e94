# NexusOS desktop core in Dafny

NexusOS is a browser desktop. This project models its core:

- **The window manager of the `App` component.** It holds a list of windows, the focused window's id and a global stacking counter that starts at 10. It runs a boot → login → desktop phase machine. Five operations change its state: open an application, close, minimise, maximise and bring to front.
- **The application registry** and the order in which the Dock lists it.
- **The window frame.** It projects a stored window onto what the screen shows, and turns pointer events into calls back to the window manager.
- **The kernel service.** It provides:
  - an in-memory folder tree with a path walk, folder and file creation, and deletion;
  - a settings record with a merge update;
  - the password check.
- **The file manager's breadcrumb navigation.**
- **The terminal's command switch and history.**
- **The settings tiles' record transforms and status tables.**
- **The login form's submit/result state machine.**

Code that changes state step by step is modelled as classes:

- `WindowManager.App`
- `Kernel.VirtualFileSystem`
- `Kernel.SettingsManager`
- `FileManager.FileBrowser`
- `TerminalApp.Terminal`
- `LoginScreen.LoginForm`
- `SystemSettings.SettingsPanel`

Each method's `ensures` ties the new state to pure functions of the old state. The lemmas state the invariants and the algebra of those functions. The frame projection, the registry and the settings transforms are pure functions.

The window manager keeps an invariant, `WellFormed`. It has four parts:

- window ids are unique;
- z-values are pairwise distinct;
- every z-value is above 10 and at most the counter;
- no application with `allowMultiple` unset has two windows.

Every operation preserves it. The registry is a parameter of `App`, so the multi-instance path of `openApp` is modelled too. `Registry.Apps` is the shipped table, where no entry allows multiple windows. The quirks of the code are kept:

- Closing a window leaves the active id naming it.
- Minimising clears focus whichever window held it.
- Bringing an absent id to front still advances the counter and makes that id active.

Closing the focused window leaves `activeWindowId` holding the closed window's id: `closeWindow` (`App.tsx:59-61`) never clears it, and the model keeps that stale id. No handler in `App.tsx` or `WindowFrame.tsx` writes a window's `x`, `y`, `width` or `height`; dragging is left to the animation library. So the model has no move or resize operation.

Other modelled items:

- **Generated values are parameters.** The generated UUIDs, the current date and the terminal's clock text are supplied by the caller. A fresh window id must not name a live window.
- **Login timer.** The delayed password check captures the password typed at submit time. The form therefore keeps a first-in-first-out list of the passwords whose checks are pending.
- **Submit button.** `LoginScreen.LoginForm.SubmitEnabled` is the button's enabled condition (`LoginScreen.tsx:75`).
- **Title-bar pointer-down.** A pointer-down on the title bar reaches the title bar's handler and then the frame's, so it focuses the window twice. `WindowManager.RaiseTwice` shows that this leaves the list as a single raise with the later stacking value; the counter still moves forward twice.

## Model

| member | source | states |
|---|---|---|
| `Registry.Apps` | constants.tsx:40-106 | each entry's id is its key, its default size is positive, and no entry allows multiple windows |
| `Registry.DockOrderListsEveryAppOnce` | constants.tsx:40-106 | the table lists every application identity exactly once, eight entries in all |
| `WindowManager.DockIcons` | components/Taskbar/Dock.tsx:42-50 | the Dock shows one icon per registry entry, in the registry's listing order |
| `WindowManager.DockShowsEveryAppOnce` | components/Taskbar/Dock.tsx:42-50 | every application has exactly one Dock icon, and its indicator is lit exactly when a window of it exists, minimised or not |
| `WindowFrame.Display` | components/Window/WindowFrame.tsx:30-47 | hidden exactly when minimised; shown z-index equals the stored one; draggable iff not maximised; maximised shows at the origin with the viewport width and the viewport height less 96 and square corners; otherwise the stored geometry with radius 8 |
| `WindowFrame.MinimizedShowsNothing` | components/Window/WindowFrame.tsx:30 | a minimised window shows nothing whatever its geometry, stacking or maximised flag |
| `WindowFrame.MaximizedIgnoresStoredGeometry` | components/Window/WindowFrame.tsx:42-45 | while maximised, changing the stored geometry changes nothing on screen |
| `WindowFrame.OnPointerDown` | components/Window/WindowFrame.tsx:57-71 | a pointer-down focuses this window's id, once on the content and twice in the title bar; a minimised window receives nothing |
| `WindowFrame.OnClick` | components/Window/WindowFrame.tsx:86-100 | the three buttons call minimise, maximise and close with this window's id; content and title bar call nothing |
| `WindowManager.FindByApp` | App.tsx:32 | a window of the application that no earlier window of the list shares its application with (the first one), and none exactly when no window has that application |
| `WindowManager.Restored` | App.tsx:35 | keeps the length; a window's minimised flag is cleared exactly when its id matches, and nothing else about any window changes |
| `WindowManager.Minimized` | App.tsx:64 | keeps the length; a window's minimised flag is set exactly when its id matches, and nothing else about any window changes |
| `WindowManager.MaximizeToggled` | App.tsx:69 | keeps the length; a window's maximised flag flips exactly when its id matches, and nothing else about any window changes |
| `WindowManager.Raised` | App.tsx:74 | keeps the length; a matching window gets the stacking value and is un-minimised, every other window is unchanged, and no other field changes |
| `WindowManager.Without` | App.tsx:60 | the filter is never longer than the list |
| `WindowManager.WithoutKeepsOthers` | App.tsx:60 | a window is in the filtered list exactly when it is in the list and its id differs from the closed one |
| `WindowManager.WithoutAbsent` | App.tsx:59-61 | closing an id that no window has leaves the list unchanged |
| `WindowManager.WithoutRemovesOne` | App.tsx:59-61 | with unique ids, closing a live id removes exactly that window and keeps the order of the rest |
| `WindowManager.DropKeepsWellFormed` | App.tsx:59-61 | removing one window keeps unique ids, distinct bounded z-values and single instance |
| `WindowManager.RestoreKeepsWellFormed` | App.tsx:34-37 | clearing the minimised flag of the reused window keeps the window-manager invariant |
| `WindowManager.AppendKeepsWellFormed` | App.tsx:39-56 | appending a window with a fresh id and z-index counter+1, of an application that allows several windows or has none, keeps the invariant at counter+1 |
| `WindowManager.CloseKeepsWellFormed` | App.tsx:59-61 | closing any id keeps the window-manager invariant |
| `WindowManager.RaisedIsTopmost` | App.tsx:73-77 | raising with counter+1 keeps the invariant at the new counter, un-minimises the target, puts it above every window and leaves the others untouched |
| `WindowManager.RaiseTwice` | components/Window/WindowFrame.tsx:57-71 | two focus calls in a row leave the list as a single raise with the later stacking value |
| `WindowManager.RaiseAbsorbsRestore` | App.tsx:34-37 | un-minimising before bringing to front makes no difference to the result |
| `WindowManager.MaximizeRoundTripShows` | App.tsx:68-71 | after the maximise button the window fills the viewport above the Dock with square corners; after a second press it shows at its stored position and size again, with only the stacking value of the second raise changed |
| `WindowManager.MaximizeTwiceRestores` | App.tsx:68-71 | maximising twice restores every window's maximised flag and never changes x, y, width or height; other windows are untouched |
| `WindowManager.Dedup` | App.tsx:193 | the set-from-array keeps exactly the values of its input, each once |
| `WindowManager.DedupOfDistinct` | App.tsx:193 | a list without repetitions is its own set |
| `WindowManager.OpenApps` | App.tsx:193 | the Dock's open list has no repetitions and is no longer than the window list |
| `WindowManager.DockOpenSet` | App.tsx:193 | an application is in the Dock's open list exactly when some window, minimised or not, belongs to it |
| `WindowManager.ShippedRegistryOneWindowPerApp` | App.tsx:33 | with the shipped registry every well-formed state has at most one window per application, so the open list has one entry per window |
| `WindowManager.App.constructor` | App.tsx:15-18 | starts in the boot phase with no windows, no focus and the counter at 10 |
| `WindowManager.App.FinishBoot` | App.tsx:20-23 | the boot timer, set once during boot, moves to the login phase |
| `WindowManager.App.HandleLogin` | App.tsx:25-27 | a successful login, reported only by the login screen of the login phase, moves to the desktop phase |
| `WindowManager.App.BringToFront` | App.tsx:73-77 | the target gets counter+1 and is un-minimised and on top; the counter advances by one and the id becomes active even if absent; the invariant holds |
| `WindowManager.App.OpenApp` | App.tsx:29-57 | a single-instance application with a window is un-minimised and brought to front without a new window; otherwise one window is appended with the cascade position 100+40n, 80+40n, the registry title and size, z-index counter+1 and both flags clear, and becomes active; the counter advances by one and the invariant holds |
| `WindowManager.App.CloseWindow` | App.tsx:59-61 | removes exactly the window with the id and keeps the order of the rest; an unknown id changes nothing; focus and counter are untouched |
| `WindowManager.App.MinimizeWindow` | App.tsx:63-66 | sets the target's minimised flag only and always clears focus |
| `WindowManager.App.MaximizeWindow` | App.tsx:68-71 | flips the target's maximised flag, then brings it to front |
| `WindowManager.App.Handle` | App.tsx:177-180 | each call a frame makes runs the matching window-manager operation, with its exact effect |
| `WindowManager.App.IsOpen` | components/Taskbar/Dock.tsx:48 | the Dock's indicator is lit exactly when a window of the application exists |
| `WindowManager.App.Frames` | App.tsx:169-176 | one frame per window, in list order, each the frame projection with the active flag |
| `Kernel.IndexOfId` | services/Kernel.ts:124 | -1 exactly when no item has the id, otherwise the first position holding it |
| `Kernel.Resolve` | services/Kernel.ts:75-90 | the empty path resolves to the root; a non-empty path resolves only if its first id is first found on a folder with a children list |
| `Kernel.ResolveSnoc` | services/Kernel.ts:80-89 | a path one id longer takes one more step of the walk: into the first item with that id if it is a folder with children, else to no directory |
| `Kernel.Attach` | services/Kernel.ts:92-104 | at the empty path the top level gains one entry; below it the top level keeps its length and the id at every position |
| `Kernel.AttachAppends` | services/Kernel.ts:92-104 | on a path that resolves, the directory there gains the item at its end and keeps its entries and their order |
| `Kernel.AttachUnresolved` | services/Kernel.ts:92-104 | on a path that does not resolve, the pushed item goes nowhere and the tree is unchanged |
| `Kernel.RemoveFirst` | services/Kernel.ts:124-127 | the directory loses one entry when the id is present and none when it is absent |
| `Kernel.RemoveAt` | services/Kernel.ts:122-129 | at the empty path the top level never grows; below it the top level keeps its length and the id at every position |
| `Kernel.RemoveAtRemoves` | services/Kernel.ts:122-129 | on a path that resolves, the directory there loses its first item with the id |
| `Kernel.RemoveAtUnresolved` | services/Kernel.ts:122-129 | on a path that does not resolve, the tree is unchanged |
| `Kernel.RemoveAtAbsent` | services/Kernel.ts:124-125 | on a path that resolves, an id the directory there does not hold leaves the whole tree unchanged |
| `Kernel.AttachFrame` | services/Kernel.ts:92-104 | creating changes no directory off the path: every path that leaves it at some step resolves as before |
| `Kernel.RemoveAtFrame` | services/Kernel.ts:122-129 | deleting changes no directory off the path: every path that leaves it at some step resolves as before |
| `Kernel.RemoveFirstTakesOne` | services/Kernel.ts:124-127 | an absent id removes nothing; otherwise exactly the first matching item goes, the items before it stay in place and the items after it move up one place in order |
| `Kernel.InitialFiles` | services/Kernel.ts:7-37 | the initial tree has three folders, each with a children list |
| `Kernel.VirtualFileSystem.constructor` | services/Kernel.ts:44-52 | the tree is the stored one if any, else the initial tree |
| `Kernel.VirtualFileSystem.GetDirectory` | services/Kernel.ts:75-90 | the empty path gives the root; otherwise the directory the walk reaches, or an empty list when an id is missing or not a folder with children |
| `Kernel.VirtualFileSystem.CreateFolder` | services/Kernel.ts:92-105 | returns a folder with the name, size "--", the date and an empty children list, appended at the end of the resolved directory; on an invalid path the tree is unchanged |
| `Kernel.VirtualFileSystem.CreateFile` | services/Kernel.ts:107-120 | returns a file with the name, size "1 KB", the date and the content, default empty, appended in the same way |
| `Kernel.VirtualFileSystem.DeleteItem` | services/Kernel.ts:122-129 | removes only the first item with the id from the resolved directory; on a path that does not resolve, or an id the directory does not hold, the whole tree is unchanged |
| `Kernel.Merge` | services/Kernel.ts:159-160 | seen as a whole patch, the merged configuration is the old one with the patch's fields laid over it |
| `Kernel.MergeNothingOrWhole` | services/Kernel.ts:159-160 | an empty patch keeps the configuration; a whole configuration replaces it |
| `Kernel.MergeIdempotent` | services/Kernel.ts:159-160 | applying the same patch twice is applying it once |
| `Kernel.MergeThen` | services/Kernel.ts:159-160 | two updates in sequence are one update with the later patch's fields winning |
| `Kernel.SettingsManager.constructor` | services/Kernel.ts:150-153 | the configuration is the stored one if any, else the defaults |
| `Kernel.SettingsManager.Get` | services/Kernel.ts:155-157 | returns a value equal to the current configuration |
| `Kernel.SettingsManager.Update` | services/Kernel.ts:159-162 | fields present in the patch are overwritten and all others kept |
| `Kernel.Authenticate` | services/Kernel.ts:176-179 | accepts exactly "admin" and "1234" |
| `Kernel.KernelService.constructor` | services/Kernel.ts:171-174 | builds a fresh tree and a fresh settings manager, each from storage or its defaults |
| `SystemSettings.Lookup` | components/Apps/SystemSettings.tsx:43-46 | a table read is defined exactly for an index inside the table, and then is the entry there |
| `SystemSettings.CycleStep` | components/Apps/SystemSettings.tsx:33-38 | on an index inside a table a press moves to the next entry, and from the last entry to the first |
| `SystemSettings.ReturnsAfter` | components/Apps/SystemSettings.tsx:33-38 | on an index inside a table of two, three or four entries, that many presses bring it back |
| `SystemSettings.JsRem` | components/Apps/SystemSettings.tsx:33-38 | JavaScript's remainder lies in [0, n) for a non-negative dividend and in (-n, 0] for a negative one |
| `SystemSettings.Cycle` | components/Apps/SystemSettings.tsx:33-38 | a press gives a value strictly between -n and n |
| `SystemSettings.Apply` | components/Apps/SystemSettings.tsx:31-39 | each handler carries every field but its own over unchanged, the volume included |
| `SystemSettings.DefaultsInRange` | services/Kernel.ts:134-145 | the default configuration is in range, and the panel first shows 4K HDR @ 144Hz, Balanced, English (US) and Neon Dark |
| `SystemSettings.HandlersKeepRange` | components/Apps/SystemSettings.tsx:31-39 | every handler keeps each cyclic field inside its table |
| `SystemSettings.StatusLookupsDefined` | components/Apps/SystemSettings.tsx:43-46 | in range, all four status lookups find a label |
| `SystemSettings.HandlerChangesItsField` | components/Apps/SystemSettings.tsx:31-39 | on an in-range configuration each handler changes its own field |
| `SystemSettings.SwitchesAreInvolutions` | components/Apps/SystemSettings.tsx:31-35 | wifi, bluetooth, audio and security negate one flag, so pressing twice restores the configuration |
| `SystemSettings.AccountSwitch` | components/Apps/SystemSettings.tsx:39 | Administrator becomes Guest User and any other name Administrator; pressing twice restores exactly those two names |
| `SystemSettings.CyclesReturn` | components/Apps/SystemSettings.tsx:33-38 | display and performance return after three presses, language after four, theme after two |
| `SystemSettings.CycleFromNonNegative` | components/Apps/SystemSettings.tsx:33-38 | from any non-negative value a press lands inside the table |
| `SystemSettings.CycleFromNegative` | components/Apps/SystemSettings.tsx:33-38 | JavaScript's remainder keeps the sign, so from below -1 a press stays at or below zero |
| `SystemSettings.SettingsPanel.constructor` | components/Apps/SystemSettings.tsx:8 | the panel starts from the kernel's configuration |
| `SystemSettings.SettingsPanel.Press` | components/Apps/SystemSettings.tsx:11-39 | a tile applies its handler, and the kernel's configuration becomes the new one |
| `TerminalApp.LowerChar` | components/Apps/TerminalApp.tsx:16 | lowercasing keeps white space as white space, and in the modelled mapping yields an ASCII letter exactly from an ASCII letter or the Kelvin sign |
| `TerminalApp.ToLower` | components/Apps/TerminalApp.tsx:16 | lowercasing keeps the length |
| `TerminalApp.ToLowerAt` | components/Apps/TerminalApp.tsx:16 | each character of the lowercased text is the lowercase of the character at the same place |
| `TerminalApp.ToLowerConcat` | components/Apps/TerminalApp.tsx:16 | lowercasing a concatenation is concatenating the lowercased parts |
| `TerminalApp.ToLowerKeepsSpace` | components/Apps/TerminalApp.tsx:16 | lowercasing white-space-only text gives white-space-only text |
| `TerminalApp.TrimStart` | components/Apps/TerminalApp.tsx:16 | the result is a suffix of the text that is empty or starts with a non-space |
| `TerminalApp.TrimStartSpec` | components/Apps/TerminalApp.tsx:16 | all characters the leading trim drops are white space |
| `TerminalApp.TrimStartSkips` | components/Apps/TerminalApp.tsx:16 | white space before text that starts with a non-space is exactly what the leading trim removes |
| `TerminalApp.TrimEnd` | components/Apps/TerminalApp.tsx:16 | the result is a prefix of the text that is empty or ends with a non-space |
| `TerminalApp.TrimEndSpec` | components/Apps/TerminalApp.tsx:16 | all characters the trailing trim drops are white space |
| `TerminalApp.TrimEndSkips` | components/Apps/TerminalApp.tsx:16 | white space after text that ends with a non-space is exactly what the trailing trim removes |
| `TerminalApp.TrimPadded` | components/Apps/TerminalApp.tsx:16 | any white space around a word trims back to the word |
| `TerminalApp.Normalize` | components/Apps/TerminalApp.tsx:16 | the switch's key is no longer than the command and neither starts nor ends with white space |
| `TerminalApp.NormalizePadded` | components/Apps/TerminalApp.tsx:16 | a word padded with white space normalises to its lower case |
| `TerminalApp.LetterNotSpace` | components/Apps/TerminalApp.tsx:16 | a character that lowercases to an ASCII letter is not white space |
| `TerminalApp.ReplyFor` | components/Apps/TerminalApp.tsx:16-41 | every key writes at most one line after the echo, and none exactly for the empty key |
| `TerminalApp.Transcript` | components/Apps/TerminalApp.tsx:14-42 | a command other than clear adds one or two lines, the first being the prompt followed by the raw command |
| `TerminalApp.Respond` | components/Apps/TerminalApp.tsx:13-41 | `clear` produces nothing and asks for the history to be emptied; every other command yields the echo of the raw command followed by its reply |
| `TerminalApp.FixedReplies` | components/Apps/TerminalApp.tsx:17-31 | help, whoami and ai, in any case and with any surrounding white space, each reply with their one fixed line |
| `TerminalApp.BlankInputOnlyEchoes` | components/Apps/TerminalApp.tsx:37-38 | empty or white-space-only input adds nothing after the echo |
| `TerminalApp.UnknownCommand` | components/Apps/TerminalApp.tsx:39-40 | an unknown command replies with the not-found text and the raw, untrimmed command |
| `TerminalApp.Terminal.constructor` | components/Apps/TerminalApp.tsx:5-6 | the history starts as the two welcome lines and the input is empty |
| `TerminalApp.Terminal.HandleCommand` | components/Apps/TerminalApp.tsx:13-43 | `clear` empties the history; any other command appends its echo and reply after the unchanged earlier lines |
| `TerminalApp.Terminal.Edit` | components/Apps/TerminalApp.tsx:56 | the input holds the typed text |
| `TerminalApp.Terminal.KeyDown` | components/Apps/TerminalApp.tsx:57-62 | Enter runs the typed line and empties the input; other keys change nothing |
| `LoginScreen.LoginForm.constructor` | components/System/LoginScreen.tsx:10-12 | empty password, no error, not loading |
| `LoginScreen.LoginForm.Type` | components/System/LoginScreen.tsx:67 | the field holds the typed text |
| `LoginScreen.LoginForm.SubmitEnabled` | components/System/LoginScreen.tsx:75 | an enabled button never submits an empty password, and the button is disabled while loading |
| `LoginScreen.LoginForm.Submit` | components/System/LoginScreen.tsx:14-21 | an empty password changes nothing; otherwise loading is set, the error cleared and a check of this password scheduled |
| `LoginScreen.LoginForm.Resolve` | components/System/LoginScreen.tsx:22-30 | the oldest scheduled check calls the login callback exactly when the password is accepted; a refusal shows the error, ends loading and empties the field |
| `LoginScreen.SubmitThenResolve` | components/System/LoginScreen.tsx:14-31 | from an enabled form, login happens exactly for an accepted password, and a refusal leaves the error showing and submit disabled |
| `FileManager.SliceTo` | components/Apps/FileManager.tsx:32-39 | `slice(0, end)` is the prefix whose length is the end, counted from the back when negative, clamped to the list |
| `FileManager.SliceDropsAppended` | components/Apps/FileManager.tsx:25-33 | dropping the last element undoes appending one, so going up after descending restores the path |
| `FileManager.NatToString` | components/Apps/FileManager.tsx:43 | a non-empty string of decimal digits with no leading zero |
| `FileManager.ParseNatToString` | components/Apps/FileManager.tsx:43 | reading the decimal text back gives the number |
| `FileManager.NewFolderName` | components/Apps/FileManager.tsx:43 | the name is "New Folder " followed by decimal digits that read back as the listing size plus one |
| `FileManager.NewFolderNamesDiffer` | components/Apps/FileManager.tsx:43 | different listing sizes give different folder names |
| `FileManager.DescendShowsChildren` | components/Apps/FileManager.tsx:19-28 | double-clicking a folder of the listing that is first with its id lists that folder's children |
| `FileManager.FileBrowser.constructor` | components/Apps/FileManager.tsx:8-21 | opens at the root with an empty breadcrumb, no selection and the root listed |
| `FileManager.FileBrowser.Refresh` | components/Apps/FileManager.tsx:14-17 | the listing is the directory at the current path |
| `FileManager.FileBrowser.DoubleClick` | components/Apps/FileManager.tsx:23-28 | a folder appends its id and name to the two lists and is listed; a file changes nothing; the lists keep equal length |
| `FileManager.FileBrowser.NavigateUp` | components/Apps/FileManager.tsx:30-35 | drops the last id and name when the path is non-empty, and does nothing at the root |
| `FileManager.FileBrowser.BreadcrumbClick` | components/Apps/FileManager.tsx:37-40 | keeps the first index+1 ids and names |
| `FileManager.FileBrowser.GoHome` | components/Apps/FileManager.tsx:108 | both lists become empty and the root is listed |
| `FileManager.FileBrowser.Select` | components/Apps/FileManager.tsx:126 | the clicked item becomes the selection |
| `FileManager.FileBrowser.ClearSelection` | components/Apps/FileManager.tsx:121 | a click on the grid clears the selection |
| `FileManager.FileBrowser.CreateFolder` | components/Apps/FileManager.tsx:42-45 | creates "New Folder n+1", where n is the listing's size, at the current path, then lists the path with the folder at its end |
| `FileManager.FileBrowser.DeleteItem` | components/Apps/FileManager.tsx:47-53 | with a non-empty selection, deletes that item from the current directory, clears the selection and lists again; without one nothing changes |

## Left out

- Markup, styling, icons and animation, including the Dock's magnification and the frame's transitions, are left out. They are presentation only. Dragging a window is done by the animation library and never writes the stored position back.
- Browser storage is left out: loading the tree and settings, and saving after each change. The constructors take the stored value as an optional parameter instead.
- UUID generation, the current date and the terminal's `date` text come from the environment. They are parameters. The model does not prove that generated ids are unique; `OpenApp` requires that its fresh id names no live window.
- Timers are not modelled as timers:
  - the boot delay is the transition `FinishBoot`;
  - the login delay is split into `Submit` and `Resolve`;
  - the page reload that `reboot` schedules is not modelled (its line is);
  - the Dock clock and the settings panel's random metrics are not modelled.
- The floating-point memory figure and the random CPU and RAM metrics of the settings panel are left out.
- The AI assistant's network client, the browser, the store and the media player are not part of this model.
- The unused parent-array search in the kernel (`services/Kernel.ts:59-73`) is dead code and is left out.
- The viewport is an abstract width and height. The model does not use the CSS strings the frame writes for a maximised window.
- Stale hook closures (a handler created with an old counter) are not modelled. Each operation acts on the latest state.
- The file tree is modelled on values. `getDirectory` returns the live array, and the code pushes into it and splices it in place. The model instead rebuilds the tree along the path, which gives the same resulting tree. The file manager's listing is a copy of the directory array (`components/Apps/FileManager.tsx:16`), so it shares only item objects with the tree, and nothing mutates those; the model holds the listing as a value. The listing is re-read after every change, as the component does.
- Kernel.SettingsManager.Update: a patch names each field as present or absent. A JavaScript patch that holds a field explicitly set to `undefined` is not modelled.
- WindowManager.Dedup: its contract states which values the Dock's list holds and that each appears once. It does not state their order of first occurrence. The Dock only asks whether the list includes an id.
- TerminalApp.LowerChar: only the lowercase mappings that give exactly one ASCII letter are modelled: `A`–`Z`, and the Kelvin sign to `k`. Other characters are kept as they are. JavaScript also lowercases LATIN CAPITAL LETTER I WITH DOT ABOVE (U+0130) to `i` followed by COMBINING DOT ABOVE (U+0307), which contains an ASCII letter and makes the text longer; that mapping is not modelled. The combining mark is not white space and is in no command word, so the switch matches the same commands either way; the not-found reply echoes the raw command and never uses the lowercased text.
- TerminalApp.ToLower: keeps the length only because the U+0130 mapping above is not modelled; in JavaScript that character lengthens the text.
- SystemSettings.SettingsPanel.Press: the settings are saved through the component's effect after the configuration changes. This is modelled as a direct update with the whole configuration at each press.
