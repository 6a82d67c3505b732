# MerMark Editor window-session coordinator, in Dafny

The desktop shell of MerMark Editor (a Tauri application, `src-tauri/src/lib.rs`) keeps a small
amount of process state and routes operating-system events into its windows:

- an **open-file slot** filled at launch from the command line and emptied by the first window
  that asks for it (`get_open_file_path`);
- a **window counter** that numbers new windows `"window-N"` (`create_new_window`);
- **tab transfer** between windows by label (`transfer_tab_to_window`);
- **relaunch routing**: a second launch is forwarded to the configured window `"main"`;
- a **close policy**: closing the last window ends the process, closing any other window destroys
  only that window.

The model keeps this as an immutable `Coordinator.State` (slot, counter, live labels) with one
pure transition per command or host callback. Each transition returns the new state, its result
and the list of host calls it issued (`Build`, `Emit`, `Focus`, `Destroy`, `PreventClose`), in
order. Whatever the host answers to `build`, `emit` and `set_focus` is a `HostCall` parameter
(`Done` or `Failed(message)`). The percent-encoder of the `urlencoding` crate is a parameter
`encode: string -> string`. The program arguments are a parameter `args`.

Modules:

- `Wrappers`: `Option` and `Result`.
- `Decimal`: decimal numerals of natural numbers and their parser, with the round trip.
- `Labels`: `"window-N"` labels, their inverse `LabelIndex`, and the 32-bit counter of the source
  (see Findings).
- `Markdown`: the case-sensitive `.md` / `.markdown` suffix filter.
- `Coordinator`: the state, the effects and the transitions.
- `Session`: runs of arbitrary request sequences from any state, and the properties that relate
  several calls.

Host behaviour the model assumes: a successful `build` adds the new label to the live set, and a
`destroy` removes it. The host's own default close of the last window ends the process. A run
(`Session.Run`) therefore stops at the first close request answered with `ExitProcess`.

Two behaviours of the relaunch callback (lines 101-118) are worth stating, because they are
easy to assume otherwise:

- It never writes the open-file slot; it only emits `open-file` to `"main"`.
  `Session.RelaunchDoesNotStore` states this.
- It focuses `"main"` on its own only when there is no argument after the program name. With a
  second argument that is not a markdown path, it makes no host call at all, not even a focus.

An `Emit(l, e)` effect records the window handle the emit call was made on. Which windows'
content actually receives the event is the host runtime's business and is not modelled; the
tab-transfer payload carries `target_window` so that receivers can tell.

## Model

| member | source | states |
|---|---|---|
| `Coordinator.TakeOpenFilePath` | src-tauri/src/lib.rs:20-24 | the caller receives exactly what the slot held and the slot is left empty; counter and windows are untouched and no host call is made |
| `Session.TakeTwiceYieldsNothing` | src-tauri/src/lib.rs:21-24 | a second take with nothing stored in between returns `None` |
| `Session.RunTakesAtMostOnce` | src-tauri/src/lib.rs:21-24 | across any sequence of commands and callbacks, at most one take returns a path, that path is the one stored before the run, and afterwards the slot is empty |
| `Coordinator.LaunchIntake` | src-tauri/src/lib.rs:129-137 | `args[1]` is stored exactly when there are at least two arguments and `args[1]` is a markdown path; otherwise the state is unchanged (an earlier slot value is not cleared) |
| `Session.IntakeThenTake` | src-tauri/src/lib.rs:129-137 | after launch intake from the initial state, the first take returns `Some(args[1])` for a qualifying argument and `None` otherwise |
| `Session.IntakeIgnoresLaterArgs` | src-tauri/src/lib.rs:130-131 | arguments after `args[1]` have no influence on launch intake |
| `Markdown.MarkdownPathIffStemAndExtension` | src-tauri/src/lib.rs:132 | a path passes the filter if and only if there is some (possibly empty) stem such that the path is that stem followed by `.md`, or by `.markdown` |
| `Markdown.UpperCaseExtensionRejected` | src-tauri/src/lib.rs:106 | the filter is case-sensitive: `.MD` and `.MARKDOWN` are rejected for every stem |
| `Decimal.FromNat` | src-tauri/src/lib.rs:65 | the number in a label is written with decimal digits only, and with a leading `0` only for zero |
| `Decimal.ToNatFromNat` | src-tauri/src/lib.rs:65 | reading the numeral back yields the number it was written from |
| `Decimal.FromNatInjective` | src-tauri/src/lib.rs:65 | two numbers have the same numeral if and only if they are equal |
| `Labels.Label` | src-tauri/src/lib.rs:65 | a label is `"window-"` followed by a non-empty run of digits |
| `Labels.LabelIndexOfLabel` | src-tauri/src/lib.rs:65 | the number a label was made from can be recovered from the label |
| `Labels.LabelInjective` | src-tauri/src/lib.rs:64-65 | two labels are equal if and only if their numbers are equal |
| `Labels.MainIsNoLabel` | src-tauri/src/lib.rs:107 | the configured window `"main"` never collides with a counter label |
| `Labels.FetchAddU32` | src-tauri/src/lib.rs:64 | the 32-bit `fetch_add(1)` yields the stored value and stores its successor, or 0 after the largest 32-bit value |
| `Labels.CounterU32After` | src-tauri/src/lib.rs:10 | the 32-bit counter, started at 1, always holds a 32-bit value |
| `Labels.CounterU32AfterClosedForm` | src-tauri/src/lib.rs:10 | after `n` allocations the 32-bit counter holds `(n + 1) mod 2^32` |
| `Labels.WrappedCounterRepeatsLabel` | src-tauri/src/lib.rs:64-65 | under the 32-bit counter, allocation `n` and allocation `n + 2^32` receive the same label |
| `Coordinator.InitialLabelsBelowCounter` | src-tauri/src/lib.rs:10 | at launch (counter 1, only `"main"` open) no open window has a label numbered at or above the counter |
| `Coordinator.CreateWindow` | src-tauri/src/lib.rs:62-90 | the counter advances by exactly one whatever the host answers; the result is `Ok` only if build and focus succeed, and then it is exactly `"window-"` followed by the old counter; a failed build returns its error, opens nothing and is the only host call; otherwise exactly two host calls follow in order, the build of that label with the initial URL and then its focus; a failed focus returns its error but the window stays open; the new label was not open before and the labels-below-counter invariant is kept |
| `Session.InitialUrlCarriesFile` | src-tauri/src/lib.rs:67-73 | the file parameter read back from a new window's URL is the encoded path, or absent when no path was given; the URL is the bare `index.html` exactly when no path is given |
| `Coordinator.TransferTab` | src-tauri/src/lib.rs:39-60 | the state never changes; an absent target fails with `Window <target> not found` and makes no host call; a live target first receives one event named `tab-transfer` whose payload holds the file path and source unchanged and the target itself; a failed emit returns its error before any focus; after a successful emit exactly one focus of the target follows; the result is `Ok` exactly when the target is live and both host calls succeed; only the target's handle is ever used |
| `Session.TransferToCreatedWindow` | src-tauri/src/lib.rs:52-53 | a window just created successfully is found by a tab transfer addressed to its returned label |
| `Session.TransferAfterCloseFails` | src-tauri/src/lib.rs:52-57 | after a non-last window is closed, a transfer to it fails with the not-found error |
| `Coordinator.Relaunch` | src-tauri/src/lib.rs:101-118 | the state never changes and no window is built; only the handle of `"main"` is ever used, by emit or focus, and any emit is an event named `open-file` carrying exactly `args[1]`; with a qualifying `args[1]` and `"main"` open it emits that event and then focuses `"main"`; a non-qualifying `args[1]` produces no host call at all; without extra arguments it focuses `"main"` only when it is open |
| `Session.RelaunchDoesNotStore` | src-tauri/src/lib.rs:101-118 | a relaunch leaves the open-file slot as it was |
| `Coordinator.CloseRequested` | src-tauri/src/lib.rs:150-167 | the process ends if and only if at most one window is open, and then no host call is made; otherwise only the requesting window is removed (and destroyed if it was open), `prevent_close` is called last, every other window stays open and at least one window remains |
| `Session.CloseOneOfTwo` | src-tauri/src/lib.rs:150-167 | closing one of two open windows keeps the process running with only the other window open |
| `Coordinator.AllWindows` | src-tauri/src/lib.rs:26-32 | the reported labels are exactly the open windows, each listed once |
| `Session.RunNumbersConsecutively` | src-tauri/src/lib.rs:64-65 | over any run, the k-th window creation, whether it succeeds or not, builds the label `"window-(c + k)"` for the starting counter `c`, and the counter ends advanced by the number of creations |
| `Session.RunAllocatesDistinctLabels` | src-tauri/src/lib.rs:64-65 | over any run, the labels that window creations build are pairwise distinct and their numbers rise by one from the starting counter |
| `Session.RunReturnsRisingLabels` | src-tauri/src/lib.rs:64-89 | over any run, the labels `create_new_window` returns are counter labels numbered between the counter at the start and at the end of the run, in strictly increasing order |
| `Session.RunReturnsDistinctLabels` | src-tauri/src/lib.rs:64-89 | over any run, no label returned by `create_new_window` is returned twice |
| `Session.RunKeepsLabelsBelowCounter` | src-tauri/src/lib.rs:64-85 | every request keeps each open counter label numbered below the counter |
| `Session.CreateNumbersFreshLabel` | src-tauri/src/lib.rs:64-65 | from launch on, after any run, the next label the counter numbers is not an open window |

## Left out

- Plugin registration, the command list and `manage` (lines 94-100, 119-126) are configuration with no logic.
- The debug-build devtools (lines 139-143) and the fatal `expect` on startup (line 147) are host behaviour.
- Window title, size, resizability and centring (lines 80-83) are fixed host parameters; `Build` records only the label and URL.
- Percent-encoding (line 69) is the `urlencoding` crate's; it is the uninterpreted parameter `encode`.
- `get_current_window_label` (lines 34-37) returns the host's name for the calling window; there is no logic in it.
- Event delivery, window readiness, focus behaviour and the host's handling of a duplicate label are the host runtime's. Host calls are recorded as effects, and their success or failure is a parameter.
- The `Mutex` and `AtomicU32` (lines 1-2, 10, 22, 64) are modelled as plain sequential state. Freedom from races is the standard library's guarantee and is not modelled.
- `std::env::args()` (line 129) is process input; the argument list is a parameter.
- Coordinator.CreateWindow: numbers windows with an unbounded counter, not the source's 32-bit one (see Findings).

## Findings

| source | as written | input that shows it | evidently intended | confidence | as-written member | corrected member |
|---|---|---|---|---|---|---|
| src-tauri/src/lib.rs:10 | the window counter is an `AtomicU32`, and `fetch_add(1)` wraps modulo 2^32 | 2^32 + 1 calls to `create_new_window` in one process: the first and the last both number `"window-1"` | window labels are never reused during the process lifetime | not executed; reaching it takes 2^32 window creations | `Labels.WrappedCounterRepeatsLabel` | `Session.RunReturnsDistinctLabels` |
