/** The window-session coordinator of the desktop shell: a sequential state of the open-file
    slot, the window counter and the live window labels, with one pure transition per command
    or host callback. Each transition returns the new state, its result and the host calls it
    issued, in order. */
module Coordinator {
  import opened Wrappers
  import Labels
  import Markdown

  /** `slot` is the process-wide open-file path, `counter` the next window number, `live` the
      labels the host reports for its open windows. */
  datatype State = State(slot: Option<string>, counter: nat, live: set<string>)

  /** The window the host builds from its configuration before any command runs. */
  const MainLabel: string := "main"

  /** Process start: an empty slot, the counter at 1, only the configured window open. */
  const Initial: State := State(None, 1, {MainLabel})

  const EntryDocument: string := "index.html"
  const FileQuery: string := "?file="

  datatype TabTransferPayload = TabTransferPayload(filePath: string, sourceWindow: string, targetWindow: string)

  /** The two events the shell sends to a window's content. */
  datatype Event = OpenFile(path: string) | TabTransfer(payload: TabTransferPayload)

  function EventName(e: Event): (name: string) {
    match e
    case OpenFile(_) => "open-file"
    case TabTransfer(_) => "tab-transfer"
  }

  /** A call the coordinator makes on the host. */
  datatype Effect =
    | Build(window: string, url: string)
    | Emit(window: string, event: Event)
    | Focus(window: string)
    | Destroy(window: string)
    | PreventClose

  /** The window a host call is addressed to; `PreventClose` answers the close request itself. */
  function Addressee(e: Effect): Option<string> {
    match e
    case Build(l, _) => Some(l)
    case Emit(l, _) => Some(l)
    case Focus(l) => Some(l)
    case Destroy(l) => Some(l)
    case PreventClose => None
  }

  /** What the host answered to a fallible call: success, or its error rendered as a string. */
  datatype HostCall = Done | Failed(error: string)

  datatype Step<T> = Step(state: State, result: T, effects: seq<Effect>)

  /** Every counter-shaped live name was numbered before the counter's current value, so the
      counter's next name is not live. */
  predicate LabelsBelowCounter(s: State) {
    forall l :: l in s.live && Labels.LabelIndex(l).Some? ==> Labels.LabelIndex(l).value < s.counter
  }

  lemma InitialLabelsBelowCounter()
    ensures LabelsBelowCounter(Initial)
  {
    Labels.MainIsNoLabel(0);
  }

  // ---- Open-file slot ----

  /** `get_open_file_path`: hands out the stored path and empties the slot. */
  function TakeOpenFilePath(s: State): (r: Step<Option<string>>)
    ensures r.result == s.slot
    ensures r.state == s.(slot := None)
    ensures r.effects == []
  {
    Step(s.(slot := None), s.slot, [])
  }

  /** Launch intake in `setup`: stores `args[1]` when it names a markdown file; everything else
      (a missing argument, another extension, further arguments) leaves the state as it was. */
  function LaunchIntake(s: State, args: seq<string>): (r: State)
    ensures |args| > 1 && Markdown.IsMarkdownPath(args[1]) ==> r == s.(slot := Some(args[1]))
    ensures !(|args| > 1 && Markdown.IsMarkdownPath(args[1])) ==> r == s
  {
    if |args| > 1 && Markdown.IsMarkdownPath(args[1]) then s.(slot := Some(args[1])) else s
  }

  // ---- Window creation ----

  /** The navigation target of a new window; `encode` is the host's percent-encoder. */
  function InitialUrl(filePath: Option<string>, encode: string -> string): (url: string) {
    match filePath
    case None => EntryDocument
    case Some(p) => EntryDocument + FileQuery + encode(p)
  }

  /** The encoded file parameter of a navigation target, if it carries one. */
  function FileParameter(url: string): (encoded: Option<string>) {
    var head := EntryDocument + FileQuery;
    if |head| <= |url| && url[..|head|] == head then Some(url[|head|..]) else None
  }

  /** `create_new_window`: numbers the window before any host call, builds it, then focuses it.
      A failed build leaves the registry as it was; a failed focus leaves the built window open. */
  function CreateWindow(s: State, filePath: Option<string>, encode: string -> string,
                        build: HostCall, focus: HostCall): (r: Step<Result<string, string>>)
    ensures r.state.counter == s.counter + 1 && r.state.slot == s.slot
    ensures r.result.Ok? <==> build.Done? && focus.Done?
    ensures r.result.Ok? ==> r.result.value == Labels.Label(s.counter)
    ensures r.result.Ok? ==> Labels.LabelIndex(r.result.value) == Some(s.counter)
    ensures build.Failed? ==> r.result == Err(build.error) && r.state.live == s.live
    ensures build.Done? && focus.Failed? ==> r.result == Err(focus.error)
    ensures build.Done? ==> r.state.live == s.live + {Labels.Label(s.counter)}
    ensures r.effects ==
      if build.Done? then [Build(Labels.Label(s.counter), InitialUrl(filePath, encode)), Focus(Labels.Label(s.counter))]
      else [Build(Labels.Label(s.counter), InitialUrl(filePath, encode))]
    ensures forall i :: 0 <= i < |r.effects| ==> Addressee(r.effects[i]) == Some(Labels.Label(s.counter))
    ensures LabelsBelowCounter(s) ==> Labels.Label(s.counter) !in s.live && LabelsBelowCounter(r.state)
  {
    var name := Labels.Label(s.counter);
    Labels.LabelIndexOfLabel(s.counter);
    var built := Build(name, InitialUrl(filePath, encode));
    var numbered := s.(counter := s.counter + 1);
    match build
    case Failed(e) => Step(numbered, Err(e), [built])
    case Done =>
      var registered := numbered.(live := s.live + {name});
      match focus
      case Failed(e) => Step(registered, Err(e), [built, Focus(name)])
      case Done => Step(registered, Ok(name), [built, Focus(name)])
  }

  // ---- Tab transfer ----

  function NotFound(target: string): (message: string) {
    "Window " + target + " not found"
  }

  /** `transfer_tab_to_window`: emits the payload to the target, then focuses it, stopping at the
      first failure; an unknown target fails before any host call. */
  function TransferTab(s: State, filePath: string, source: string, target: string,
                       emit: HostCall, focus: HostCall): (r: Step<Result<(), string>>)
    ensures r.state == s
    ensures target !in s.live ==> r.result == Err(NotFound(target)) && r.effects == []
    ensures target in s.live ==>
      1 <= |r.effects| && r.effects[0] == Emit(target, TabTransfer(TabTransferPayload(filePath, source, target)))
    ensures target in s.live ==> EventName(r.effects[0].event) == "tab-transfer"
    ensures target in s.live && emit.Failed? ==> r.result == Err(emit.error) && |r.effects| == 1
    ensures target in s.live && emit.Done? ==> r.effects[1..] == [Focus(target)]
    ensures target in s.live && emit.Done? && focus.Failed? ==> r.result == Err(focus.error)
    ensures r.result.Ok? <==> target in s.live && emit.Done? && focus.Done?
    ensures forall i :: 0 <= i < |r.effects| ==> Addressee(r.effects[i]) == Some(target)
  {
    var payload := TabTransferPayload(filePath, source, target);
    if target !in s.live then
      Step(s, Err(NotFound(target)), [])
    else
      var emitted := Emit(target, TabTransfer(payload));
      match emit
      case Failed(e) => Step(s, Err(e), [emitted])
      case Done =>
        match focus
        case Failed(e) => Step(s, Err(e), [emitted, Focus(target)])
        case Done => Step(s, Ok(()), [emitted, Focus(target)])
  }

  // ---- Relaunch routing ----

  /** The single-instance callback: a second launch is routed to the configured window only.
      Host failures are ignored, so they are not parameters. */
  function Relaunch(s: State, args: seq<string>): (r: Step<()>)
    ensures r.state == s
    ensures forall i :: 0 <= i < |r.effects| ==>
      (r.effects[i].Emit? || r.effects[i].Focus?) && Addressee(r.effects[i]) == Some(MainLabel)
    ensures forall i :: 0 <= i < |r.effects| && r.effects[i].Emit? ==>
      EventName(r.effects[i].event) == "open-file" && 1 < |args| && r.effects[i] == Emit(MainLabel, OpenFile(args[1]))
    ensures MainLabel !in s.live ==> r.effects == []
    ensures |args| > 1 && Markdown.IsMarkdownPath(args[1]) && MainLabel in s.live ==>
      r.effects == [Emit(MainLabel, OpenFile(args[1])), Focus(MainLabel)]
    ensures |args| > 1 && !Markdown.IsMarkdownPath(args[1]) ==> r.effects == []
    ensures |args| <= 1 && MainLabel in s.live ==> r.effects == [Focus(MainLabel)]
  {
    var effects :=
      if MainLabel !in s.live then []
      else if |args| <= 1 then [Focus(MainLabel)]
      else if Markdown.IsMarkdownPath(args[1]) then [Emit(MainLabel, OpenFile(args[1])), Focus(MainLabel)]
      else [];
    Step(s, (), effects)
  }

  // ---- Close policy ----

  /** What the host does after the close handler returns. */
  datatype CloseDecision = ExitProcess | KeepRunning

  /** The `CloseRequested` handler: the last window takes the default path and the process ends;
      otherwise only the requesting window is destroyed and the default close is suppressed. */
  function CloseRequested(s: State, name: string): (r: Step<CloseDecision>)
    ensures r.state.slot == s.slot && r.state.counter == s.counter
    ensures r.result == ExitProcess <==> |s.live| <= 1
    ensures r.result == ExitProcess ==> r.state == s && r.effects == []
    ensures r.result == KeepRunning ==> r.state.live == s.live - {name} && 1 <= |r.state.live|
    ensures r.result == KeepRunning && name in s.live ==> r.effects == [Destroy(name), PreventClose]
    ensures r.result == KeepRunning && name !in s.live ==> r.effects == [PreventClose]
    ensures forall l :: l in s.live && l != name ==> l in r.state.live
  {
    if |s.live| <= 1 then
      Step(s, ExitProcess, [])
    else if name in s.live then
      Step(s.(live := s.live - {name}), KeepRunning, [Destroy(name), PreventClose])
    else
      Step(s, KeepRunning, [PreventClose])
  }

  // ---- Registry query ----

  /** `get_all_windows`: the live labels, each exactly once, in no particular order. */
  method AllWindows(s: State) returns (labels: seq<string>)
    ensures |labels| == |s.live|
    ensures forall l :: l in s.live <==> l in labels
    ensures forall i, j :: 0 <= i < j < |labels| ==> labels[i] != labels[j]
  {
    labels := [];
    var rest := s.live;
    while rest != {}
      invariant rest <= s.live
      invariant forall i :: 0 <= i < |labels| ==> labels[i] in s.live && labels[i] !in rest
      invariant forall l :: l in s.live ==> l in rest || l in labels
      invariant forall i, j :: 0 <= i < j < |labels| ==> labels[i] != labels[j]
      invariant |labels| + |rest| == |s.live|
      decreases rest
    {
      var l :| l in rest;
      labels := labels + [l];
      rest := rest - {l};
    }
  }
}
