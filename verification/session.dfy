/** Runs of the coordinator: any sequence of commands and host callbacks after launch, and the
    properties that hold across calls. */
module Session {
  import opened Wrappers
  import Labels
  import Markdown
  import C = Coordinator

  /** One command from a window's content, or one host callback, with the host's answers. */
  datatype Request =
    | Take
    | Create(filePath: Option<string>, build: C.HostCall, focus: C.HostCall)
    | Transfer(path: string, source: string, target: string, emit: C.HostCall, transferFocus: C.HostCall)
    | Relaunch(args: seq<string>)
    | Close(window: string)

  /** The state after a request; the label a window creation numbered (its `Build` call) and the
      label it returned (on success only); the path a non-empty take handed out; and whether the
      process ended. */
  datatype Outcome = Outcome(state: C.State, numbered: seq<string>, returned: seq<string>,
                             taken: seq<string>, exited: bool)

  function Apply(s: C.State, encode: string -> string, req: Request): (o: Outcome) {
    match req
    case Take =>
      var r := C.TakeOpenFilePath(s);
      Outcome(r.state, [], [], if r.result.Some? then [r.result.value] else [], false)
    case Create(fp, b, f) =>
      var r := C.CreateWindow(s, fp, encode, b, f);
      Outcome(r.state, [r.effects[0].window], if r.result.Ok? then [r.result.value] else [], [], false)
    case Transfer(fp, src, tgt, e, f) =>
      Outcome(C.TransferTab(s, fp, src, tgt, e, f).state, [], [], [], false)
    case Relaunch(args) =>
      Outcome(C.Relaunch(s, args).state, [], [], [], false)
    case Close(w) =>
      var r := C.CloseRequested(s, w);
      Outcome(r.state, [], [], [], r.result == C.ExitProcess)
  }

  /** Processes requests in order until one ends the process; later requests are never seen. */
  function Run(s: C.State, encode: string -> string, reqs: seq<Request>): (o: Outcome)
    decreases |reqs|
  {
    if |reqs| == 0 then Outcome(s, [], [], [], false)
    else
      var first := Apply(s, encode, reqs[0]);
      if first.exited then first
      else
        var rest := Run(first.state, encode, reqs[1..]);
        Outcome(rest.state, first.numbered + rest.numbered, first.returned + rest.returned,
                first.taken + rest.taken, rest.exited)
  }

  /** The labels are counter labels numbered in `[lo, hi)`, in strictly increasing order. */
  predicate RisingLabels(labels: seq<string>, lo: nat, hi: nat) {
    && (forall k :: 0 <= k < |labels| ==>
          Labels.LabelIndex(labels[k]).Some? && lo <= Labels.LabelIndex(labels[k]).value < hi)
    && (forall i, j :: 0 <= i < j < |labels| ==>
          Labels.LabelIndex(labels[i]).value < Labels.LabelIndex(labels[j]).value)
  }

  lemma RisingLabelsAppend(a: seq<string>, b: seq<string>, lo: nat, mid: nat, hi: nat)
    requires lo <= mid <= hi
    requires RisingLabels(a, lo, mid) && RisingLabels(b, mid, hi)
    ensures RisingLabels(a + b, lo, hi)
  {
    var ab := a + b;
    forall k | 0 <= k < |ab|
      ensures Labels.LabelIndex(ab[k]).Some? && lo <= Labels.LabelIndex(ab[k]).value < hi
    {
      if k < |a| {
        assert ab[k] == a[k];
      } else {
        assert ab[k] == b[k - |a|];
      }
    }
    forall i, j | 0 <= i < j < |ab|
      ensures Labels.LabelIndex(ab[i]).value < Labels.LabelIndex(ab[j]).value
    {
      if j < |a| {
        assert ab[i] == a[i] && ab[j] == a[j];
      } else if i < |a| {
        assert ab[i] == a[i] && ab[j] == b[j - |a|];
      } else {
        assert ab[i] == b[i - |a|] && ab[j] == b[j - |a|];
      }
    }
  }

  /** The labels `create_new_window` returns over a run are counter labels numbered between the
      counter at the start and at the end of the run, in strictly increasing order. */
  lemma {:induction false} RunReturnsRisingLabels(s: C.State, encode: string -> string, reqs: seq<Request>)
    ensures s.counter <= Run(s, encode, reqs).state.counter
    ensures RisingLabels(Run(s, encode, reqs).returned, s.counter, Run(s, encode, reqs).state.counter)
    decreases |reqs|
  {
    if |reqs| > 0 {
      var first := Apply(s, encode, reqs[0]);
      if reqs[0].Create? {
        Labels.LabelIndexOfLabel(s.counter);
      }
      assert RisingLabels(first.returned, s.counter, first.state.counter);
      if !first.exited {
        var rest := Run(first.state, encode, reqs[1..]);
        RunReturnsRisingLabels(first.state, encode, reqs[1..]);
        RisingLabelsAppend(first.returned, rest.returned, s.counter, first.state.counter, rest.state.counter);
      }
    }
  }

  /** No label returned by `create_new_window` during a run is ever returned again. */
  lemma RunReturnsDistinctLabels(s: C.State, encode: string -> string, reqs: seq<Request>)
    ensures var returned := Run(s, encode, reqs).returned;
      forall i, j :: 0 <= i < j < |returned| ==> returned[i] != returned[j]
  {
    RunReturnsRisingLabels(s, encode, reqs);
  }

  /** Window numbers are handed out consecutively from the counter: request-by-request, the k-th
      window creation of a run receives label `"window-(counter + k)"`, whether or not the host
      then built or focused it. */
  lemma {:induction false} RunNumbersConsecutively(s: C.State, encode: string -> string, reqs: seq<Request>)
    ensures Run(s, encode, reqs).state.counter == s.counter + |Run(s, encode, reqs).numbered|
    ensures forall k :: 0 <= k < |Run(s, encode, reqs).numbered| ==>
      Run(s, encode, reqs).numbered[k] == Labels.Label(s.counter + k)
    decreases |reqs|
  {
    if |reqs| > 0 {
      var first := Apply(s, encode, reqs[0]);
      if !first.exited {
        RunNumbersConsecutively(first.state, encode, reqs[1..]);
      }
    }
  }

  /** No two window creations of a run, successful or not, ever receive the same label, and the
      numbers behind the labels rise by one from the counter's value at the start. */
  lemma RunAllocatesDistinctLabels(s: C.State, encode: string -> string, reqs: seq<Request>)
    ensures var numbered := Run(s, encode, reqs).numbered;
      forall i, j :: 0 <= i < j < |numbered| ==> numbered[i] != numbered[j]
    ensures var numbered := Run(s, encode, reqs).numbered;
      forall i :: 0 <= i < |numbered| ==> Labels.LabelIndex(numbered[i]) == Some(s.counter + i)
  {
    RunNumbersConsecutively(s, encode, reqs);
    var numbered := Run(s, encode, reqs).numbered;
    forall i | 0 <= i < |numbered|
      ensures Labels.LabelIndex(numbered[i]) == Some(s.counter + i)
    {
      Labels.LabelIndexOfLabel(s.counter + i);
    }
    forall i, j | 0 <= i < j < |numbered|
      ensures numbered[i] != numbered[j]
    {
      Labels.LabelInjective(s.counter + i, s.counter + j);
    }
  }

  /** Every request keeps the live counter-shaped labels below the counter. */
  lemma {:induction false} RunKeepsLabelsBelowCounter(s: C.State, encode: string -> string, reqs: seq<Request>)
    requires C.LabelsBelowCounter(s)
    ensures C.LabelsBelowCounter(Run(s, encode, reqs).state)
    decreases |reqs|
  {
    if |reqs| > 0 {
      var first := Apply(s, encode, reqs[0]);
      assert C.LabelsBelowCounter(first.state);
      if !first.exited {
        RunKeepsLabelsBelowCounter(first.state, encode, reqs[1..]);
      }
    }
  }

  /** From launch on, a window creation never numbers a label that is already open. */
  lemma CreateNumbersFreshLabel(encode: string -> string, reqs: seq<Request>)
    ensures Labels.Label(Run(C.Initial, encode, reqs).state.counter) !in Run(C.Initial, encode, reqs).state.live
  {
    C.InitialLabelsBelowCounter();
    RunKeepsLabelsBelowCounter(C.Initial, encode, reqs);
    Labels.LabelIndexOfLabel(Run(C.Initial, encode, reqs).state.counter);
  }

  /** Nothing after launch stores into the slot, so across any run the stored path is handed out
      at most once, and only the path that was stored. */
  lemma {:induction false} RunTakesAtMostOnce(s: C.State, encode: string -> string, reqs: seq<Request>)
    ensures |Run(s, encode, reqs).taken| <= 1
    ensures Run(s, encode, reqs).taken != [] ==> s.slot.Some? && Run(s, encode, reqs).taken == [s.slot.value]
    ensures Run(s, encode, reqs).taken != [] ==> Run(s, encode, reqs).state.slot == None
    ensures Run(s, encode, reqs).state.slot == None || Run(s, encode, reqs).state.slot == s.slot
    decreases |reqs|
  {
    if |reqs| > 0 {
      var first := Apply(s, encode, reqs[0]);
      if !first.exited {
        RunTakesAtMostOnce(first.state, encode, reqs[1..]);
      }
    }
  }

  /** A second take with nothing stored in between yields nothing. */
  lemma TakeTwiceYieldsNothing(s: C.State)
    ensures C.TakeOpenFilePath(C.TakeOpenFilePath(s).state).result == None
  {
  }

  /** Launch intake followed by a take hands out exactly the qualifying argument, and only a
      qualifying second argument is ever handed out. */
  lemma IntakeThenTake(args: seq<string>)
    ensures C.TakeOpenFilePath(C.LaunchIntake(C.Initial, args)).result ==
      if |args| > 1 && Markdown.IsMarkdownPath(args[1]) then Some(args[1]) else None
  {
  }

  /** Arguments after the first one following the program name play no part in launch intake. */
  lemma IntakeIgnoresLaterArgs(s: C.State, args: seq<string>)
    requires |args| >= 2
    ensures C.LaunchIntake(s, args) == C.LaunchIntake(s, args[..2])
  {
  }

  /** A relaunch never stores its argument: what the slot would hand out is unchanged. */
  lemma RelaunchDoesNotStore(s: C.State, args: seq<string>)
    ensures C.TakeOpenFilePath(C.Relaunch(s, args).state).result == s.slot
  {
  }

  /** The encoded file parameter can be read back from a new window's navigation target, and a
      target without a file is the bare entry document. */
  lemma InitialUrlCarriesFile(filePath: Option<string>, encode: string -> string)
    ensures C.FileParameter(C.InitialUrl(filePath, encode)) ==
      match filePath
      case None => None
      case Some(p) => Some(encode(p))
    ensures filePath.None? <==> C.InitialUrl(filePath, encode) == C.EntryDocument
  {
    var head := C.EntryDocument + C.FileQuery;
    match filePath
    case None =>
    case Some(p) =>
      var url := C.InitialUrl(filePath, encode);
      assert url == head + encode(p);
      assert url[..|head|] == head;
      assert url[|head|..] == encode(p);
  }

  /** A window that was just created successfully can receive a tab at once. */
  lemma TransferToCreatedWindow(s: C.State, filePath: Option<string>, encode: string -> string,
                                path: string, source: string, emit: C.HostCall, focus: C.HostCall)
    ensures var created := C.CreateWindow(s, filePath, encode, C.Done, C.Done);
      var target := created.result.value;
      C.TransferTab(created.state, path, source, target, emit, focus).effects[0] ==
        C.Emit(target, C.TabTransfer(C.TabTransferPayload(path, source, target)))
  {
  }

  /** Once a non-last window has been closed, a tab can no longer be transferred to it. */
  lemma TransferAfterCloseFails(s: C.State, window: string, path: string, source: string,
                                emit: C.HostCall, focus: C.HostCall)
    requires 2 <= |s.live|
    ensures var closed := C.CloseRequested(s, window).state;
      C.TransferTab(closed, path, source, window, emit, focus).result == Err(C.NotFound(window))
  {
  }

  /** Closing one of two open windows destroys only that window and the process keeps the other. */
  lemma CloseOneOfTwo(a: string, b: string, s: C.State)
    requires s.live == {a, b} && a != b
    ensures C.CloseRequested(s, a).result == C.KeepRunning
    ensures C.CloseRequested(s, a).state.live == {b}
  {
  }
}
