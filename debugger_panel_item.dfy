/**
 * One tab of the debugger panel: the view of one thread of one debug
 * adapter client. It tracks which of its inner tabs is active, whether
 * the Console tab shows an unread-output dot, and the thread's status,
 * and it reacts to the panel's events for its own client and thread.
 *
 * The views it owns (console, output editor, module and loaded-source
 * lists, stack frames, variables) are reduced to what the item itself
 * does to them: console messages and output text are sequences, events
 * handed on to the module and loaded-source lists are recorded, and the
 * requests sent to the debug adapter store are an outbox. Clearing the
 * editor's debug-line highlights is counted.
 */
module DebuggerPanelItem {
  import opened Wrappers
  import D = DapTypes

  type ClientId = nat
  /** A `u64` thread id. */
  type ThreadId = nat

  /** The status the debugger keeps for a thread. */
  datatype ThreadStatus = Running | Stopped | Exited | Ended

  /** The inner tabs of an item. */
  datatype ThreadItem = Console | LoadedSource | Modules | Output | Variables

  /** The wire form of an inner tab. */
  datatype ProtoThreadItem = ProtoConsole | ProtoLoadedSource | ProtoModules | ProtoOutput | ProtoVariables

  function FromProto(p: ProtoThreadItem): ThreadItem
  {
    match p
    case ProtoConsole => Console
    case ProtoLoadedSource => LoadedSource
    case ProtoModules => Modules
    case ProtoOutput => Output
    case ProtoVariables => Variables
  }

  /** Every tab survives a trip over the wire. */
  function ToProto(t: ThreadItem): (p: ProtoThreadItem)
    ensures FromProto(p) == t
  {
    match t
    case Console => ProtoConsole
    case LoadedSource => ProtoLoadedSource
    case Modules => ProtoModules
    case Output => ProtoOutput
    case Variables => ProtoVariables
  }

  /** And every wire value comes back as itself: the two are inverse bijections. */
  lemma ProtoRoundTrip(p: ProtoThreadItem)
    ensures ToProto(FromProto(p)) == p
  {
  }

  /** The statuses on which the debug-line highlights are cleared: every one but Running. */
  predicate ClearsHighlights(s: ThreadStatus)
    ensures ClearsHighlights(s) <==> !s.Running?
  {
    s == Exited || s == Ended || s == Stopped
  }

  /** The pause/continue slot of the toolbar: pause while running, else a continue button. */
  datatype RunControl = Pause | Continue(enabled: bool)

  /** Which toolbar buttons are shown and enabled. */
  datatype Toolbar = Toolbar(
    runControl: RunControl,
    stepOverEnabled: bool,
    stepInEnabled: bool,
    stepOutEnabled: bool,
    restartEnabled: bool,
    stopEnabled: bool,
    disconnectEnabled: bool,
    ignoreBreakpointsEnabled: bool)

  /** The toolbar for a thread status and the client's capabilities. */
  function ToolbarFor(status: ThreadStatus, caps: D.Capabilities): (t: Toolbar)
    ensures t.runControl == Pause <==> status == Running
    ensures t.runControl == Continue(true) <==> status == Stopped
    ensures t.stepOverEnabled == t.stepInEnabled == t.stepOutEnabled
    ensures t.stepOverEnabled <==> status == Stopped
    ensures t.restartEnabled <==> D.Flag(caps.supportsRestartRequest)
    ensures t.stopEnabled <==> status == Running || status == Stopped
    ensures t.disconnectEnabled == t.ignoreBreakpointsEnabled
    ensures t.disconnectEnabled <==> status != Exited && status != Ended
  {
    Toolbar(
      if status == Running then Pause else Continue(status == Stopped),
      status == Stopped,
      status == Stopped,
      status == Stopped,
      D.Flag(caps.supportsRestartRequest),
      status == Stopped || status == Running,
      !(status == Exited || status == Ended),
      !(status == Exited || status == Ended))
  }

  /** Stepping and continuing are possible only where stopping is, and stopping exactly where disconnecting is. */
  lemma ToolbarConsistent(status: ThreadStatus, caps: D.Capabilities)
    ensures ToolbarFor(status, caps).stepOverEnabled ==> ToolbarFor(status, caps).stopEnabled
    ensures ToolbarFor(status, caps).runControl != Continue(false) ==> ToolbarFor(status, caps).stopEnabled
    ensures ToolbarFor(status, caps).stopEnabled == ToolbarFor(status, caps).disconnectEnabled
  {
  }

  /** Unicode `White_Space`, as Rust's `char::is_whitespace`. */
  predicate IsWhitespace(c: char)
  {
    var n := c as int;
    (0x09 <= n <= 0x0D) || n == 0x20 || n == 0x85 || n == 0xA0 || n == 0x1680
    || (0x2000 <= n <= 0x200A) || n == 0x2028 || n == 0x2029 || n == 0x202F
    || n == 0x205F || n == 0x3000
  }

  /** `str::trim_end`: the longest prefix that does not end in whitespace. */
  function TrimEnd(s: string): (r: string)
    ensures r <= s
    ensures forall i | |r| <= i < |s| :: IsWhitespace(s[i])
    ensures |r| > 0 ==> !IsWhitespace(r[|r| - 1])
  {
    if |s| > 0 && IsWhitespace(s[|s| - 1]) then TrimEnd(s[..|s| - 1]) else s
  }

  /** Trimming twice trims no more than trimming once. */
  lemma TrimEndIdempotent(s: string)
    ensures TrimEnd(TrimEnd(s)) == TrimEnd(s)
  {
  }

  /** The line an output event writes to the output editor. */
  function OutputLine(output: string): (r: string)
    ensures |r| > 0 && r[|r| - 1] == '\n'
    ensures r[..|r| - 1] == TrimEnd(output)
  {
    TrimEnd(output) + "\n"
  }

  /** The events the debugger panel publishes to its items. */
  datatype PanelEvent =
    | StoppedEvent(client: ClientId, stoppedThread: Option<ThreadId>, goToStackFrame: bool)
    | ThreadEvent(client: ClientId, thread: ThreadId)
    | OutputEvent(client: ClientId, output: D.OutputEvent)
    | ModuleEvent(client: ClientId, changed: D.Module)
    | LoadedSourceEvent(client: ClientId, source: D.Source)
    | ClientStoppedEvent(client: ClientId)
    | ContinuedEvent(client: ClientId, thread: ThreadId)
    | ExitedEvent(client: ClientId)
    | TerminatedEvent(client: ClientId)
    | CapabilitiesChangedEvent(client: ClientId)

  /** The events an item emits. */
  datatype ItemEvent = Close | ItemStopped(goToStackFrame: bool)

  /** What an existing item does when an equal one is opened. */
  datatype Dedup = KeepExisting

  /** The requests an item sends, through the store or the project. */
  datatype Request =
    | ContinueThread(client: ClientId, thread: ThreadId)
    | StepOver(client: ClientId, thread: ThreadId, granularity: D.SteppingGranularity)
    | StepIn(client: ClientId, thread: ThreadId, granularity: D.SteppingGranularity)
    | StepOut(client: ClientId, thread: ThreadId, granularity: D.SteppingGranularity)
    | Restart(client: ClientId)
    | PauseThread(client: ClientId, thread: ThreadId)
    | TerminateThreads(client: ClientId, threads: seq<ThreadId>)
    | DisconnectClient(client: ClientId)
    | ToggleIgnoreBreakpoints(client: ClientId)
    | RemoveActiveDebugLine(client: ClientId)

  /** Everything of an item that its methods change. */
  datatype ItemState = ItemState(
    activeThreadItem: ThreadItem,
    showConsoleIndicator: bool,
    status: ThreadStatus,
    highlightClears: nat,
    consoleMessages: seq<string>,
    outputText: string,
    forwarded: seq<PanelEvent>,
    emitted: seq<ItemEvent>,
    requests: seq<Request>)

  /**
   * The debugger panel's `ThreadState` model: a thread's status and
   * whether it ever stopped. The panel and the thread's item hold the
   * same object, and either updates it in place.
   */
  class ThreadStateModel {
    var status: ThreadStatus
    var stopped: bool

    /** `ThreadState::default()`: running, never stopped. */
    constructor ()
      ensures status == Running && !stopped
    {
      status := Running;
      stopped := false;
    }
  }

  class DebugPanelItem {
    const clientId: ClientId
    const threadId: ThreadId
    const clientName: string
    /** The thread state the item shares with the panel. */
    const threadState: ThreadStateModel
    var activeThreadItem: ThreadItem
    var showConsoleIndicator: bool
    /** How many times the debug-line highlights were cleared. */
    var highlightClears: nat
    var consoleMessages: seq<string>
    var outputText: string
    /** Events handed on to the module and loaded-source lists. */
    var forwarded: seq<PanelEvent>
    var emitted: seq<ItemEvent>
    var requests: seq<Request>

    ghost function State(): ItemState
      reads this, threadState
    {
      ItemState(activeThreadItem, showConsoleIndicator, threadState.status, highlightClears,
                consoleMessages, outputText, forwarded, emitted, requests)
    }

    /** The console dot is never shown while the console is the active tab. */
    ghost predicate Valid()
      reads this
    {
      showConsoleIndicator ==> activeThreadItem != Console
    }

    /** A new item opens on the Variables tab with no console dot. */
    constructor (clientId: ClientId, clientName: string, threadId: ThreadId, threadState: ThreadStateModel)
      ensures Valid()
      ensures this.clientId == clientId && this.clientName == clientName && this.threadId == threadId
      ensures this.threadState == threadState
      ensures State() == ItemState(Variables, false, threadState.status, 0, [], "", [], [], [])
    {
      this.clientId := clientId;
      this.clientName := clientName;
      this.threadId := threadId;
      this.threadState := threadState;
      this.activeThreadItem := Variables;
      this.showConsoleIndicator := false;
      this.highlightClears := 0;
      this.consoleMessages := [];
      this.outputText := "";
      this.forwarded := [];
      this.emitted := [];
      this.requests := [];
    }

    /** An event is for another item unless both its client and its thread are this item's. */
    predicate ShouldSkipEvent(client: ClientId, thread: ThreadId)
      ensures ShouldSkipEvent(client, thread) <==> (client, thread) != (clientId, threadId)
    {
      thread != threadId || client != clientId
    }

    /** An opened item is dropped for an existing one exactly when the existing one heeds the new one's events. */
    function DedupWith(existing: DebugPanelItem): (r: Option<Dedup>)
      ensures r.Some? <==> !existing.ShouldSkipEvent(clientId, threadId)
      ensures r.Some? <==> !ShouldSkipEvent(existing.clientId, existing.threadId)
      ensures r.Some? ==> r.value == KeepExisting
    {
      if existing.clientId == clientId && existing.threadId == threadId then Some(KeepExisting) else None
    }

    /** The tab a follower takes over from the leader's state. */
    method SetFromProto(p: ProtoThreadItem)
      modifies this
      ensures State() == old(State()).(activeThreadItem := FromProto(p))
    {
      activeThreadItem := FromProto(p);
    }

    /** Sets the shared status; every status but Running also clears the highlights. */
    method UpdateThreadStateStatus(s: ThreadStatus)
      modifies this, threadState
      ensures State() == old(State()).(status := s,
                                       highlightClears := old(highlightClears) + if ClearsHighlights(s) then 1 else 0)
      ensures threadState.stopped == old(threadState.stopped)
    {
      threadState.status := s;
      if s == Exited || s == Ended || s == Stopped {
        highlightClears := highlightClears + 1;
      }
    }

    /** Clicking a tab makes it active; opening the console clears its dot. */
    method SelectTab(t: ThreadItem)
      modifies this
      ensures Valid()
      ensures t == Console ==> State() == old(State()).(activeThreadItem := t, showConsoleIndicator := false)
      ensures t != Console ==> State() == old(State()).(activeThreadItem := t)
    {
      activeThreadItem := t;
      if activeThreadItem == Console {
        showConsoleIndicator := false;
      }
    }

    /** A selected or refreshed stack frame clears the highlights. */
    method OnStackFrameListEvent()
      modifies this
      ensures State() == old(State()).(highlightClears := old(highlightClears) + 1)
    {
      highlightClears := highlightClears + 1;
    }

    /** A continued thread of this item is running again. */
    method HandleThreadContinuedEvent(client: ClientId, thread: ThreadId)
      modifies this, threadState
      ensures threadState.stopped == old(threadState.stopped)
      ensures old(Valid()) ==> Valid()
      ensures ShouldSkipEvent(client, thread) ==> State() == old(State())
      ensures !ShouldSkipEvent(client, thread) ==> State() == old(State()).(status := Running)
    {
      if ShouldSkipEvent(client, thread) {
        return;
      }
      UpdateThreadStateStatus(Running);
    }

    /** A stop of this item's thread, or of an unnamed thread of its client, is passed on. */
    method HandleStoppedEvent(client: ClientId, thread: Option<ThreadId>, goToStackFrame: bool)
      modifies this
      ensures old(Valid()) ==> Valid()
      ensures ShouldSkipEvent(client, thread.UnwrapOr(threadId)) ==> State() == old(State())
      ensures !ShouldSkipEvent(client, thread.UnwrapOr(threadId)) ==>
                State() == old(State()).(emitted := old(emitted) + [ItemStopped(goToStackFrame)])
    {
      if ShouldSkipEvent(client, thread.UnwrapOr(threadId)) {
        return;
      }
      emitted := emitted + [ItemStopped(goToStackFrame)];
    }

    /** Any thread event of this item's thread, whatever its reason, marks it running. */
    method HandleThreadEvent(client: ClientId, thread: ThreadId)
      modifies this, threadState
      ensures threadState.stopped == old(threadState.stopped)
      ensures old(Valid()) ==> Valid()
      ensures ShouldSkipEvent(client, thread) ==> State() == old(State())
      ensures !ShouldSkipEvent(client, thread) ==> State() == old(State()).(status := Running)
    {
      if ShouldSkipEvent(client, thread) {
        return;
      }
      UpdateThreadStateStatus(Running);
    }

    /**
     * Output of this item's client. Output without a category is console
     * output: it goes to the console and, unless the console is the active
     * tab, lights the console dot. Any other output is appended to the
     * output editor as one line, trimmed at its end.
     */
    method HandleOutputEvent(client: ClientId, event: D.OutputEvent)
      modifies this
      ensures old(Valid()) ==> Valid()
      ensures client != clientId ==> State() == old(State())
      ensures (client == clientId && event.category.UnwrapOr(D.OutputEventCategory.Console).Console?) ==>
                State() == old(State()).(
                  consoleMessages := old(consoleMessages) + [event.output],
                  showConsoleIndicator := old(showConsoleIndicator) || old(activeThreadItem) != Console)
      ensures (client == clientId && !event.category.UnwrapOr(D.OutputEventCategory.Console).Console?) ==>
                State() == old(State()).(outputText := old(outputText) + OutputLine(event.output))
    {
      if ShouldSkipEvent(client, threadId) {
        return;
      }
      var category := event.category.UnwrapOr(D.OutputEventCategory.Console);
      match category {
        case Console =>
          consoleMessages := consoleMessages + [event.output];
          if activeThreadItem != Console {
            showConsoleIndicator := true;
          }
        case _ =>
          outputText := outputText + (TrimEnd(event.output) + "\n");
      }
    }

    /** Module and loaded-source events of this item's client go to the respective list. */
    method HandleListEvent(e: PanelEvent)
      requires e.ModuleEvent? || e.LoadedSourceEvent?
      modifies this
      ensures old(Valid()) ==> Valid()
      ensures e.client != clientId ==> State() == old(State())
      ensures e.client == clientId ==> State() == old(State()).(forwarded := old(forwarded) + [e])
    {
      if ShouldSkipEvent(e.client, threadId) {
        return;
      }
      forwarded := forwarded + [e];
    }

    /** The client stopped: the thread is marked stopped, its debug line removed and the item closed. */
    method HandleClientStoppedEvent(client: ClientId)
      modifies this, threadState
      ensures threadState.stopped == old(threadState.stopped)
      ensures old(Valid()) ==> Valid()
      ensures client != clientId ==> State() == old(State())
      ensures client == clientId ==>
                State() == old(State()).(status := Stopped,
                                         highlightClears := old(highlightClears) + 1,
                                         requests := old(requests) + [RemoveActiveDebugLine(client)],
                                         emitted := old(emitted) + [Close])
    {
      if ShouldSkipEvent(client, threadId) {
        return;
      }
      UpdateThreadStateStatus(Stopped);
      requests := requests + [RemoveActiveDebugLine(client)];
      emitted := emitted + [Close];
    }

    /** The client exited or terminated: as a stop, but the thread is marked exited. */
    method HandleClientExitedAndTerminatedEvent(client: ClientId)
      modifies this, threadState
      ensures threadState.stopped == old(threadState.stopped)
      ensures old(Valid()) ==> Valid()
      ensures client != clientId ==> State() == old(State())
      ensures client == clientId ==>
                State() == old(State()).(status := Exited,
                                         highlightClears := old(highlightClears) + 1,
                                         requests := old(requests) + [RemoveActiveDebugLine(client)],
                                         emitted := old(emitted) + [Close])
    {
      if ShouldSkipEvent(client, threadId) {
        return;
      }
      UpdateThreadStateStatus(Exited);
      requests := requests + [RemoveActiveDebugLine(client)];
      emitted := emitted + [Close];
    }

    /** The subscription to the panel: each event goes to its handler. */
    method HandleEvent(e: PanelEvent)
      modifies this, threadState
      ensures threadState.stopped == old(threadState.stopped)
      ensures old(Valid()) ==> Valid()
      ensures !e.ThreadEvent? && !e.ContinuedEvent? && !e.StoppedEvent? && e.client != clientId ==>
                State() == old(State())
      ensures e.CapabilitiesChangedEvent? ==> State() == old(State())
      ensures e.StoppedEvent? ==>
                State() == if ShouldSkipEvent(e.client, e.stoppedThread.UnwrapOr(threadId)) then old(State())
                           else old(State()).(emitted := old(emitted) + [ItemStopped(e.goToStackFrame)])
      ensures e.ThreadEvent? || e.ContinuedEvent? ==>
                State() == if ShouldSkipEvent(e.client, e.thread) then old(State())
                           else old(State()).(status := Running)
      ensures (e.OutputEvent? && e.client == clientId && e.output.category.UnwrapOr(D.OutputEventCategory.Console).Console?) ==>
                State() == old(State()).(
                  consoleMessages := old(consoleMessages) + [e.output.output],
                  showConsoleIndicator := old(showConsoleIndicator) || old(activeThreadItem) != Console)
      ensures (e.OutputEvent? && e.client == clientId && !e.output.category.UnwrapOr(D.OutputEventCategory.Console).Console?) ==>
                State() == old(State()).(outputText := old(outputText) + OutputLine(e.output.output))
      ensures (e.ModuleEvent? || e.LoadedSourceEvent?) && e.client == clientId ==>
                State() == old(State()).(forwarded := old(forwarded) + [e])
      ensures e.ClientStoppedEvent? && e.client == clientId ==>
                State() == old(State()).(status := Stopped,
                                         highlightClears := old(highlightClears) + 1,
                                         requests := old(requests) + [RemoveActiveDebugLine(e.client)],
                                         emitted := old(emitted) + [Close])
      ensures (e.ExitedEvent? || e.TerminatedEvent?) && e.client == clientId ==>
                State() == old(State()).(status := Exited,
                                         highlightClears := old(highlightClears) + 1,
                                         requests := old(requests) + [RemoveActiveDebugLine(e.client)],
                                         emitted := old(emitted) + [Close])
    {
      match e {
        case StoppedEvent(client, thread, go) => HandleStoppedEvent(client, thread, go);
        case ThreadEvent(client, thread) => HandleThreadEvent(client, thread);
        case OutputEvent(client, output) => HandleOutputEvent(client, output);
        case ModuleEvent(_, _) => HandleListEvent(e);
        case LoadedSourceEvent(_, _) => HandleListEvent(e);
        case ClientStoppedEvent(client) => HandleClientStoppedEvent(client);
        case ContinuedEvent(client, thread) => HandleThreadContinuedEvent(client, thread);
        case ExitedEvent(client) => HandleClientExitedAndTerminatedEvent(client);
        case TerminatedEvent(client) => HandleClientExitedAndTerminatedEvent(client);
        case CapabilitiesChangedEvent(_) =>
      }
    }

    /** Continuing marks the thread running, then asks the store to continue it. */
    method ContinueThreadAction()
      modifies this, threadState
      ensures threadState.stopped == old(threadState.stopped)
      ensures old(Valid()) ==> Valid()
      ensures State() == old(State()).(status := Running,
                                       requests := old(requests) + [ContinueThread(clientId, threadId)])
    {
      UpdateThreadStateStatus(Running);
      requests := requests + [ContinueThread(clientId, threadId)];
    }

    /** Each step marks the thread running, then sends the step with the configured granularity. */
    method StepOverAction(granularity: D.SteppingGranularity)
      modifies this, threadState
      ensures threadState.stopped == old(threadState.stopped)
      ensures old(Valid()) ==> Valid()
      ensures State() == old(State()).(status := Running,
                                       requests := old(requests) + [StepOver(clientId, threadId, granularity)])
    {
      UpdateThreadStateStatus(Running);
      requests := requests + [StepOver(clientId, threadId, granularity)];
    }

    method StepInAction(granularity: D.SteppingGranularity)
      modifies this, threadState
      ensures threadState.stopped == old(threadState.stopped)
      ensures old(Valid()) ==> Valid()
      ensures State() == old(State()).(status := Running,
                                       requests := old(requests) + [StepIn(clientId, threadId, granularity)])
    {
      UpdateThreadStateStatus(Running);
      requests := requests + [StepIn(clientId, threadId, granularity)];
    }

    method StepOutAction(granularity: D.SteppingGranularity)
      modifies this, threadState
      ensures threadState.stopped == old(threadState.stopped)
      ensures old(Valid()) ==> Valid()
      ensures State() == old(State()).(status := Running,
                                       requests := old(requests) + [StepOut(clientId, threadId, granularity)])
    {
      UpdateThreadStateStatus(Running);
      requests := requests + [StepOut(clientId, threadId, granularity)];
    }

    /** Restart, pause, stop, disconnect and ignore-breakpoints only send; the status waits for the adapter. */
    method RestartClientAction()
      modifies this
      ensures State() == old(State()).(requests := old(requests) + [Restart(clientId)])
    {
      requests := requests + [Restart(clientId)];
    }

    method PauseThreadAction()
      modifies this
      ensures State() == old(State()).(requests := old(requests) + [PauseThread(clientId, threadId)])
    {
      requests := requests + [PauseThread(clientId, threadId)];
    }

    /** Stopping terminates exactly this item's thread. */
    method StopThreadAction()
      modifies this
      ensures State() == old(State()).(requests := old(requests) + [TerminateThreads(clientId, [threadId])])
    {
      requests := requests + [TerminateThreads(clientId, [threadId])];
    }

    method DisconnectClientAction()
      modifies this
      ensures State() == old(State()).(requests := old(requests) + [DisconnectClient(clientId)])
    {
      requests := requests + [DisconnectClient(clientId)];
    }

    method ToggleIgnoreBreakpointsAction()
      modifies this
      ensures State() == old(State()).(requests := old(requests) + [ToggleIgnoreBreakpoints(clientId)])
    {
      requests := requests + [ToggleIgnoreBreakpoints(clientId)];
    }
  }

  /** Dedup is symmetric: two items dedup against each other or not at all. */
  lemma DedupSymmetric(a: DebugPanelItem, b: DebugPanelItem)
    ensures a.DedupWith(b).Some? <==> b.DedupWith(a).Some?
  {
  }
}
