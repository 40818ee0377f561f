/**
 * The debugger panel: it receives every debug adapter client's events,
 * keeps a thread state per (client, thread) in an ordered map, opens a
 * tab (a panel item) for each thread that stops, and re-publishes the
 * events to its items.
 *
 * The pane is reduced to the list of its items' (client, thread) keys;
 * the store, the project and the terminal panel to an outbox of
 * requests. The asynchronous part of the stop handler is modelled as
 * running at once.
 */
module DebuggerPanel {
  import opened Wrappers
  import Item = DebuggerPanelItem
  import D = DapTypes

  type ClientId = nat
  type ThreadId = nat

  const U64Max: nat := 0xFFFF_FFFF_FFFF_FFFF

  /** The map key: a client and one of its threads, ordered lexicographically. */
  type Key = (ClientId, ThreadId)

  /** A thread state model's value; `stopped` records that the thread ever stopped. */
  datatype ThreadState = ThreadState(status: Item.ThreadStatus, stopped: bool)

  /** `ThreadState::default()`: running, never stopped. */
  const DefaultThreadState := ThreadState(Item.Running, false)

  datatype ThreadEventReason = Started | Exited | OtherReason(reason: string)

  /** The reduced arguments of a run-in-terminal request. */
  datatype RunInTerminalArgs = RunInTerminalArgs(args: seq<string>, cwd: string)

  /** What the panel asks of the store, the project and the terminal panel. */
  datatype Request =
    | TerminateThreads(client: ClientId, threads: seq<ThreadId>)
    | Restart(client: ClientId, restartArgs: string)
    | ShutdownClient(client: ClientId)
    | RespondToRunInTerminal(client: ClientId, success: bool, requestSeq: nat, pid: Option<nat>)
    | SpawnTerminal(command: Option<string>, args: seq<string>, cwd: string)
    | MergeCapabilities(client: ClientId, capabilities: D.Capabilities)
    | SendBreakpoints(client: ClientId)
    | ConfigurationDone(client: ClientId)

  /** The order of the `BTreeMap` keys. */
  predicate KeyLess(a: Key, b: Key)
  {
    a.0 < b.0 || (a.0 == b.0 && a.1 < b.1)
  }

  /** Membership in the half-open key range `lo..hi`. */
  predicate InRange(k: Key, lo: Key, hi: Key)
  {
    !KeyLess(k, lo) && KeyLess(k, hi)
  }

  /** The range the terminated handler walks: `(client, u64::MIN)..(client, u64::MAX)`. */
  predicate InTerminatedRange(k: Key, client: ClientId)
  {
    InRange(k, (client, 0), (client, U64Max))
  }

  /** That range holds exactly the client's threads below `u64::MAX`: no other client's, and not thread `u64::MAX`. */
  lemma TerminatedRangeIsClientThreads(k: Key, client: ClientId)
    ensures InTerminatedRange(k, client) <==> k.0 == client && k.1 < U64Max
  {
  }

  /**
   * Run in terminal: with more than one argument the first is the
   * command and the rest its arguments; with one or none there is no
   * command and the arguments stay as they are.
   */
  function SplitCommand(args: seq<string>): (r: (Option<string>, seq<string>))
    ensures r.0.Some? <==> |args| > 1
    ensures r.0.Some? ==> [r.0.value] + r.1 == args
    ensures r.0.None? ==> r.1 == args
  {
    if |args| > 1 then (Some(args[0]), args[1..]) else (None, args)
  }

  /** The command line a split stands for. */
  function CommandLine(command: Option<string>, args: seq<string>): seq<string>
  {
    match command
    case Some(c) => [c] + args
    case None => args
  }

  /** Splitting loses nothing. */
  lemma SplitCommandRoundTrip(args: seq<string>)
    ensures CommandLine(SplitCommand(args).0, SplitCommand(args).1) == args
  {
  }

  /** The response to a spawned terminal: success with its pid, or failure with none. */
  function TerminalOutcome(spawned: Result<Option<nat>, string>): (r: (bool, Option<nat>))
    ensures r.0 <==> spawned.Ok?
    ensures r.0 ==> r.1 == spawned.value
    ensures !r.0 ==> r.1.None?
  {
    match spawned
    case Ok(pid) => (true, pid)
    case Err(_) => (false, None)
  }

  /** An item's (client, thread) key. */
  function KeyOf(item: Item.DebugPanelItem): Key
  {
    (item.clientId, item.threadId)
  }

  /** The keys of the pane's items, in tab order. */
  function Keys(items: seq<Item.DebugPanelItem>): (r: seq<Key>)
    ensures |r| == |items|
    ensures forall i | 0 <= i < |items| :: r[i] == KeyOf(items[i])
  {
    seq(|items|, i requires 0 <= i < |items| => KeyOf(items[i]))
  }

  lemma KeysCons(x: Item.DebugPanelItem, s: seq<Item.DebugPanelItem>)
    ensures Keys([x] + s) == [KeyOf(x)] + Keys(s)
  {
  }

  /** `keys` without `key`, in order. */
  function WithoutKey(keys: seq<Key>, key: Key): (r: seq<Key>)
    ensures forall x :: x in r <==> x in keys && x != key
    ensures |r| <= |keys|
    ensures Distinct(keys) ==> Distinct(r)
  {
    if keys == [] then []
    else if keys[0] == key then WithoutKey(keys[1..], key)
    else
      var rest := WithoutKey(keys[1..], key);
      DistinctCons(keys[0], keys[1..]);
      DistinctCons(keys[0], rest);
      [keys[0]] + rest
  }

  /** The pane's items without the ones for `key`, in order. */
  function Without(items: seq<Item.DebugPanelItem>, key: Key): (r: seq<Item.DebugPanelItem>)
    ensures Keys(r) == WithoutKey(Keys(items), key)
    ensures forall i | 0 <= i < |r| :: r[i] in items
  {
    if items == [] then []
    else
      var rest := Without(items[1..], key);
      assert Keys(items)[1..] == Keys(items[1..]);
      if KeyOf(items[0]) == key then rest
      else
        KeysCons(items[0], rest);
        [items[0]] + rest
  }

  lemma DistinctCons(x: Key, s: seq<Key>)
    ensures Distinct([x] + s) <==> x !in s && Distinct(s)
  {
    var t := [x] + s;
    if x !in s && Distinct(s) {
      forall i, j | 0 <= i < j < |t| ensures t[i] != t[j] {
        if i == 0 {
          assert t[j] == s[j - 1];
        } else {
          assert t[i] == s[i - 1] && t[j] == s[j - 1];
        }
      }
    }
    if Distinct(t) {
      forall i, j | 0 <= i < j < |s| ensures s[i] != s[j] {
        assert t[i + 1] == s[i] && t[j + 1] == s[j];
      }
      forall j | 0 <= j < |s| ensures s[j] != x {
        assert t[0] == x && t[j + 1] == s[j];
      }
    }
  }

  lemma KeysSnoc(s: seq<Item.DebugPanelItem>, x: Item.DebugPanelItem)
    ensures Keys(s + [x]) == Keys(s) + [KeyOf(x)]
  {
  }

  lemma DistinctSnoc(s: seq<Key>, x: Key)
    requires Distinct(s) && x !in s
    ensures Distinct(s + [x])
  {
    var t := s + [x];
    forall i, j | 0 <= i < j < |t| ensures t[i] != t[j] {
      assert t[i] == s[i];
    }
  }

  predicate Distinct(s: seq<Key>)
  {
    forall i, j | 0 <= i < j < |s| :: s[i] != s[j]
  }

  /** No two keys share a state model. */
  ghost predicate Injective(m: map<Key, Item.ThreadStateModel>)
  {
    forall k, k' | k in m && k' in m && k != k' :: m[k] != m[k']
  }

  /** The values the state models hold. */
  ghost function ValuesOf(m: map<Key, Item.ThreadStateModel>): map<Key, ThreadState>
    reads m.Values
  {
    map k | k in m :: ThreadState(m[k].status, m[k].stopped)
  }

  lemma ValuesOfRemove(m: map<Key, Item.ThreadStateModel>, key: Key)
    ensures Injective(m) ==> Injective(m - {key})
    ensures ValuesOf(m - {key}) == ValuesOf(m) - {key}
  {
  }

  lemma ValuesOfInsert(m: map<Key, Item.ThreadStateModel>, key: Key, o: Item.ThreadStateModel)
    requires o !in m.Values
    ensures Injective(m) ==> Injective(m[key := o])
    ensures ValuesOf(m[key := o]) == ValuesOf(m)[key := ThreadState(o.status, o.stopped)]
  {
  }

  class DebugPanel {
    /** The thread state models, shared with the threads' items. */
    var threadStates: map<Key, Item.ThreadStateModel>
    var showDidNotStopWarning: bool
    /** The pane's items, in tab order. */
    var items: seq<Item.DebugPanelItem>
    /** The events published to the items. */
    var emitted: seq<Item.PanelEvent>
    var requests: seq<Request>

    /**
     * The pane never holds two items for the same client and thread, and
     * no two threads share a state model.
     */
    ghost predicate Valid()
      reads this
    {
      Distinct(Keys(items)) && Injective(threadStates)
    }

    /** Every item whose thread has a state holds that very state model. */
    ghost predicate Linked()
      reads this
    {
      forall it | it in items && KeyOf(it) in threadStates :: it.threadState == threadStates[KeyOf(it)]
    }

    /** The thread states as values. */
    ghost function States(): map<Key, ThreadState>
      reads this, threadStates.Values
    {
      ValuesOf(threadStates)
    }

    constructor ()
      ensures Valid() && Linked()
      ensures threadStates == map[] && !showDidNotStopWarning && items == [] && emitted == [] && requests == []
    {
      threadStates := map[];
      showDidNotStopWarning := false;
      items := [];
      emitted := [];
      requests := [];
    }

    /** A stopped client loses every thread state; its items stay until closed. */
    method HandleDebugClientStopped(client: ClientId)
      requires Valid()
      modifies this
      ensures Valid()
      ensures old(Linked()) ==> Linked()
      ensures threadStates == map k | k in old(threadStates) && k.0 != client :: old(threadStates)[k]
      ensures States() == map k | k in old(States()) && k.0 != client :: old(States())[k]
      ensures emitted == old(emitted) + [Item.ClientStoppedEvent(client)]
      ensures items == old(items) && requests == old(requests) && showDidNotStopWarning == old(showDidNotStopWarning)
    {
      emitted := emitted + [Item.ClientStoppedEvent(client)];
      threadStates := map k | k in threadStates && k.0 != client :: threadStates[k];
    }

    /** The pane removed an item: its thread state goes and its thread is terminated. */
    method HandleRemovedItem(key: Key)
      requires Valid()
      modifies this
      ensures Valid()
      ensures old(Linked()) ==> Linked()
      ensures items == Without(old(items), key)
      ensures threadStates == old(threadStates) - {key}
      ensures States() == old(States()) - {key}
      ensures requests == old(requests) + [TerminateThreads(key.0, [key.1])]
      ensures emitted == old(emitted) && showDidNotStopWarning == old(showDidNotStopWarning)
    {
      ValuesOfRemove(threadStates, key);
      items, threadStates := Without(items, key), threadStates - {key};
      Send([TerminateThreads(key.0, [key.1])]);
    }

    /** The thread's state model, created if missing, is marked stopped. */
    method MarkStopped(key: Key) returns (state: Item.ThreadStateModel)
      requires Valid()
      modifies this, threadStates.Values
      ensures Valid()
      ensures threadStates.Keys == old(threadStates).Keys + {key}
      ensures key in threadStates && state == threadStates[key]
      ensures state.status == Item.Stopped && state.stopped
      ensures key !in old(threadStates) ==> fresh(state)
      ensures forall k | k in old(threadStates) :: threadStates[k] == old(threadStates)[k]
      ensures States() == old(States())[key := ThreadState(Item.Stopped, true)]
      ensures old(Linked()) && (key in Keys(items) ==> key in old(threadStates)) ==> Linked()
      ensures items == old(items) && emitted == old(emitted) && requests == old(requests)
      ensures showDidNotStopWarning == old(showDidNotStopWarning)
    {
      if key !in threadStates {
        ResetThreadState(key);
      }
      state := threadStates[key];
      SetStopped(key);
    }

    /** One thread's state model is marked stopped; no other model changes. */
    method SetStopped(key: Key)
      requires Valid() && key in threadStates
      modifies threadStates[key]
      ensures threadStates[key].status == Item.Stopped && threadStates[key].stopped
      ensures States() == old(States())[key := ThreadState(Item.Stopped, true)]
    {
      threadStates[key].stopped := true;
      threadStates[key].status := Item.Stopped;
    }

    /** A new item for the thread, holding its state model, is added to the pane. */
    method OpenItem(key: Key, clientName: string, state: Item.ThreadStateModel)
      requires Valid() && key !in Keys(items) && key in threadStates && state == threadStates[key]
      modifies this
      ensures Valid()
      ensures old(Linked()) ==> Linked()
      ensures |items| == |old(items)| + 1 && items[..|old(items)|] == old(items)
      ensures fresh(items[|old(items)|])
      ensures KeyOf(items[|old(items)|]) == key && items[|old(items)|].clientName == clientName
      ensures items[|old(items)|].threadState == state
      ensures items[|old(items)|].State() == Item.ItemState(Item.Variables, false, state.status, 0, [], "", [], [], [])
      ensures threadStates == old(threadStates) && States() == old(States())
      ensures emitted == old(emitted) && requests == old(requests)
      ensures showDidNotStopWarning == old(showDidNotStopWarning)
    {
      var tab := new Item.DebugPanelItem(key.0, clientName, key.1, state);
      KeysSnoc(items, tab);
      DistinctSnoc(Keys(items), key);
      items := items + [tab];
    }

    /**
     * A stop. Without a thread id, or for a client the store does not
     * know (`clientName` is the name of its adapter, if it knows it),
     * nothing happens. Otherwise the thread's state model is created if
     * missing and marked stopped, and an item holding that model is
     * opened unless the thread already has one (the new one becomes
     * active). The stop is published, asking the items to show the stack
     * frame when the active item is the thread's or there is none.
     */
    method HandleStoppedEvent(client: ClientId, thread: Option<ThreadId>, clientName: Option<string>, activeItem: Option<Key>)
      requires Valid()
      modifies this, threadStates.Values
      ensures Valid()
      ensures requests == old(requests) && showDidNotStopWarning == old(showDidNotStopWarning)
      ensures (thread.None? || clientName.None?) ==>
                threadStates == old(threadStates) && States() == old(States()) && items == old(items) && emitted == old(emitted)
      ensures (thread.Some? && clientName.Some?) ==>
                var key := (client, thread.value);
                && threadStates.Keys == old(threadStates).Keys + {key}
                && States() == old(States())[key := ThreadState(Item.Stopped, true)]
                && (forall k | k in old(threadStates) :: threadStates[k] == old(threadStates)[k])
                && (key !in old(threadStates) ==> fresh(threadStates[key]))
      ensures (thread.Some? && clientName.Some? && (client, thread.value) in old(Keys(items))) ==> items == old(items)
      ensures (thread.Some? && clientName.Some? && (client, thread.value) !in old(Keys(items))) ==>
                && |items| == |old(items)| + 1 && items[..|old(items)|] == old(items)
                && fresh(items[|old(items)|])
                && KeyOf(items[|old(items)|]) == (client, thread.value)
                && items[|old(items)|].clientName == clientName.value
                && (client, thread.value) in threadStates
                && items[|old(items)|].threadState == threadStates[(client, thread.value)]
                && items[|old(items)|].State() == Item.ItemState(Item.Variables, false, Item.Stopped, 0, [], "", [], [], [])
      ensures (thread.Some? && clientName.Some?) ==>
                emitted == old(emitted) + [Item.StoppedEvent(client, thread,
                  (client, thread.value) !in old(Keys(items)) || activeItem.None? || activeItem == Some((client, thread.value)))]
      ensures old(Linked())
              && ((thread.Some? && clientName.Some? && (client, thread.value) in old(Keys(items)))
                  ==> (client, thread.value) in old(threadStates))
              ==> Linked()
      ensures (thread.Some? && clientName.Some? && Linked()) ==>
                forall it | it in items && KeyOf(it) == (client, thread.value) :: it.State().status == Item.Stopped
    {
      if thread.None? || clientName.None? {
        return;
      }
      var key := (client, thread.value);
      var state := MarkStopped(key);
      var existing := key in Keys(items);
      var active := activeItem;
      if !existing {
        OpenItem(key, clientName.value, state);
        active := Some(key);
      }
      var goToStackFrame := active.None? || active == Some(key);
      Publish(Item.StoppedEvent(client, thread, goToStackFrame));
    }

    /**
     * A stop, a Continue from the thread's item and a second stop: the
     * item sees the panel's update to the state model it shares, so its
     * status, and with it its toolbar, is Stopped again.
     */
    static method StopContinueStop() returns (first: Item.ThreadStatus, continued: Item.ThreadStatus, last: Item.ThreadStatus)
      ensures first == Item.Stopped && continued == Item.Running && last == Item.Stopped
    {
      var panel := new DebugPanel();
      panel.HandleStoppedEvent(1, Some(7), Some("gdb"), None);
      var item := panel.items[0];
      first := item.threadState.status;
      item.ContinueThreadAction();
      continued := item.threadState.status;
      panel.HandleStoppedEvent(1, Some(7), Some("gdb"), None);
      last := item.threadState.status;
    }

    /** Requests go out to the store, the project or the terminal panel; nothing else changes. */
    method Send(rs: seq<Request>)
      modifies this
      ensures requests == old(requests) + rs
      ensures threadStates == old(threadStates) && States() == old(States()) && items == old(items)
      ensures Valid() == old(Valid()) && Linked() == old(Linked())
      ensures emitted == old(emitted) && showDidNotStopWarning == old(showDidNotStopWarning)
    {
      requests := requests + rs;
    }

    /** An event goes out to the items; nothing else changes. */
    method Publish(e: Item.PanelEvent)
      modifies this
      ensures emitted == old(emitted) + [e]
      ensures threadStates == old(threadStates) && States() == old(States()) && items == old(items)
      ensures Valid() == old(Valid()) && Linked() == old(Linked())
      ensures requests == old(requests) && showDidNotStopWarning == old(showDidNotStopWarning)
    {
      emitted := emitted + [e];
    }

    /**
     * A thread event. A known thread that exits without ever having
     * stopped raises the did-not-stop warning; a started thread gets a
     * fresh default state model, replacing any earlier one, so an item
     * already open for it keeps the old model. The event is published
     * either way.
     */
    method HandleThreadEvent(client: ClientId, thread: ThreadId, reason: ThreadEventReason)
      requires Valid()
      modifies this
      ensures Valid()
      ensures showDidNotStopWarning ==
                (old(showDidNotStopWarning) ||
                 ((client, thread) in old(States()) && !old(States())[(client, thread)].stopped && reason.Exited?))
      ensures reason.Started? ==>
                && threadStates.Keys == old(threadStates).Keys + {(client, thread)}
                && States() == old(States())[(client, thread) := DefaultThreadState]
                && fresh(threadStates[(client, thread)])
                && (forall k | k in old(threadStates) && k != (client, thread) :: threadStates[k] == old(threadStates)[k])
      ensures reason.Started? ==>
                (client, thread) in threadStates &&
                forall it | it in items && KeyOf(it) == (client, thread) :: it.threadState != threadStates[(client, thread)]
      ensures !reason.Started? ==> threadStates == old(threadStates) && States() == old(States())
      ensures old(Linked()) && !(reason.Started? && (client, thread) in Keys(items)) ==> Linked()
      ensures emitted == old(emitted) + [Item.ThreadEvent(client, thread)]
      ensures items == old(items) && requests == old(requests)
    {
      var key := (client, thread);
      if key in threadStates && !threadStates[key].stopped && reason == Exited {
        showDidNotStopWarning := true;
      }
      if reason == Started {
        ResetThreadState(key);
      }
      Publish(Item.ThreadEvent(client, thread));
    }

    /** A new default state model replaces the thread's; an item already open for it keeps the old one. */
    method ResetThreadState(key: Key)
      requires Valid()
      modifies this
      ensures Valid()
      ensures key in threadStates && fresh(threadStates[key])
      ensures threadStates == old(threadStates)[key := threadStates[key]]
      ensures States() == old(States())[key := DefaultThreadState]
      ensures forall it | it in items && KeyOf(it) == key :: it.threadState != threadStates[key]
      ensures old(Linked()) && key !in Keys(items) ==> Linked()
      ensures items == old(items) && emitted == old(emitted) && requests == old(requests)
      ensures showDidNotStopWarning == old(showDidNotStopWarning)
    {
      var state := new Item.ThreadStateModel();
      ValuesOfInsert(threadStates, key, state);
      threadStates := threadStates[key := state];
    }

    /**
     * A terminated client: every state model in its key range is marked
     * ended, which the items holding them see, the client is restarted
     * when the event asks for it and shut down otherwise, and the event is
     * published.
     */
    method HandleTerminatedEvent(client: ClientId, restartArgs: Option<string>)
      requires Valid()
      modifies this, threadStates.Values
      ensures Valid()
      ensures threadStates == old(threadStates)
      ensures States().Keys == old(States()).Keys
      ensures forall k | k in States() ::
                States()[k] == if InTerminatedRange(k, client) then old(States())[k].(status := Item.Ended)
                               else old(States())[k]
      ensures Linked() ==>
                forall it | it in items && KeyOf(it) in threadStates && InTerminatedRange(KeyOf(it), client) ::
                  it.State().status == Item.Ended
      ensures requests == old(requests) + [if restartArgs.Some? then Restart(client, restartArgs.value) else ShutdownClient(client)]
      ensures emitted == old(emitted) + [Item.TerminatedEvent(client)]
      ensures items == old(items) && showDidNotStopWarning == old(showDidNotStopWarning)
    {
      EndRange(client);
      Send([if restartArgs.Some? then Restart(client, restartArgs.value) else ShutdownClient(client)]);
      Publish(Item.TerminatedEvent(client));
    }

    /** Every state model in the client's key range is marked ended; no other model changes. */
    method EndRange(client: ClientId)
      requires Valid()
      modifies threadStates.Values
      ensures forall k | k in threadStates ::
                && threadStates[k].stopped == old(threadStates[k].stopped)
                && threadStates[k].status == if InTerminatedRange(k, client) then Item.Ended else old(threadStates[k].status)
    {
      var todo := set k | k in threadStates && InTerminatedRange(k, client);
      while todo != {}
        invariant todo <= threadStates.Keys
        invariant unchanged(this)
        invariant forall k | k in threadStates ::
                    && threadStates[k].stopped == old(threadStates[k].stopped)
                    && threadStates[k].status == if InTerminatedRange(k, client) && k !in todo then Item.Ended
                                                 else old(threadStates[k].status)
        invariant forall k | k in todo :: InTerminatedRange(k, client)
        decreases todo
      {
        var k :| k in todo;
        MarkEnded(k);
        todo := todo - {k};
      }
    }

    /** One thread's state model is marked ended; no other model changes. */
    method MarkEnded(k: Key)
      requires Valid() && k in threadStates
      modifies threadStates[k]
      ensures threadStates[k].status == Item.Ended && threadStates[k].stopped == old(threadStates[k].stopped)
      ensures forall k' | k' in threadStates && k' != k ::
                threadStates[k'].status == old(threadStates[k'].status) && threadStates[k'].stopped == old(threadStates[k'].stopped)
    {
      threadStates[k].status := Item.Ended;
    }

    /**
     * The adapter is initialized: capabilities it sends along are merged
     * into the store's and announced; then every breakpoint is sent and
     * the configuration is declared done, in that order.
     */
    method HandleInitializedEvent(client: ClientId, capabilities: Option<D.Capabilities>)
      modifies this
      ensures capabilities.Some? ==>
                requests == old(requests) + [MergeCapabilities(client, capabilities.value), SendBreakpoints(client), ConfigurationDone(client)]
                && emitted == old(emitted) + [Item.CapabilitiesChangedEvent(client)]
      ensures capabilities.None? ==>
                requests == old(requests) + [SendBreakpoints(client), ConfigurationDone(client)] && emitted == old(emitted)
      ensures threadStates == old(threadStates) && items == old(items)
      ensures showDidNotStopWarning == old(showDidNotStopWarning)
    {
      if capabilities.Some? {
        requests := requests + [MergeCapabilities(client, capabilities.value)];
        emitted := emitted + [Item.CapabilitiesChangedEvent(client)];
      }
      requests := requests + [SendBreakpoints(client), ConfigurationDone(client)];
    }

    /** A capabilities event: the new capabilities are merged into the store's and announced. */
    method HandleCapabilitiesChangedEvent(client: ClientId, capabilities: D.Capabilities)
      modifies this
      ensures requests == old(requests) + [MergeCapabilities(client, capabilities)]
      ensures emitted == old(emitted) + [Item.CapabilitiesChangedEvent(client)]
      ensures threadStates == old(threadStates) && items == old(items)
      ensures showDidNotStopWarning == old(showDidNotStopWarning)
    {
      requests := requests + [MergeCapabilities(client, capabilities)];
      emitted := emitted + [Item.CapabilitiesChangedEvent(client)];
    }

    /** Continued, exited, output, module and loaded-source events are only published. */
    method HandlePublishedEvent(e: Item.PanelEvent)
      requires e.ContinuedEvent? || e.ExitedEvent? || e.OutputEvent? || e.ModuleEvent? || e.LoadedSourceEvent?
      modifies this
      ensures emitted == old(emitted) + [e]
      ensures threadStates == old(threadStates) && items == old(items) && requests == old(requests)
      ensures showDidNotStopWarning == old(showDidNotStopWarning)
    {
      emitted := emitted + [e];
    }

    /** The warning's dismiss button. */
    method DismissDidNotStopWarning()
      modifies this
      ensures !showDidNotStopWarning
      ensures threadStates == old(threadStates) && items == old(items) && requests == old(requests) && emitted == old(emitted)
    {
      showDidNotStopWarning := false;
    }

    /**
     * A run-in-terminal request. Without arguments it is refused at
     * once. Otherwise a terminal is spawned with the split command line,
     * and the response reports whether it came up, with its pid.
     */
    method HandleRunInTerminalRequest(client: ClientId, requestSeq: nat, args: Option<RunInTerminalArgs>,
                                      spawned: Result<Option<nat>, string>)
      modifies this
      ensures args.None? ==> requests == old(requests) + [RespondToRunInTerminal(client, false, requestSeq, None)]
      ensures args.Some? ==>
                requests == old(requests) + [
                  SpawnTerminal(SplitCommand(args.value.args).0, SplitCommand(args.value.args).1, args.value.cwd),
                  RespondToRunInTerminal(client, TerminalOutcome(spawned).0, requestSeq, TerminalOutcome(spawned).1)]
      ensures threadStates == old(threadStates) && items == old(items) && emitted == old(emitted)
      ensures showDidNotStopWarning == old(showDidNotStopWarning)
    {
      if args.None? {
        requests := requests + [RespondToRunInTerminal(client, false, requestSeq, None)];
        return;
      }
      var commandArgs := args.value.args;
      var command: Option<string> := None;
      if |commandArgs| > 1 {
        command := Some(commandArgs[0]);
        commandArgs := commandArgs[1..];
      }
      requests := requests + [SpawnTerminal(command, commandArgs, args.value.cwd)];
      var success, pid := false, None;
      match spawned {
        case Ok(p) => success, pid := true, p;
        case Err(_) =>
      }
      requests := requests + [RespondToRunInTerminal(client, success, requestSeq, pid)];
    }
  }
}
