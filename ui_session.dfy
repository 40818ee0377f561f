/**
 * A debug session tab of the debugger panel: a state machine that starts
 * inert (a form for a new session), becomes starting once a session is
 * spawned, and ends running or failed. The states' own views are reduced
 * to the session id each one carries; the one subscription the tab holds
 * is recorded by what it listens to.
 */
module UiSession {
  import opened Wrappers
  import Item = DebuggerPanelItem

  type SessionId = nat

  /** The state of the tab. */
  datatype Mode = Inert | Starting(sessionId: SessionId) | Failed | Running(sessionId: SessionId)

  /** What the tab's one subscription listens to. */
  datatype Subscription = InertState | StartingState | RunningState

  /** The event of the inert form: a session configuration was submitted. */
  datatype InertEvent = Spawned(config: string)

  /** The events of a starting session. */
  datatype StartingEvent = Finished(session: SessionId) | StartFailed

  /** The session id of a mode: only the starting and running states have one. */
  function ModeSessionId(m: Mode): (r: Option<SessionId>)
    ensures r.None? <==> m.Inert? || m.Failed?
    ensures r.Some? ==> r.value == m.sessionId
  {
    match m
    case Inert => None
    case Starting(id) => Some(id)
    case Failed => None
    case Running(id) => Some(id)
  }

  datatype Color = Default | Error

  /** What the tab shows: its label, the label's colour and whether a spinner turns. */
  datatype TabContent = TabContent(text: string, color: Color, spinner: bool)

  function TabContentOf(m: Mode): (t: TabContent)
    ensures t.color == Error <==> m.Failed?
    ensures t.spinner <==> m.Starting?
  {
    TabContent(
      match m
      case Inert => "New Session"
      case Starting(_) => "Starting"
      case Failed => "Failed"
      case Running(_) => "Running",
      if m.Failed? then Error else Default,
      m.Starting?)
  }

  /** The label tells the four states apart, and says nothing about the session id. */
  lemma LabelNamesState(a: Mode, b: Mode)
    ensures TabContentOf(a).text == TabContentOf(b).text <==>
              (a.Inert? == b.Inert? && a.Starting? == b.Starting? && a.Failed? == b.Failed?)
  {
    var la, lb := TabContentOf(a).text, TabContentOf(b).text;
    if la == lb {
      assert la[0] == lb[0];
      if la[0] == 'S' || la[0] == 'F' {
      } else {
        assert la[0] == 'N' || la[0] == 'R';
      }
    }
  }

  class DebugSession {
    var mode: Mode
    var subscription: Subscription
    /** Session ids whose running state was asked to shut down. */
    var shutdowns: seq<SessionId>

    /** A new tab is the inert form, listening to it. */
    constructor InertSession()
      ensures mode == Inert && subscription == InertState && shutdowns == []
    {
      mode := Inert;
      subscription := InertState;
      shutdowns := [];
    }

    /** A tab for a session that is already running. */
    constructor RunningSession(id: SessionId)
      ensures mode == Running(id) && subscription == RunningState && shutdowns == []
    {
      mode := Running(id);
      subscription := RunningState;
      shutdowns := [];
    }

    function SessionId(): (r: Option<SessionId>)
      reads this
      ensures r.None? <==> mode.Inert? || mode.Failed?
      ensures r.Some? ==> r.value == mode.sessionId
    {
      ModeSessionId(mode)
    }

    /** Only a running session is shut down; a starting one is left to run. */
    method Shutdown()
      modifies this
      ensures mode == old(mode) && subscription == old(subscription)
      ensures mode.Running? ==> shutdowns == old(shutdowns) + [mode.sessionId]
      ensures !mode.Running? ==> shutdowns == old(shutdowns)
    {
      match mode {
        case Running(id) => shutdowns := shutdowns + [id];
        case _ =>
      }
    }

    /**
     * The form spawned a session. A project without a worktree is a
     * panic, so a worktree is demanded. When the store is gone nothing
     * happens; otherwise the store's new session id starts, and the tab
     * now listens to the starting state.
     */
    method OnInertEvent(event: InertEvent, hasWorktree: bool, storeAlive: bool, newSessionId: SessionId)
      requires hasWorktree
      modifies this
      ensures shutdowns == old(shutdowns)
      ensures !storeAlive ==> mode == old(mode) && subscription == old(subscription)
      ensures storeAlive ==> mode == Starting(newSessionId) && subscription == StartingState
    {
      if !storeAlive {
        return;
      }
      mode := Starting(newSessionId);
      subscription := StartingState;
    }

    /** The starting state ended: running on success, failed otherwise, whatever the state was before. */
    method OnStartingEvent(event: StartingEvent)
      modifies this
      ensures shutdowns == old(shutdowns) && subscription == old(subscription)
      ensures event.Finished? ==> mode == Running(event.session)
      ensures event.StartFailed? ==> mode == Failed
    {
      if event.Finished? {
        mode := Running(event.session);
      } else if event.StartFailed? {
        mode := Failed;
      }
    }

    /** An opened tab is dropped for an existing one with the same session id, or when neither has one. */
    function DedupWith(existing: DebugSession): (r: Option<Item.Dedup>)
      reads this, existing
      ensures r.Some? <==> existing.SessionId() == SessionId()
      ensures r.Some? ==> r.value == Item.KeepExisting
    {
      if existing.SessionId() == SessionId() then Some(Item.KeepExisting) else None
    }
  }

  /** Two tabs without a session, inert or failed in any combination, dedup. */
  lemma DedupWithoutSessions(a: DebugSession, b: DebugSession)
    requires a.mode.Inert? || a.mode.Failed?
    requires b.mode.Inert? || b.mode.Failed?
    ensures a.DedupWith(b).Some?
  {
  }

  /** A tab with a session never dedups against one without. */
  lemma DedupNeedsBothOrNeither(a: DebugSession, b: DebugSession)
    ensures a.DedupWith(b).Some? ==> (a.SessionId().Some? <==> b.SessionId().Some?)
  {
  }

  /** Dedup is an equivalence on tabs. */
  lemma DedupEquivalence(a: DebugSession, b: DebugSession, c: DebugSession)
    ensures a.DedupWith(a).Some?
    ensures a.DedupWith(b).Some? <==> b.DedupWith(a).Some?
    ensures a.DedupWith(b).Some? && b.DedupWith(c).Some? ==> a.DedupWith(c).Some?
  {
  }
}
