/** Managed agent sessions: the registry, and the run tasks that drive it. */
module AgentSessions {
  import opened Wrappers

  type Id = string
  /** A cancellation token, named by the order of its creation. */
  type Token = nat

  datatype Status = Pending | Running | Paused | Completed | Failed | Cancelled | TimedOut

  const TERMINAL_STATUSES := {Completed, Failed, Cancelled, TimedOut}

  datatype Options = Options(maxAttempts: int, retryDelay: real, persist: bool)

  datatype Session = Session(options: Options, status: Status, attempts: nat, response: Option<string>,
                             error: Option<string>)

  /** How one runtime attempt ends. */
  datatype Outcome =
    | Succeeded(response: string)
    | Stopped(message: string)
    | OutOfTime(response: string, message: string)
    | Unsuccessful(response: string, message: string)
    | Raised(message: string)

  /** Where a run task is: before its next attempt (just created, or asleep
      between two attempts), inside an attempt, or past its last write. */
  datatype Phase = Waiting | Attempting(token: Token, attempt: nat) | Over

  datatype Task = Task(id: Id, phase: Phase)

  datatype State = State(
    registry: map<Id, Session>,
    tokens: map<Id, Token>,
    current: map<Id, nat>,
    paused: set<Id>,
    reasons: map<Id, string>,
    launching: set<Id>,
    tasks: seq<Task>,
    issued: nat,
    stopped: set<Token>)

  const INITIAL := State(map[], map[], map[], {}, map[], {}, [], 0, {})

  /** One section without an await. */
  datatype Event =
    | Execute(id: Id, options: Options)
    | Launch(id: Id)
    | Abandon(id: Id)
    | Begin(task: nat)
    | Finish(task: nat, outcome: Outcome)
    | Kill(task: nat)
    | Pause(id: Id)
    | Cancel(id: Id, reason: string)
    | Resume(id: Id)

  predicate IsTerminal(status: Status) {
    status in TERMINAL_STATUSES
  }

  /** A new token and a new task for it. */
  function Start(s: State, id: Id): State {
    s.(tokens := s.tokens[id := s.issued], issued := s.issued + 1,
       current := s.current[id := |s.tasks|], tasks := s.tasks + [Task(id, Waiting)])
  }

  function Finalize(s: State, id: Id, status: Status, response: Option<string>, error: Option<string>): State
    requires id in s.registry
  {
    var was := s.registry[id];
    s.(registry := s.registry[id := was.(status := status, error := error,
                                         response := if response.Some? then response else was.response)],
       current := s.current - {id}, tokens := s.tokens - {id},
       paused := s.paused - {id}, reasons := s.reasons - {id})
  }

  function HandleCancelled(s: State, id: Id, message: string): State
    requires id in s.registry
  {
    if id in s.paused then Finalize(s, id, Paused, None, None)
    else Finalize(s, id, Cancelled, None, Some(if id in s.reasons then s.reasons[id] else message))
  }

  function SetPhase(s: State, k: nat, phase: Phase): State
    requires k < |s.tasks|
  {
    s.(tasks := s.tasks[k := s.tasks[k].(phase := phase)])
  }

  /** The top of the retry loop of task k. */
  function BeginAttempt(s: State, k: nat): State
    requires k < |s.tasks|
  {
    var id := s.tasks[k].id;
    if id !in s.registry then SetPhase(s, k, Over)
    else
      var was := s.registry[id];
      var marked := s.(registry := s.registry[id := was.(status := Running, attempts := was.attempts + 1,
          error := None)]);
      var ready := if id in s.tokens then marked
                   else marked.(tokens := s.tokens[id := s.issued], issued := s.issued + 1);
      SetPhase(ready, k, Attempting(ready.tokens[id], was.attempts + 1))
  }

  /** The end of an attempt of task k. */
  function EndAttempt(s: State, k: nat, outcome: Outcome): State
    requires k < |s.tasks| && s.tasks[k].id in s.registry && s.tasks[k].phase.Attempting?
  {
    var id := s.tasks[k].id;
    var session := s.registry[id];
    match outcome
    case Succeeded(r) => SetPhase(Finalize(s, id, Completed, Some(r), None), k, Over)
    case Stopped(m) => SetPhase(HandleCancelled(s, id, m), k, Over)
    case OutOfTime(r, m) => SetPhase(Finalize(s, id, TimedOut, Some(r), Some(m)), k, Over)
    case Raised(m) => SetPhase(Finalize(s, id, Failed, None, Some(m)), k, Over)
    case Unsuccessful(r, m) =>
      if s.tasks[k].phase.attempt < session.options.maxAttempts then
        if session.options.retryDelay > 0.0 then SetPhase(s, k, Waiting) else BeginAttempt(s, k)
      else SetPhase(Finalize(s, id, Failed, Some(r), Some(m)), k, Over)
  }

  /** Signals the run of a session to stop. */
  function Signal(s: State, id: Id): State {
    if id in s.tokens then s.(stopped := s.stopped + {s.tokens[id]}) else s
  }

  function Step(s: State, e: Event): State {
    match e
    case Execute(id, options) =>
      if id in s.registry then s
      else
        var registered := s.(registry := s.registry[id := Session(options, Running, 0, None, None)]);
        if options.persist then registered.(launching := s.launching + {id}) else Start(registered, id)
    case Launch(id) => if id in s.launching then Start(s.(launching := s.launching - {id}), id) else s
    case Abandon(id) => s.(launching := s.launching - {id})
    case Begin(k) => if k < |s.tasks| && s.tasks[k].phase == Waiting then BeginAttempt(s, k) else s
    case Finish(k, outcome) =>
      if k < |s.tasks| && s.tasks[k].phase.Attempting? && s.tasks[k].id in s.registry then
          EndAttempt(s, k, outcome) else s
    case Kill(k) =>
      if k >= |s.tasks| then s
      else if s.tasks[k].phase.Attempting? && s.tasks[k].id in s.registry
      then SetPhase(HandleCancelled(s, s.tasks[k].id, "Agent run task cancelled"), k, Over)
      else SetPhase(s, k, Over)
    case Pause(id) =>
      if id !in s.registry || IsTerminal(s.registry[id].status) || s.registry[id].status == Paused then s
      else Signal(s.(paused := s.paused + {id}), id)
    case Cancel(id, reason) =>
      if id !in s.registry || IsTerminal(s.registry[id].status) then s
      else if s.registry[id].status == Paused then Finalize(s, id, Cancelled, None, Some(reason))
      else Signal(s.(reasons := s.reasons[id := reason]), id)
    case Resume(id) =>
      if id !in s.registry || s.registry[id].status != Paused then s
      else Start(s.(paused := s.paused - {id},
                    registry := s.registry[id := s.registry[id].(status := Running, response := None,
                        error := None)]), id)
  }

  /** The session an event is about. */
  function Subject(s: State, e: Event): Option<Id> {
    match e
    case Begin(k) => if k < |s.tasks| then Some(s.tasks[k].id) else None
    case Finish(k, _) => if k < |s.tasks| then Some(s.tasks[k].id) else None
    case Kill(k) => if k < |s.tasks| then Some(s.tasks[k].id) else None
    case Execute(id, _) => Some(id)
    case Launch(id) => Some(id)
    case Abandon(id) => Some(id)
    case Pause(id) => Some(id)
    case Cancel(id, _) => Some(id)
    case Resume(id) => Some(id)
  }

  // ---- the invariant

  /** Task k has not made its last write yet. */
  predicate Live(s: State, k: nat) {
    k < |s.tasks| && !s.tasks[k].phase.Over?
  }

  predicate Runs(s: State, id: Id) {
    id in s.registry && s.registry[id].status == Running
  }

  /** What the last live task of a session holds. */
  ghost predicate TaskOk(s: State, k: nat)
    requires k < |s.tasks|
  {
    var t := s.tasks[k];
    Live(s, k) ==>
      && Runs(s, t.id) && t.id !in s.launching
      && t.id in s.tokens && t.id in s.current && s.current[t.id] == k
      && (t.phase.Attempting? ==> t.phase.token == s.tokens[t.id] && t.phase.attempt == s.registry[t.id].attempts)
  }

  ghost predicate SessionOk(s: State, id: Id) {
    && (id in s.launching ==> Runs(s, id) && id !in s.current && id !in s.tokens)
    && (!Runs(s, id) ==>
          id !in s.tokens && id !in s.current && id !in s.paused && id !in s.reasons)
    && (id in s.registry ==> s.registry[id].status != Pending)
    && (id in s.current ==> s.current[id] < |s.tasks| && s.tasks[s.current[id]].id == id)
  }

  ghost predicate TokensOk(s: State) {
    && (forall id :: id in s.tokens ==> s.tokens[id] < s.issued)
    && (forall i, j :: i in s.tokens && j in s.tokens && s.tokens[i] == s.tokens[j] ==> i == j)
    && (forall t :: t in s.stopped ==> t < s.issued)
  }

  ghost predicate TasksOk(s: State) {
    forall k :: 0 <= k < |s.tasks| ==> TaskOk(s, k)
  }

  ghost predicate SessionsOk(s: State) {
    forall id :: SessionOk(s, id)
  }

  ghost predicate Inv(s: State) {
    TasksOk(s) && SessionsOk(s) && TokensOk(s)
  }

  lemma StartKeeps(s: State, id: Id)
    requires Inv(s) && Runs(s, id) && id !in s.tokens && id !in s.current && id !in s.launching
    ensures Inv(Start(s, id))
  {
    var t := Start(s, id);
    forall k | 0 <= k < |t.tasks| ensures TaskOk(t, k) {
      assert k < |s.tasks| ==> TaskOk(s, k);
    }
    forall i ensures SessionOk(t, i) {
      assert SessionOk(s, i);
    }
  }

  /** Registering, or changing a session no run task holds. */
  lemma RegisterKeeps(s: State, id: Id, session: Session)
    requires Inv(s) && session.status == Running && (id in s.registry ==> s.registry[id].status != Running)
    ensures var t := s.(registry := s.registry[id := session]);
            Inv(t) && id !in t.tokens && id !in t.current && id !in t.launching
  {
    var t := s.(registry := s.registry[id := session]);
    assert SessionOk(s, id);
    forall k | 0 <= k < |t.tasks| ensures TaskOk(t, k) {
      assert TaskOk(s, k);
    }
    forall i ensures SessionOk(t, i) {
      assert SessionOk(s, i);
    }
  }

  lemma LaunchingKeeps(s: State, id: Id)
    requires Inv(s) && Runs(s, id) && id !in s.tokens && id !in s.current
    ensures Inv(s.(launching := s.launching + {id}))
  {
    var t := s.(launching := s.launching + {id});
    forall k | 0 <= k < |t.tasks| ensures TaskOk(t, k) {
      assert TaskOk(s, k);
    }
    forall i ensures SessionOk(t, i) {
      assert SessionOk(s, i);
    }
  }

  lemma LaunchedKeeps(s: State, id: Id)
    requires Inv(s)
    ensures Inv(s.(launching := s.launching - {id}))
  {
    var t := s.(launching := s.launching - {id});
    forall k | 0 <= k < |t.tasks| ensures TaskOk(t, k) {
      assert TaskOk(s, k);
    }
    forall i ensures SessionOk(t, i) {
      assert SessionOk(s, i);
    }
  }

  /** The only live task of a session makes its last write. */
  lemma LastWriteKeeps(s: State, k: nat, status: Status, response: Option<string>, error: Option<string>)
    requires Inv(s) && Live(s, k) && s.tasks[k].id in s.registry && status != Running && status != Pending
    ensures Inv(SetPhase(Finalize(s, s.tasks[k].id, status, response, error), k, Over))
  {
    var id := s.tasks[k].id;
    var t := SetPhase(Finalize(s, id, status, response, error), k, Over);
    assert TaskOk(s, k);
    forall j | 0 <= j < |t.tasks| ensures TaskOk(t, j) {
      assert TaskOk(s, j);
    }
    forall i ensures SessionOk(t, i) {
      assert SessionOk(s, i);
    }
  }

  /** A paused session is finalized by cancel, while no task of it lives. */
  lemma CancelPausedKeeps(s: State, id: Id, error: Option<string>)
    requires Inv(s) && id in s.registry && s.registry[id].status == Paused
    ensures Inv(Finalize(s, id, Cancelled, None, error))
  {
    var t := Finalize(s, id, Cancelled, None, error);
    forall j | 0 <= j < |t.tasks| ensures TaskOk(t, j) {
      assert TaskOk(s, j);
    }
    forall i ensures SessionOk(t, i) {
      assert SessionOk(s, i);
    }
  }

  lemma BeginKeeps(s: State, k: nat)
    requires Inv(s) && Live(s, k)
    ensures Inv(BeginAttempt(s, k))
  {
    var id := s.tasks[k].id;
    var t := BeginAttempt(s, k);
    assert TaskOk(s, k);
    assert t.tokens == s.tokens && t.current == s.current;
    forall j | 0 <= j < |t.tasks| ensures TaskOk(t, j) {
      assert TaskOk(s, j);
    }
    forall i ensures SessionOk(t, i) {
      assert SessionOk(s, i);
    }
  }

  lemma SetPhaseKeeps(s: State, k: nat, phase: Phase)
    requires Inv(s) && k < |s.tasks| && (phase.Over? || (phase.Waiting? && Live(s, k)))
    ensures Inv(SetPhase(s, k, phase))
  {
    var t := SetPhase(s, k, phase);
    forall j | 0 <= j < |t.tasks| ensures TaskOk(t, j) {
      assert TaskOk(s, j);
    }
    forall i ensures SessionOk(t, i) {
      assert SessionOk(s, i);
    }
  }

  /** Leaving a mark on a running session. */
  lemma MarkKeeps(s: State, id: Id, paused: set<Id>, reasons: map<Id, string>)
    requires Inv(s) && Runs(s, id)
    requires paused <= s.paused + {id} && reasons.Keys <= s.reasons.Keys + {id}
    ensures Inv(Signal(s.(paused := paused, reasons := reasons), id))
  {
    var t := Signal(s.(paused := paused, reasons := reasons), id);
    forall j | 0 <= j < |t.tasks| ensures TaskOk(t, j) {
      assert TaskOk(s, j);
    }
    forall i ensures SessionOk(t, i) {
      assert SessionOk(s, i);
      assert i in t.reasons ==> i in t.reasons.Keys;
    }
  }

  lemma HandleCancelledKeeps(s: State, k: nat, message: string)
    requires Inv(s) && Live(s, k) && s.tasks[k].id in s.registry
    ensures Inv(SetPhase(HandleCancelled(s, s.tasks[k].id, message), k, Over))
  {
    var id := s.tasks[k].id;
    hide Inv, Live, SetPhase, Finalize;
    LastWriteKeeps(s, k, Paused, None, None);
    LastWriteKeeps(s, k, Cancelled, None, Some(if id in s.reasons then s.reasons[id] else message));
  }

  lemma EndKeeps(s: State, k: nat, outcome: Outcome)
    requires Inv(s) && Live(s, k) && s.tasks[k].id in s.registry && s.tasks[k].phase.Attempting?
    ensures Inv(EndAttempt(s, k, outcome))
  {
    hide Inv, SetPhase, Finalize, BeginAttempt, HandleCancelled;
    match outcome
    case Succeeded(r) => LastWriteKeeps(s, k, Completed, Some(r), None);
    case Stopped(m) => HandleCancelledKeeps(s, k, m);
    case OutOfTime(r, m) => LastWriteKeeps(s, k, TimedOut, Some(r), Some(m));
    case Raised(m) => LastWriteKeeps(s, k, Failed, None, Some(m));
    case Unsuccessful(r, m) =>
      SetPhaseKeeps(s, k, Waiting);
      BeginKeeps(s, k);
      LastWriteKeeps(s, k, Failed, Some(r), Some(m));
  }

  lemma ExecuteKeeps(s: State, id: Id, options: Options)
    requires Inv(s)
    ensures Inv(Step(s, Execute(id, options)))
  {
    var session := Session(options, Running, 0, None, None);
    var t := s.(registry := s.registry[id := session]);
    if id !in s.registry {
      RegisterKeeps(s, id, session);
      LaunchingKeeps(t, id);
      StartKeeps(t, id);
    }
  }

  lemma LaunchKeeps(s: State, id: Id)
    requires Inv(s)
    ensures Inv(Step(s, Launch(id)))
  {
    LaunchedKeeps(s, id);
    assert SessionOk(s, id);
    if id in s.launching {
      StartKeeps(s.(launching := s.launching - {id}), id);
    }
  }

  lemma ResumeKeeps(s: State, id: Id)
    requires Inv(s)
    ensures Inv(Step(s, Resume(id)))
  {
    if id in s.registry && s.registry[id].status == Paused {
      assert SessionOk(s, id);
      assert s.paused - {id} == s.paused;
      var session := s.registry[id].(status := Running, response := None, error := None);
      RegisterKeeps(s, id, session);
      StartKeeps(s.(registry := s.registry[id := session]), id);
      assert s.(paused := s.paused - {id}, registry := s.registry[id := session]) ==
          s.(registry := s.registry[id := session]);
    }
  }

  lemma NeverPending(s: State, id: Id)
    requires Inv(s) && id in s.registry && !IsTerminal(s.registry[id].status) && s.registry[id].status != Paused
    ensures Runs(s, id)
  {
    assert SessionOk(s, id);
  }

  lemma StepKeeps(s: State, e: Event)
    requires Inv(s)
    ensures Inv(Step(s, e))
  {
    hide SetPhase, Finalize, BeginAttempt, HandleCancelled, EndAttempt, Signal, TasksOk, SessionsOk, TokensOk;
    match e
    case Execute(id, options) => ExecuteKeeps(s, id, options);
    case Launch(id) => LaunchKeeps(s, id);
    case Abandon(id) => LaunchedKeeps(s, id);
    case Begin(k) =>
      if Live(s, k) {
        BeginKeeps(s, k);
      }
    case Finish(k, outcome) =>
      if Live(s, k) && s.tasks[k].phase.Attempting? && s.tasks[k].id in s.registry {
        EndKeeps(s, k, outcome);
      }
    case Kill(k) =>
      if k < |s.tasks| {
        SetPhaseKeeps(s, k, Over);
        if Live(s, k) && s.tasks[k].id in s.registry {
          HandleCancelledKeeps(s, k, "Agent run task cancelled");
        }
      }
    case Pause(id) =>
      if id in s.registry && !IsTerminal(s.registry[id].status) && s.registry[id].status != Paused {
        NeverPending(s, id);
        MarkKeeps(s, id, s.paused + {id}, s.reasons);
      }
    case Cancel(id, reason) =>
      if id in s.registry && !IsTerminal(s.registry[id].status) {
        if s.registry[id].status == Paused {
          CancelPausedKeeps(s, id, Some(reason));
        } else {
          NeverPending(s, id);
          MarkKeeps(s, id, s.paused, s.reasons[id := reason]);
        }
      }
    case Resume(id) => ResumeKeeps(s, id);
  }

  // ---- whole runs

  /** The manager after the first n sections. */
  ghost function At(es: seq<Event>, n: nat): State
    requires n <= |es|
  {
    if n == 0 then INITIAL else Step(At(es, n - 1), es[n - 1])
  }

  lemma {:induction false} AtKeeps(es: seq<Event>, n: nat)
    requires n <= |es|
    ensures Inv(At(es, n))
  {
    if n > 0 {
      AtKeeps(es, n - 1);
      StepKeeps(At(es, n - 1), es[n - 1]);
    }
  }

  /** Whatever the interleaving, at most one task, started or about to be,
      can still change a session, and only while the session is running. */
  lemma OneWriter(es: seq<Event>, n: nat, j: nat, k: nat)
    requires n <= |es| && Live(At(es, n), j) && Live(At(es, n), k)
    requires At(es, n).tasks[j].id == At(es, n).tasks[k].id
    ensures j == k
    ensures Runs(At(es, n), At(es, n).tasks[j].id) && At(es, n).tasks[j].id !in At(es, n).launching
  {
    AtKeeps(es, n);
    assert TaskOk(At(es, n), j) && TaskOk(At(es, n), k);
  }

  /** What a state says of one session. */
  ghost predicate SameSession(s: State, t: State, id: Id) {
    && (id in s.registry <==> id in t.registry) && (id in s.registry ==> t.registry[id] == s.registry[id])
    && (id in s.tokens <==> id in t.tokens)
    && (id in s.tokens ==> t.tokens[id] == s.tokens[id] && (s.tokens[id] in t.stopped <==> s.tokens[id] in s.stopped))
    && (id in s.current <==> id in t.current) && (id in s.current ==> t.current[id] == s.current[id])
    && (id in s.paused <==> id in t.paused)
    && (id in s.reasons <==> id in t.reasons) && (id in s.reasons ==> t.reasons[id] == s.reasons[id])
    && (id in s.launching <==> id in t.launching)
  }

  /** The tasks of a session are those it had, unchanged. */
  ghost predicate SameTasks(s: State, t: State, id: Id) {
    && |s.tasks| <= |t.tasks|
    && forall k :: 0 <= k < |t.tasks| ==> TaskUnchanged(s, t, k, id)
  }

  ghost predicate TaskUnchanged(s: State, t: State, k: nat, id: Id)
    requires k < |t.tasks|
  {
    if k < |s.tasks| then t.tasks[k].id == s.tasks[k].id && (s.tasks[k].id == id ==> t.tasks[k] == s.tasks[k])
    else t.tasks[k].id != id
  }

  ghost predicate Same(s: State, t: State, id: Id) {
    SameSession(s, t, id) && SameTasks(s, t, id)
  }

  lemma SameTrans(s: State, t: State, u: State, id: Id)
    requires Same(s, t, id) && Same(t, u, id)
    ensures Same(s, u, id)
  {
    forall k | 0 <= k < |u.tasks| ensures TaskUnchanged(s, u, k, id) {
      assert TaskUnchanged(t, u, k, id);
      if k < |t.tasks| {
        assert TaskUnchanged(s, t, k, id);
      }
    }
  }

  lemma FinalizeSame(s: State, other: Id, id: Id, status: Status, response: Option<string>, error: Option<string>)
    requires other != id && other in s.registry
    ensures Same(s, Finalize(s, other, status, response, error), id)
  {
  }

  lemma SetPhaseSame(s: State, k: nat, phase: Phase, id: Id)
    requires k < |s.tasks| && s.tasks[k].id != id
    ensures Same(s, SetPhase(s, k, phase), id)
  {
  }

  lemma BeginSame(s: State, k: nat, id: Id)
    requires k < |s.tasks| && s.tasks[k].id != id
    ensures Same(s, BeginAttempt(s, k), id)
  {
  }

  /** Changing the registry, the marks and the launches of another session. */
  lemma MarksSame(s: State, t: State, other: Id, id: Id)
    requires other != id
    requires t == s.(registry := t.registry, paused := t.paused, reasons := t.reasons, launching := t.launching)
    requires t.registry - {other} == s.registry - {other} && t.reasons - {other} == s.reasons - {other}
    requires t.paused - {other} == s.paused - {other} && t.launching - {other} == s.launching - {other}
    ensures Same(s, t, id)
  {
    assert id in t.registry <==> id in t.registry - {other};
    assert id in s.registry <==> id in s.registry - {other};
    assert id in s.registry ==> s.registry[id] == (s.registry - {other})[id] == (t.registry - {other})[id];
    assert id in t.reasons <==> id in t.reasons - {other};
    assert id in s.reasons <==> id in s.reasons - {other};
    assert id in s.reasons ==> s.reasons[id] == (s.reasons - {other})[id] == (t.reasons - {other})[id];
    assert id in t.paused <==> id in t.paused - {other};
    assert id in s.paused <==> id in s.paused - {other};
    assert id in t.launching <==> id in t.launching - {other};
    assert id in s.launching <==> id in s.launching - {other};
  }

  // ---- what a task's section does

  /** The last write of task k. */
  ghost predicate LastWrite(s: State, k: nat, t: State)
    requires k < |s.tasks| && s.tasks[k].id in s.registry
  {
    exists status: Status, response: Option<string>, error: Option<string> ::
      status != Running && status != Pending &&
      t == SetPhase(Finalize(s, s.tasks[k].id, status, response, error), k, Over)
  }

  predicate MayRetry(s: State, k: nat)
    requires k < |s.tasks| && s.tasks[k].id in s.registry
  {
    s.tasks[k].phase.Attempting? ==> s.tasks[k].phase.attempt < s.registry[s.tasks[k].id].options.maxAttempts
  }

  lemma FinalizeIsLastWrite(s: State, k: nat, status: Status, response: Option<string>, error: Option<string>)
    requires k < |s.tasks| && s.tasks[k].id in s.registry && status != Running && status != Pending
    ensures LastWrite(s, k, SetPhase(Finalize(s, s.tasks[k].id, status, response, error), k, Over))
  {
  }

  lemma CancelledIsLastWrite(s: State, k: nat, message: string)
    requires k < |s.tasks| && s.tasks[k].id in s.registry
    ensures LastWrite(s, k, SetPhase(HandleCancelled(s, s.tasks[k].id, message), k, Over))
  {
    var id := s.tasks[k].id;
    hide LastWrite, SetPhase, Finalize;
    FinalizeIsLastWrite(s, k, Paused, None, None);
    FinalizeIsLastWrite(s, k, Cancelled, None, Some(if id in s.reasons then s.reasons[id] else message));
  }

  /** What the sections of a live task can do. */
  ghost predicate TaskSection(s: State, k: nat, t: State)
    requires k < |s.tasks| && s.tasks[k].id in s.registry
  {
    || t == s || t == SetPhase(s, k, Over) || LastWrite(s, k, t)
    || (MayRetry(s, k) && (t == SetPhase(s, k, Waiting) || t == BeginAttempt(s, k)))
  }

  predicate OfTask(s: State, e: Event) {
    (e.Begin? || e.Finish? || e.Kill?) && Live(s, e.task)
  }

  lemma StepIsSection(s: State, e: Event)
    requires Inv(s) && OfTask(s, e)
    ensures s.tasks[e.task].id in s.registry && TaskSection(s, e.task, Step(s, e))
  {
    assert TaskOk(s, e.task);
    hide LastWrite, SetPhase, Finalize, BeginAttempt, HandleCancelled, EndAttempt;
    if e.Kill? {
      CancelledIsLastWrite(s, e.task, "Agent run task cancelled");
    }
  }

  lemma DeadTasksDoNothing(s: State, e: Event)
    requires (e.Begin? || e.Finish? || e.Kill?) && !OfTask(s, e)
    ensures Step(s, e) == s
  {
  }

  lemma SectionSame(s: State, k: nat, t: State, id: Id)
    requires k < |s.tasks| && s.tasks[k].id in s.registry && TaskSection(s, k, t) && s.tasks[k].id != id
    ensures Same(s, t, id)
  {
    SetPhaseSame(s, k, Over, id);
    SetPhaseSame(s, k, Waiting, id);
    BeginSame(s, k, id);
    if LastWrite(s, k, t) {
      var status, response, error :| status != Running && status != Pending &&
        t == SetPhase(Finalize(s, s.tasks[k].id, status, response, error), k, Over);
      FinalizeSame(s, s.tasks[k].id, id, status, response, error);
      SetPhaseSame(Finalize(s, s.tasks[k].id, status, response, error), k, Over, id);
      SameTrans(s, Finalize(s, s.tasks[k].id, status, response, error), t, id);
    }
    hide SetPhase, BeginAttempt, Finalize, Same, LastWrite;
    assert t == s ==> Same(s, t, id) by { SameRefl(s, id); }
  }

  lemma SameRefl(s: State, id: Id)
    ensures Same(s, s, id)
  {
  }

  lemma StartAfterSame(s: State, t: State, other: Id, id: Id)
    requires Same(s, t, id) && other != id
    ensures Same(s, Start(t, other), id)
  {
    hide Same;
    SameTrans(s, t, Start(t, other), id);
  }

  lemma SignalAfterSame(s: State, t: State, other: Id, id: Id)
    requires Same(s, t, id) && other != id && TokensOk(t)
    ensures Same(s, Signal(t, other), id)
  {
    hide Same;
    SameTrans(s, t, Signal(t, other), id);
  }

  /** No section of one session changes anything about another, or stops its
      token. */
  lemma StepTouchesOne(s: State, e: Event, id: Id)
    requires Inv(s) && Subject(s, e) != Some(id)
    ensures Same(s, Step(s, e), id)
  {
    hide Same, TaskSection, Start, Signal, Finalize;
    SameRefl(s, id);
    match e
    case Begin(_) => TaskTouchesOne(s, e, id);
    case Finish(_, _) => TaskTouchesOne(s, e, id);
    case Kill(_) => TaskTouchesOne(s, e, id);
    case Execute(other, options) =>
      var t := s.(registry := s.registry[other := Session(options, Running, 0, None, None)]);
      MarksSame(s, t, other, id);
      MarksSame(s, t.(launching := s.launching + {other}), other, id);
      StartAfterSame(s, t, other, id);
    case Launch(other) =>
      var t := s.(launching := s.launching - {other});
      MarksSame(s, t, other, id);
      StartAfterSame(s, t, other, id);
    case Abandon(other) => MarksSame(s, s.(launching := s.launching - {other}), other, id);
    case Pause(other) =>
      var t := s.(paused := s.paused + {other});
      MarksSame(s, t, other, id);
      SignalAfterSame(s, t, other, id);
    case Cancel(other, reason) =>
      var t := s.(reasons := s.reasons[other := reason]);
      MarksSame(s, t, other, id);
      SignalAfterSame(s, t, other, id);
      if other in s.registry {
        FinalizeSame(s, other, id, Cancelled, None, Some(reason));
      }
    case Resume(other) =>
      if other in s.registry {
        var t := s.(paused := s.paused - {other},
                    registry := s.registry[other := s.registry[other].(status := Running, response := None,
                        error := None)]);
        MarksSame(s, t, other, id);
        StartAfterSame(s, t, other, id);
      }
  }

  lemma TaskTouchesOne(s: State, e: Event, id: Id)
    requires Inv(s) && (e.Begin? || e.Finish? || e.Kill?) && Subject(s, e) != Some(id)
    ensures Same(s, Step(s, e), id)
  {
    hide Same, TaskSection, Step;
    if OfTask(s, e) {
      StepIsSection(s, e);
      SectionSame(s, e.task, Step(s, e), id);
    } else {
      DeadTasksDoNothing(s, e);
      SameRefl(s, id);
    }
  }

  /** The status changes the protocol makes. */
  predicate Transition(before: Status, after: Status) {
    || before == after
    || (before == Running && (after == Paused || IsTerminal(after)))
    || (before == Paused && (after == Running || after == Cancelled))
  }

  ghost predicate Follows(s: State, t: State, id: Id) {
    id in s.registry ==>
      && id in t.registry && t.registry[id].options == s.registry[id].options
      && Transition(s.registry[id].status, t.registry[id].status)
      && (IsTerminal(s.registry[id].status) ==> t.registry[id] == s.registry[id])
  }

  lemma SectionFollows(s: State, k: nat, t: State, id: Id)
    requires Inv(s) && Live(s, k) && s.tasks[k].id in s.registry && TaskSection(s, k, t)
    ensures Follows(s, t, id)
  {
    assert TaskOk(s, k);
  }

  lemma StepFollows(s: State, e: Event, id: Id)
    requires Inv(s)
    ensures Follows(s, Step(s, e), id)
  {
    if e.Begin? || e.Finish? || e.Kill? {
      hide TaskSection, Step, Follows;
      if OfTask(s, e) {
        StepIsSection(s, e);
        SectionFollows(s, e.task, Step(s, e), id);
      } else {
        DeadTasksDoNothing(s, e);
        assert Follows(s, s, id) by { FollowsRefl(s, id); }
      }
    } else if id in s.registry {
      assert SessionOk(s, id);
    }
  }

  lemma FollowsRefl(s: State, id: Id)
    ensures Follows(s, s, id)
  {
  }

  /** A session that has reached a terminal status is never changed again. */
  lemma {:induction false} TerminalIsFinal(es: seq<Event>, i: nat, n: nat, id: Id)
    requires i <= n <= |es| && id in At(es, i).registry && IsTerminal(At(es, i).registry[id].status)
    ensures id in At(es, n).registry && At(es, n).registry[id] == At(es, i).registry[id]
  {
    hide Inv, Step, Transition;
    if i < n {
      TerminalIsFinal(es, i, n - 1, id);
      AtKeeps(es, n - 1);
      StepFollows(At(es, n - 1), es[n - 1], id);
    }
  }

  // ---- how sessions end

  predicate HasStatus(s: State, id: Id, status: Status) {
    id in s.registry && s.registry[id].status == status
  }

  /** The attempt that task k is in. */
  predicate InAttempt(s: State, k: nat, id: Id) {
    k < |s.tasks| && s.tasks[k].id == id && s.tasks[k].phase.Attempting?
  }

  /** The section is the runtime's answer to an attempt of the session. */
  predicate Answers(s: State, e: Event, id: Id) {
    e.Finish? && InAttempt(s, e.task, id)
  }

  /** The attempt stops: the runtime honours the token, or the task is killed. */
  predicate Stops(s: State, e: Event, id: Id) {
    (Answers(s, e, id) && e.outcome.Stopped?) || (e.Kill? && InAttempt(s, e.task, id))
  }

  /** An unsuccessful attempt with none left after it. */
  predicate Exhausts(s: State, e: Event, id: Id) {
    && Answers(s, e, id) && e.outcome.Unsuccessful? && id in s.registry
    && s.tasks[e.task].phase.attempt >= s.registry[id].options.maxAttempts
  }

  /** The sections that bring a session to a terminal status. */
  predicate EndsIn(s: State, e: Event, id: Id, status: Status) {
    match status
    case Completed => Answers(s, e, id) && e.outcome.Succeeded?
    case TimedOut => Answers(s, e, id) && e.outcome.OutOfTime?
    case Failed => (Answers(s, e, id) && e.outcome.Raised?) || Exhausts(s, e, id)
    case Cancelled => (Stops(s, e, id) && id !in s.paused) || (e.Cancel? && e.id == id && HasStatus(s, id, Paused))
    case _ => false
  }

  /** What such a section leaves in the session. */
  predicate Leaves(e: Event, session: Session) {
    match e
    case Finish(_, Succeeded(r)) => session.response == Some(r) && session.error == None
    case Finish(_, OutOfTime(r, m)) => session.response == Some(r) && session.error == Some(m)
    case Finish(_, Raised(m)) => session.error == Some(m)
    case Finish(_, Unsuccessful(r, m)) => session.response == Some(r) && session.error == Some(m)
    case Cancel(_, reason) => session.error == Some(reason)
    case _ => session.error.Some?
  }

  lemma AnswerRuns(s: State, k: nat, id: Id)
    requires Inv(s) && InAttempt(s, k, id)
    ensures Live(s, k) && Runs(s, id)
  {
    assert TaskOk(s, k);
  }

  lemma NewStatus(s: State, id: Id, status: Status, response: Option<string>, error: Option<string>, k: nat)
    requires id in s.registry && k < |s.tasks|
    ensures var t := SetPhase(Finalize(s, id, status, response, error), k, Over);
            && HasStatus(t, id, status) && t.registry[id].error == error
            && (response.Some? ==> t.registry[id].response == response)
  {
  }

  lemma StoppedStatus(s: State, k: nat, id: Id, message: string)
    requires id in s.registry && k < |s.tasks|
    ensures var t := SetPhase(HandleCancelled(s, id, message), k, Over);
            && HasStatus(t, id, if id in s.paused then Paused else Cancelled)
            && (id !in s.paused ==> t.registry[id].error.Some?)
  {
  }

  /** A try that is not the last: the session goes on running, the same task
      waiting or already in its next attempt. */
  lemma RetriesOn(s: State, k: nat, id: Id, response: string, message: string)
    requires Inv(s) && InAttempt(s, k, id) && !Exhausts(s, Finish(k, Unsuccessful(response, message)), id)
    ensures var t, attempt := Step(s, Finish(k, Unsuccessful(response, message))), s.tasks[k].phase.attempt;
            && Runs(t, id) && Live(t, k) && t.tasks[k].id == id
            && (if s.registry[id].options.retryDelay > 0.0 then t.tasks[k].phase == Waiting
                else t.tasks[k].phase.Attempting? && t.tasks[k].phase.attempt == attempt + 1)
            && t.registry[id].attempts == attempt + if s.registry[id].options.retryDelay > 0.0 then 0 else 1
  {
    assert TaskOk(s, k);
  }

  lemma NothingToAnswer(s: State, e: Event, id: Id)
    requires e.Finish? && Subject(s, e) == Some(id) && !Answers(s, e, id)
    ensures Step(s, e) == s
  {
  }

  lemma UnsuccessfulEnds(s: State, e: Event, id: Id, status: Status)
    requires Inv(s) && Answers(s, e, id) && e.outcome.Unsuccessful? && IsTerminal(status)
    ensures HasStatus(Step(s, e), id, status) <==> EndsIn(s, e, id, status)
    ensures EndsIn(s, e, id, status) ==> Leaves(e, Step(s, e).registry[id])
  {
    AnswerRuns(s, e.task, id);
    NewStatus(s, id, Failed, Some(e.outcome.response), Some(e.outcome.message), e.task);
    if !Exhausts(s, e, id) {
      RetriesOn(s, e.task, id, e.outcome.response, e.outcome.message);
    }
    hide Inv, Finalize, SetPhase, BeginAttempt;
  }

  lemma FinishEnds(s: State, e: Event, id: Id, status: Status)
    requires Inv(s) && Answers(s, e, id) && IsTerminal(status)
    ensures HasStatus(Step(s, e), id, status) <==> EndsIn(s, e, id, status)
    ensures EndsIn(s, e, id, status) ==> Leaves(e, Step(s, e).registry[id])
  {
    AnswerRuns(s, e.task, id);
    match e.outcome
    case Succeeded(r) => NewStatus(s, id, Completed, Some(r), None, e.task);
    case OutOfTime(r, m) => NewStatus(s, id, TimedOut, Some(r), Some(m), e.task);
    case Raised(m) => NewStatus(s, id, Failed, None, Some(m), e.task);
    case Stopped(m) => StoppedStatus(s, e.task, id, m);
    case Unsuccessful(_, _) =>
      UnsuccessfulEnds(s, e, id, status);
      hide Step, EndsIn, Leaves;
    hide Inv, Finalize, SetPhase, HandleCancelled, BeginAttempt;
  }

  lemma KillEnds(s: State, k: nat, id: Id, status: Status)
    requires Inv(s) && k < |s.tasks| && s.tasks[k].id == id && IsTerminal(status)
    ensures HasStatus(Step(s, Kill(k)), id, status) <==>
              HasStatus(s, id, status) || EndsIn(s, Kill(k), id, status)
    ensures EndsIn(s, Kill(k), id, status) ==> Leaves(Kill(k), Step(s, Kill(k)).registry[id])
  {
    if InAttempt(s, k, id) {
      AnswerRuns(s, k, id);
      StoppedStatus(s, k, id, "Agent run task cancelled");
      hide Inv, SetPhase, HandleCancelled;
    }
  }

  lemma BeginEnds(s: State, k: nat, id: Id)
    requires Inv(s) && k < |s.tasks| && s.tasks[k].id == id
    ensures forall status :: IsTerminal(status) ==>
              (HasStatus(Step(s, Begin(k)), id, status) <==> HasStatus(s, id, status))
  {
    assert TaskOk(s, k);
  }

  lemma OtherEnds(s: State, e: Event, id: Id, status: Status)
    requires Inv(s) && IsTerminal(status) && Subject(s, e) == Some(id) && !e.Begin? && !e.Finish? && !e.Kill?
    ensures HasStatus(Step(s, e), id, status) <==> HasStatus(s, id, status) || EndsIn(s, e, id, status)
    ensures EndsIn(s, e, id, status) ==> Leaves(e, Step(s, e).registry[id])
  {
    hide Inv;
  }

  lemma StepEnds(s: State, e: Event, id: Id, status: Status)
    requires Inv(s) && IsTerminal(status)
    ensures HasStatus(Step(s, e), id, status) <==> HasStatus(s, id, status) || EndsIn(s, e, id, status)
    ensures EndsIn(s, e, id, status) ==> Leaves(e, Step(s, e).registry[id])
  {
    if Subject(s, e) != Some(id) {
      StepTouchesOne(s, e, id);
      hide Step;
    } else {
      match e
      case Begin(k) => BeginEnds(s, k, id);
      case Kill(k) => KillEnds(s, k, id, status);
      case Finish(k, _) =>
        if Answers(s, e, id) {
          AnswerRuns(s, k, id);
          FinishEnds(s, e, id, status);
        } else {
          NothingToAnswer(s, e, id);
        }
      case _ => OtherEnds(s, e, id, status);
      hide Step;
    }
  }

  lemma {:induction false} EndsByRun(es: seq<Event>, n: nat, id: Id, status: Status)
    requires n <= |es| && IsTerminal(status)
    ensures HasStatus(At(es, n), id, status) <==> exists k :: 0 <= k < n && EndsIn(At(es, k), es[k], id, status)
  {
    hide Inv, Step, EndsIn, IsTerminal, Leaves;
    if n > 0 {
      EndsByRun(es, n - 1, id, status);
      AtKeeps(es, n - 1);
      StepEnds(At(es, n - 1), es[n - 1], id, status);
    }
  }

  /** How every session ends, over whole runs: completed exactly if an attempt of
      it succeeded, timed out if one ran out of time, failed if one raised or
      was unsuccessful with no attempt left, cancelled if one stopped with no
      pause pending or a paused session was cancelled. */
  lemma EndsIff(es: seq<Event>, n: nat, id: Id, status: Status)
    requires n <= |es| && status != Pending && status != Running && status != Paused
    ensures HasStatus(At(es, n), id, status) <==> exists k :: 0 <= k < n && EndsIn(At(es, k), es[k], id, status)
  {
    assert IsTerminal(status);
    hide *;
    EndsByRun(es, n, id, status);
  }

  /** And it keeps what that section left: the response of the attempt that
      succeeded, the error of the one that failed. */
  lemma EndIsKept(es: seq<Event>, k: nat, n: nat, id: Id, status: Status)
    requires k < n <= |es| && IsTerminal(status) && EndsIn(At(es, k), es[k], id, status)
    ensures HasStatus(At(es, n), id, status) && Leaves(es[k], At(es, n).registry[id])
  {
    AtKeeps(es, k);
    StepEnds(At(es, k), es[k], id, status);
    AtNext(es, k);
    hide At, Inv, Step, EndsIn, Leaves;
    TerminalIsFinal(es, k + 1, n, id);
  }

  /** An unsuccessful attempt that is not the last leaves the session running,
      with a task that will make the next one. */
  lemma RetryRunsOn(es: seq<Event>, n: nat, id: Id)
    requires n < |es| && Answers(At(es, n), es[n], id) && es[n].outcome.Unsuccessful?
    requires !Exhausts(At(es, n), es[n], id)
    ensures Runs(At(es, n + 1), id) && Owned(At(es, n + 1), id)
  {
    AtKeeps(es, n);
    AtKeeps(es, n + 1);
    AtNext(es, n);
    hide At;
    RetriesOn(At(es, n), es[n].task, id, es[n].outcome.response, es[n].outcome.message);
    assert TaskOk(At(es, n + 1), es[n].task);
  }

  // ---- attempts

  /** The attempts a session may make without being resumed. */
  function Budget(options: Options): nat {
    if options.maxAttempts < 1 then 1 else options.maxAttempts
  }

  /** An attempt that is bound to begin unless the task is killed. */
  function Owed(s: State, id: Id): nat {
    if id in s.launching then 1
    else if id in s.current && s.current[id] < |s.tasks| && s.tasks[s.current[id]].phase == Waiting then 1 else 0
  }

  ghost predicate AttemptsOk(s: State, id: Id, resumes: nat) {
    id in s.registry ==> s.registry[id].attempts + Owed(s, id) <= Budget(s.registry[id].options) + resumes
  }

  predicate Resumes(s: State, e: Event, id: Id) {
    e == Resume(id) && id in s.registry && s.registry[id].status == Paused
  }

  ghost function ResumeCount(es: seq<Event>, n: nat, id: Id): nat
    requires n <= |es|
  {
    if n == 0 then 0 else ResumeCount(es, n - 1, id) + if Resumes(At(es, n - 1), es[n - 1], id) then 1 else 0
  }

  lemma SectionAttempts(s: State, k: nat, t: State, resumes: nat)
    requires Inv(s) && Live(s, k) && s.tasks[k].id in s.registry && TaskSection(s, k, t)
    requires AttemptsOk(s, s.tasks[k].id, resumes)
    ensures AttemptsOk(t, s.tasks[k].id, resumes)
  {
    assert TaskOk(s, k);
    hide LastWrite;
  }

  lemma SameAttempts(s: State, t: State, id: Id, resumes: nat)
    requires Same(s, t, id) && SessionOk(s, id) && AttemptsOk(s, id, resumes)
    ensures AttemptsOk(t, id, resumes)
  {
    if id in s.current {
      assert TaskUnchanged(s, t, s.current[id], id);
    }
  }

  lemma StepAttempts(s: State, e: Event, id: Id, resumes: nat)
    requires Inv(s) && AttemptsOk(s, id, resumes)
    ensures AttemptsOk(Step(s, e), id, resumes + if Resumes(s, e, id) then 1 else 0)
  {
    assert SessionOk(s, id);
    if Subject(s, e) != Some(id) {
      hide AttemptsOk, Same, Step;
      StepTouchesOne(s, e, id);
      SameAttempts(s, Step(s, e), id, resumes);
    } else if e.Begin? || e.Finish? || e.Kill? {
      hide AttemptsOk, TaskSection, Step;
      if OfTask(s, e) {
        StepIsSection(s, e);
        SectionAttempts(s, e.task, Step(s, e), resumes);
      } else {
        DeadTasksDoNothing(s, e);
      }
    }
  }

  lemma NoAttempts(id: Id)
    ensures AttemptsOk(INITIAL, id, 0)
  {
  }

  /** A session makes at most max_attempts attempts and one more for each time
      it was resumed. */
  lemma {:induction false} AttemptsBounded(es: seq<Event>, n: nat, id: Id)
    requires n <= |es|
    ensures AttemptsOk(At(es, n), id, ResumeCount(es, n, id))
  {
    hide Inv, Step, AttemptsOk;
    assert n == 0 ==> AttemptsOk(At(es, n), id, 0) by { NoAttempts(id); }
    if n > 0 {
      AttemptsBounded(es, n - 1, id);
      AtKeeps(es, n - 1);
      StepAttempts(At(es, n - 1), es[n - 1], id, ResumeCount(es, n - 1, id));
    }
  }

  /** A section that begins an attempt: at the top of the loop, or right after an
      unsuccessful attempt that is not the last when there is no delay. */
  predicate BeginsAttempt(s: State, e: Event, id: Id) {
    || (e.Begin? && e.task < |s.tasks| && s.tasks[e.task] == Task(id, Waiting))
    || (Answers(s, e, id) && e.outcome.Unsuccessful? && !Exhausts(s, e, id) && id in s.registry &&
        s.registry[id].options.retryDelay <= 0.0)
  }

  ghost function AttemptCount(es: seq<Event>, n: nat, id: Id): nat
    requires n <= |es|
  {
    if n == 0 then 0 else AttemptCount(es, n - 1, id) + if BeginsAttempt(At(es, n - 1), es[n - 1], id) then 1 else 0
  }

  function AttemptsOf(s: State, id: Id): nat {
    if id in s.registry then s.registry[id].attempts else 0
  }

  lemma FinishCounts(s: State, e: Event, id: Id)
    requires Inv(s) && Answers(s, e, id)
    ensures AttemptsOf(Step(s, e), id) == AttemptsOf(s, id) + if BeginsAttempt(s, e, id) then 1 else 0
  {
    AnswerRuns(s, e.task, id);
    assert TaskOk(s, e.task);
    if e.outcome.Unsuccessful? && !Exhausts(s, e, id) {
      RetriesOn(s, e.task, id, e.outcome.response, e.outcome.message);
      hide Step;
    }
    hide Inv, BeginAttempt;
  }

  lemma StepCounts(s: State, e: Event, id: Id)
    requires Inv(s)
    ensures AttemptsOf(Step(s, e), id) == AttemptsOf(s, id) + if BeginsAttempt(s, e, id) then 1 else 0
  {
    if Subject(s, e) != Some(id) {
      StepTouchesOne(s, e, id);
      hide Step;
    } else if e.Begin? {
      assert TaskOk(s, e.task);
    } else if Answers(s, e, id) {
      FinishCounts(s, e, id);
      hide Step;
    } else if e.Finish? {
      NothingToAnswer(s, e, id);
      hide Step;
    } else {
      OthersCountNothing(s, e, id);
      hide Step;
    }
  }

  lemma OthersCountNothing(s: State, e: Event, id: Id)
    requires Inv(s) && !e.Begin? && !e.Finish?
    ensures AttemptsOf(Step(s, e), id) == AttemptsOf(s, id)
  {
    hide Inv;
  }

  /** A begun attempt runs on the session's token and wipes the last error. */
  lemma BegunAttempt(s: State, e: Event, id: Id)
    requires Inv(s) && BeginsAttempt(s, e, id)
    ensures var t, k := Step(s, e), e.task;
            && HasStatus(t, id, Running) && t.registry[id].error == None && id in t.tokens && id in s.tokens
            && t.tasks[k] == Task(id, Attempting(s.tokens[id], AttemptsOf(s, id) + 1))
            && t.tokens == s.tokens && t.stopped == s.stopped
  {
    assert TaskOk(s, e.task);
  }

  /** The attempts on a session's record are those that were begun. */
  lemma {:induction false} AttemptsAreCounted(es: seq<Event>, n: nat, id: Id)
    requires n <= |es|
    ensures AttemptsOf(At(es, n), id) == AttemptCount(es, n, id)
  {
    hide Inv, Step, BeginsAttempt, AttemptsOf;
    assert n == 0 ==> AttemptsOf(At(es, n), id) == 0 by { NoneBegun(id); }
    if n > 0 {
      AttemptsAreCounted(es, n - 1, id);
      AtKeeps(es, n - 1);
      StepCounts(At(es, n - 1), es[n - 1], id);
    }
  }

  lemma NoneBegun(id: Id)
    ensures AttemptsOf(INITIAL, id) == 0
  {
  }

  /** A session that gives up has used all its attempts, and if it was never
      resumed it has made exactly as many as it may. */
  lemma GivesUpAfterAll(es: seq<Event>, n: nat, id: Id)
    requires n < |es| && Exhausts(At(es, n), es[n], id)
    ensures AttemptCount(es, n, id) >= At(es, n).registry[id].options.maxAttempts
    ensures ResumeCount(es, n, id) == 0 ==> AttemptCount(es, n, id) == Budget(At(es, n).registry[id].options)
  {
    AtKeeps(es, n);
    AttemptsAreCounted(es, n, id);
    AttemptsBounded(es, n, id);
    BegunIsPositive(es, n, es[n].task);
    assert TaskOk(At(es, n), es[n].task);
  }

  /** An attempt carries a number of at least one. */
  lemma {:induction false} BegunIsPositive(es: seq<Event>, n: nat, k: nat)
    requires n <= |es| && k < |At(es, n).tasks| && At(es, n).tasks[k].phase.Attempting?
    ensures At(es, n).tasks[k].phase.attempt >= 1
  {
    if n > 0 {
      var s, e := At(es, n - 1), es[n - 1];
      if k < |s.tasks| && s.tasks[k].phase.Attempting? {
        BegunIsPositive(es, n - 1, k);
      }
      AtKeeps(es, n - 1);
      StepNumbers(s, e, k);
      hide Step;
    }
  }

  lemma StepNumbers(s: State, e: Event, k: nat)
    requires Inv(s) && k < |Step(s, e).tasks| && Step(s, e).tasks[k].phase.Attempting?
    ensures SameNumber(s, Step(s, e), k) || Step(s, e).tasks[k].phase.attempt >= 1
  {
    if e.Begin? || e.Finish? || e.Kill? {
      hide TaskSection, Step;
      if OfTask(s, e) {
        StepIsSection(s, e);
        SectionNumbers(s, e.task, Step(s, e), k);
      } else {
        DeadTasksDoNothing(s, e);
      }
    } else {
      hide Inv;
    }
  }

  predicate SameNumber(s: State, t: State, k: nat)
    requires k < |t.tasks|
  {
    k < |s.tasks| && s.tasks[k].phase == t.tasks[k].phase
  }

  lemma SectionNumbers(s: State, j: nat, t: State, k: nat)
    requires j < |s.tasks| && s.tasks[j].id in s.registry && TaskSection(s, j, t)
    requires k < |t.tasks| && t.tasks[k].phase.Attempting?
    ensures SameNumber(s, t, k) || t.tasks[k].phase.attempt >= 1
  {
  }

  // ---- signals

  /** A pause or a cancel of a running session stops the token of its attempt,
      and of no attempt of another session. */
  lemma SignalReaches(es: seq<Event>, n: nat, k: nat)
    requires n < |es| && Live(At(es, n), k) && At(es, n).tasks[k].phase.Attempting?
    requires es[n].Pause? || es[n].Cancel?
    ensures var t, token := At(es, n + 1), At(es, n).tasks[k].phase.token;
            && t.tasks == At(es, n).tasks
            && (token in t.stopped <==> token in At(es, n).stopped || es[n].id == At(es, n).tasks[k].id)
  {
    AtKeeps(es, n);
    hide At;
    SignalHitsOne(At(es, n), es[n], k);
    assert At(es, n + 1) == Step(At(es, n), es[n]) by { AtNext(es, n); }
  }

  lemma AtNext(es: seq<Event>, n: nat)
    requires n < |es|
    ensures At(es, n + 1) == Step(At(es, n), es[n])
  {
  }

  lemma SignalHitsOne(s: State, e: Event, k: nat)
    requires Inv(s) && Live(s, k) && s.tasks[k].phase.Attempting? && (e.Pause? || e.Cancel?)
    ensures var t, token := Step(s, e), s.tasks[k].phase.token;
            t.tasks == s.tasks && (token in t.stopped <==> token in s.stopped || e.id == s.tasks[k].id)
  {
    assert TaskOk(s, k) && SessionOk(s, e.id);
    assert e.id in s.tokens && s.tokens[e.id] == s.tasks[k].phase.token ==> e.id == s.tasks[k].id;
  }

  /** A resumed run starts with a token nobody has stopped, and with no mark of
      an earlier pause or cancel left on its session. */
  lemma ResumeStartsClean(es: seq<Event>, n: nat, id: Id)
    requires n < |es| && Resumes(At(es, n), es[n], id)
    ensures var t := At(es, n + 1);
            && Runs(t, id) && id in t.tokens && t.tokens[id] !in t.stopped
            && id !in t.paused && id !in t.reasons
            && id in t.current && Live(t, t.current[id]) && t.tasks[t.current[id]] == Task(id, Waiting)
            && t.registry[id] == At(es, n).registry[id].(status := Running, response := None, error := None)
  {
    AtKeeps(es, n);
    assert SessionOk(At(es, n), id);
  }

  /** How a stopped attempt leaves its session: paused exactly when a pause is
      pending, whatever cancels came as well; else cancelled, for the reason
      of the last cancel. */
  lemma StoppedEnds(s: State, k: nat, message: string)
    requires Inv(s) && Live(s, k) && s.tasks[k].phase.Attempting?
    ensures var id, t := s.tasks[k].id, Step(s, Finish(k, Stopped(message)));
            && id in t.registry && !Live(t, k)
            && (t.registry[id].status == Paused <==> id in s.paused)
            && (t.registry[id].status == Cancelled <==> id !in s.paused)
            && t.registry[id].error == (if id in s.paused then None
                                        else if id in s.reasons then Some(s.reasons[id]) else Some(message))
            && t.registry[id].response == s.registry[id].response
            && id !in t.paused && id !in t.reasons && id !in t.tokens && id !in t.current
  {
    assert TaskOk(s, k);
  }

  lemma CancelMarks(s: State, id: Id, reason: string)
    requires Inv(s) && Runs(s, id)
    ensures var t := Step(s, Cancel(id, reason));
            && Inv(t) && t.tasks == s.tasks && t.registry == s.registry && t.paused == s.paused
            && id in t.reasons && t.reasons[id] == reason
  {
    StepKeeps(s, Cancel(id, reason));
    hide Inv;
  }

  /** Of several cancels the last one names the reason. */
  lemma LastReasonWins(s: State, k: nat, first: string, last: string, message: string)
    requires Inv(s) && k < |s.tasks| && s.tasks[k].phase.Attempting? && s.tasks[k].id !in s.paused
    ensures var id := s.tasks[k].id;
            var t := Step(Step(Step(s, Cancel(id, first)), Cancel(id, last)), Finish(k, Stopped(message)));
            HasStatus(t, id, Cancelled) && t.registry[id].error == Some(last)
  {
    var id := s.tasks[k].id;
    AnswerRuns(s, k, id);
    hide Inv, Step;
    CancelMarks(s, id, first);
    CancelMarks(Step(s, Cancel(id, first)), id, last);
    StoppedEnds(Step(Step(s, Cancel(id, first)), Cancel(id, last)), k, message);
  }

  /** A cancel that arrives while a pause is pending does not win: the
      stopped attempt ends in a paused session. */
  lemma PendingPauseWins(s: State, k: nat, reason: string, message: string)
    requires Inv(s) && Live(s, k) && s.tasks[k].phase.Attempting?
    ensures var id := s.tasks[k].id;
            var t := Step(Step(Step(s, Pause(id)), Cancel(id, reason)), Finish(k, Stopped(message)));
            id in t.registry && t.registry[id].status == Paused
  {
    var id := s.tasks[k].id;
    assert TaskOk(s, k);
    var marked := Step(s, Pause(id));
    assert id in marked.paused && marked.registry == s.registry && marked.tasks == s.tasks;
    StepKeeps(s, Pause(id));
    StepKeeps(marked, Cancel(id, reason));
    var both := Step(marked, Cancel(id, reason));
    assert id in both.paused && both.tasks == s.tasks;
    hide Inv, Step;
    StoppedEnds(both, k, message);
  }

  // ---- orphans

  /** A running session that no task will ever change. */
  ghost predicate Orphan(s: State, id: Id) {
    Runs(s, id) && id !in s.launching && forall k: nat :: Live(s, k) ==> s.tasks[k].id != id
  }

  lemma SameOrphan(s: State, t: State, id: Id)
    requires Orphan(s, id) && Same(s, t, id)
    ensures Orphan(t, id) && t.registry[id] == s.registry[id]
  {
    forall k: nat | Live(t, k) ensures t.tasks[k].id != id {
      assert TaskUnchanged(s, t, k, id);
      assert k < |s.tasks| && s.tasks[k].id == id ==> Live(s, k);
    }
  }

  lemma OrphanStep(s: State, e: Event, id: Id)
    requires Inv(s) && Orphan(s, id)
    ensures Orphan(Step(s, e), id) && Step(s, e).registry[id] == s.registry[id]
  {
    if Subject(s, e) != Some(id) {
      hide Same, Orphan, Step;
      StepTouchesOne(s, e, id);
      SameOrphan(s, Step(s, e), id);
    } else if e.Begin? || e.Finish? || e.Kill? {
      hide Step;
      assert !OfTask(s, e);
      DeadTasksDoNothing(s, e);
    } else {
      assert SessionOk(s, id);
      assert Step(s, e).tasks == s.tasks;
      forall k: nat | Live(Step(s, e), k) ensures Step(s, e).tasks[k].id != id {
        assert Live(s, k);
      }
    }
  }

  /** A task killed between attempts leaves its session running, and no
      operation ever changes that session again. */
  lemma {:induction false} OrphanStays(es: seq<Event>, i: nat, n: nat, id: Id)
    requires i <= n <= |es| && Orphan(At(es, i), id)
    ensures Orphan(At(es, n), id) && At(es, n).registry[id] == At(es, i).registry[id]
  {
    hide Inv, Step, Orphan;
    if i < n {
      OrphanStays(es, i, n - 1, id);
      AtKeeps(es, n - 1);
      OrphanStep(At(es, n - 1), es[n - 1], id);
    }
  }

  /** A launch is pending or the session's task has not made its last write. */
  predicate Owned(s: State, id: Id) {
    id in s.launching || (id in s.current && Live(s, s.current[id]))
  }

  lemma OrphanIsUnowned(s: State, id: Id)
    requires Inv(s)
    ensures Orphan(s, id) <==> Runs(s, id) && !Owned(s, id)
  {
    assert SessionOk(s, id);
    forall k: nat | Live(s, k) && s.tasks[k].id == id ensures Owned(s, id) {
      assert TaskOk(s, k);
    }
  }

  /** The two ways to lose the one who would end the session: its task is
      killed before or between attempts, or its launch is abandoned because the
      first save failed or was cancelled. */
  predicate Loses(s: State, e: Event, id: Id) {
    || (e == Abandon(id) && id in s.launching)
    || (e.Kill? && Live(s, e.task) && s.tasks[e.task] == Task(id, Waiting))
  }

  lemma SameOwned(s: State, t: State, id: Id)
    requires Inv(s) && Same(s, t, id)
    ensures Runs(t, id) == Runs(s, id) && Owned(t, id) == Owned(s, id)
  {
    assert SessionOk(s, id);
    if id in s.current {
      assert TaskUnchanged(s, t, s.current[id], id);
    }
  }

  lemma BeginOwned(s: State, k: nat)
    requires Inv(s) && Live(s, k)
    ensures Owned(BeginAttempt(s, k), s.tasks[k].id)
  {
    assert TaskOk(s, k);
  }

  lemma LastWriteStops(s: State, k: nat, t: State)
    requires k < |s.tasks| && s.tasks[k].id in s.registry && LastWrite(s, k, t)
    ensures !Runs(t, s.tasks[k].id)
  {
  }

  lemma FinishOwned(s: State, k: nat, outcome: Outcome)
    requires Inv(s) && Live(s, k) && s.tasks[k].phase.Attempting? && s.tasks[k].id in s.registry
    ensures var t := EndAttempt(s, k, outcome); !Runs(t, s.tasks[k].id) || Owned(t, s.tasks[k].id)
  {
    BeginOwned(s, k);
    assert TaskOk(s, k);
    hide BeginAttempt, HandleCancelled, LastWrite;
    match outcome
    case Succeeded(r) => FinalizeIsLastWrite(s, k, Completed, Some(r), None);
    case Stopped(m) =>
      CancelledIsLastWrite(s, k, m);
      LastWriteStops(s, k, EndAttempt(s, k, outcome));
    case OutOfTime(r, m) => FinalizeIsLastWrite(s, k, TimedOut, Some(r), Some(m));
    case Raised(m) => FinalizeIsLastWrite(s, k, Failed, None, Some(m));
    case Unsuccessful(r, m) => FinalizeIsLastWrite(s, k, Failed, Some(r), Some(m));
  }

  lemma TaskEventOwned(s: State, e: Event)
    requires Inv(s) && OfTask(s, e)
    ensures var id, t := s.tasks[e.task].id, Step(s, e);
            Runs(s, id) && Owned(s, id) && (Runs(t, id) && !Owned(t, id) <==> Loses(s, e, id))
  {
    var k := e.task;
    assert TaskOk(s, k) && SessionOk(s, s.tasks[k].id);
    match e
    case Begin(_) => BeginOwned(s, k);
    case Finish(_, outcome) =>
      if s.tasks[k].phase.Attempting? {
        FinishOwned(s, k, outcome);
      }
      hide EndAttempt;
    case Kill(_) =>
      CancelledIsLastWrite(s, k, "Agent run task cancelled");
      if s.tasks[k].phase.Attempting? {
        LastWriteStops(s, k, Step(s, e));
      }
      hide HandleCancelled, LastWrite;
  }

  /** A session with an owner loses it at exactly these sections. */
  lemma LosesIff(s: State, e: Event, id: Id)
    requires Inv(s) && !Orphan(s, id)
    ensures Orphan(Step(s, e), id) <==> Loses(s, e, id)
  {
    StepKeeps(s, e);
    OrphanIsUnowned(s, id);
    OrphanIsUnowned(Step(s, e), id);
    if Subject(s, e) != Some(id) {
      StepTouchesOne(s, e, id);
      SameOwned(s, Step(s, e), id);
    } else if e.Begin? || e.Finish? || e.Kill? {
      if OfTask(s, e) {
        TaskEventOwned(s, e);
      } else {
        DeadTasksDoNothing(s, e);
      }
    } else {
      assert SessionOk(s, id);
    }
  }

  /** A running session has somebody who will end it, unless at some point its
      waiting task was killed or its launch abandoned; and then it stays
      running for ever. */
  lemma {:induction false} OrphanIff(es: seq<Event>, n: nat, id: Id)
    requires n <= |es|
    ensures Orphan(At(es, n), id) <==> exists k :: 0 <= k < n && Loses(At(es, k), es[k], id)
    ensures Runs(At(es, n), id) && !(exists k :: 0 <= k < n && Loses(At(es, k), es[k], id)) ==> Owned(At(es, n), id)
  {
    hide Step, Inv, Loses, Orphan;
    AtKeeps(es, n);
    OrphanIsUnowned(At(es, n), id);
    if n == 0 {
      NoOrphans(id);
    } else {
      OrphanIff(es, n - 1, id);
      AtKeeps(es, n - 1);
      if Orphan(At(es, n - 1), id) {
        OrphanStep(At(es, n - 1), es[n - 1], id);
      } else {
        LosesIff(At(es, n - 1), es[n - 1], id);
      }
    }
  }

  lemma NoOrphans(id: Id)
    ensures !Orphan(INITIAL, id)
  {
  }

  /** Both happen: a new session whose first save fails, and one whose task is
      cancelled before it has begun. */
  lemma OrphansExist(id: Id, attempts: int, delay: real)
    ensures Orphan(At([Execute(id, Options(attempts, delay, true)), Abandon(id)], 2), id)
    ensures Orphan(At([Execute(id, Options(attempts, delay, false)), Kill(0)], 2), id)
  {
    var saved := [Execute(id, Options(attempts, delay, true)), Abandon(id)];
    var unsaved := [Execute(id, Options(attempts, delay, false)), Kill(0)];
    AtNext(saved, 0);
    AtNext(unsaved, 0);
    assert Loses(At(saved, 1), saved[1], id);
    assert Loses(At(unsaved, 1), unsaved[1], id);
    hide At, Loses, Orphan;
    OrphanIff(saved, 2, id);
    OrphanIff(unsaved, 2, id);
  }

  // ---- lost signals

  /** The run that a session has, or is about to get, has been told to stop. */
  ghost predicate ToldToStop(s: State, id: Id) {
    id in s.tokens && s.tokens[id] in s.stopped
  }

  /** A pause or a cancel of a running session that somebody will end stops the
      token of its run, inside an attempt or between two, unless the session is
      still being launched; then it stops nothing. */
  lemma SignalStopsIff(s: State, e: Event)
    requires Inv(s) && (e.Pause? || e.Cancel?) && Runs(s, e.id) && Owned(s, e.id)
    ensures ToldToStop(Step(s, e), e.id) <==> e.id !in s.launching
    ensures e.id in s.launching ==> Step(s, e).stopped == s.stopped
  {
    assert SessionOk(s, e.id);
    if e.id !in s.launching {
      assert TaskOk(s, s.current[e.id]);
    }
  }

  /** A run never starts told to stop, whatever came while it was launched. */
  lemma LaunchForgetsSignals(es: seq<Event>, n: nat, id: Id)
    requires n < |es| && es[n] == Launch(id) && id in At(es, n).launching
    ensures Runs(At(es, n + 1), id) && id in At(es, n + 1).tokens && !ToldToStop(At(es, n + 1), id)
    ensures id in At(es, n).paused ==> id in At(es, n + 1).paused
  {
    AtKeeps(es, n);
    assert SessionOk(At(es, n), id);
  }
}
