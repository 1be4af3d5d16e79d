/** The agent manager, section by section, against the session protocol. */
module AgentManagement {
  import opened Wrappers
  import opened AgentSessions

  datatype ManagerError = SessionAlreadyExists | SessionNotFound | SessionNotRunnable

  class AgentManager {
    var registry: map<Id, Session>
    var tokens: map<Id, Token>
    /** The task a session's handle names. */
    var current: map<Id, nat>
    var paused: set<Id>
    var cancelReasons: map<Id, string>
    /** Executes that wait for their first save. */
    var launching: set<Id>
    /** Every run task ever created, with where it stands. */
    var tasks: seq<Task>
    var issued: nat
    var stopped: set<Token>

    function View(): State reads this {
      State(registry, tokens, current, paused, cancelReasons, launching, tasks, issued, stopped)
    }

    ghost predicate Valid() reads this {
      Inv(View())
    }

    constructor ()
      ensures Valid() && View() == INITIAL
    {
      registry, tokens, current, paused, cancelReasons, launching, tasks, issued, stopped :=
        map[], map[], map[], {}, map[], {}, [], 0, {};
      new;
      AtKeeps([], 0);
    }

    /** A fresh token and a run task for it. */
    method StartTask(id: Id)
      modifies this`tokens, this`issued, this`current, this`tasks
      ensures View() == Start(old(View()), id)
    {
      tokens, issued := tokens[id := issued], issued + 1;
      current, tasks := current[id := |tasks|], tasks + [Task(id, Waiting)];
    }

    /** Registers the session; with persistence the task is only started by
        Launch, once the save has finished. */
    method Execute(id: Id, options: Options) returns (r: Result<Session, ManagerError>)
      requires Valid()
      modifies this
      ensures Valid() && View() == Step(old(View()), Event.Execute(id, options))
      ensures r == if id in old(registry) then Err(SessionAlreadyExists)
                   else Ok(Session(options, Running, 0, None, None))
    {
      StepKeeps(View(), Event.Execute(id, options));
      hide Inv;
      if id in registry {
        return Err(SessionAlreadyExists);
      }
      var session := Session(options, Running, 0, None, None);
      registry := registry[id := session];
      if options.persist {
        launching := launching + {id};
      } else {
        StartTask(id);
      }
      return Ok(session);
    }

    method Launch(id: Id)
      requires Valid() && id in launching
      modifies this
      ensures Valid() && View() == Step(old(View()), Event.Launch(id))
    {
      StepKeeps(View(), Event.Launch(id));
      hide Inv;
      launching := launching - {id};
      StartTask(id);
    }

    method CancelToken(id: Id)
      modifies this`stopped
      ensures View() == Signal(old(View()), id)
    {
      if id in tokens {
        stopped := stopped + {tokens[id]};
      }
    }

    method FinalizeSession(id: Id, status: Status, response: Option<string>, error: Option<string>)
      requires id in registry
      modifies this
      ensures View() == Finalize(old(View()), id, status, response, error)
    {
      var session := registry[id];
      registry := registry[id := session.(status := status, error := error,
                                          response := if response.Some? then response else session.response)];
      current, tokens := current - {id}, tokens - {id};
      paused, cancelReasons := paused - {id}, cancelReasons - {id};
    }

    /** Up to the wait for the run task. */
    method Cancel(id: Id, reason: string) returns (r: Result<Session, ManagerError>)
      requires Valid()
      modifies this
      ensures Valid() && View() == Step(old(View()), Event.Cancel(id, reason))
      ensures r == if id !in old(registry) then Err(SessionNotFound) else Ok(registry[id])
    {
      StepKeeps(View(), Event.Cancel(id, reason));
      hide Inv;
      if id !in registry {
        return Err(SessionNotFound);
      }
      if IsTerminal(registry[id].status) {
        return Ok(registry[id]);
      }
      if registry[id].status == Paused {
        FinalizeSession(id, Cancelled, None, Some(reason));
        return Ok(registry[id]);
      }
      cancelReasons := cancelReasons[id := reason];
      CancelToken(id);
      return Ok(registry[id]);
    }

    /** Up to the wait for the run task. */
    method Pause(id: Id) returns (r: Result<Session, ManagerError>)
      requires Valid()
      modifies this
      ensures Valid() && View() == Step(old(View()), Event.Pause(id))
      ensures r == if id !in old(registry) then Err(SessionNotFound)
                   else if old(registry)[id].status == Running then Ok(old(registry)[id]) else Err(SessionNotRunnable)
    {
      StepKeeps(View(), Event.Pause(id));
      if id in registry && !IsTerminal(registry[id].status) && registry[id].status != Paused {
        NeverPending(View(), id);
      }
      hide Inv;
      if id !in registry {
        return Err(SessionNotFound);
      }
      if IsTerminal(registry[id].status) {
        return Err(SessionNotRunnable);
      }
      if registry[id].status == Paused {
        return Err(SessionNotRunnable);
      }
      paused := paused + {id};
      CancelToken(id);
      return Ok(registry[id]);
    }

    method Resume(id: Id) returns (r: Result<Session, ManagerError>)
      requires Valid()
      modifies this
      ensures Valid() && View() == Step(old(View()), Event.Resume(id))
      ensures r == if id !in old(registry) then Err(SessionNotFound)
                   else if old(registry)[id].status != Paused then Err(SessionNotRunnable) else Ok(registry[id])
    {
      StepKeeps(View(), Event.Resume(id));
      hide Inv;
      if id !in registry {
        return Err(SessionNotFound);
      }
      if registry[id].status != Paused {
        return Err(SessionNotRunnable);
      }
      paused := paused - {id};
      registry := registry[id := registry[id].(status := Running, response := None, error := None)];
      StartTask(id);
      return Ok(registry[id]);
    }

    method SetTaskPhase(k: nat, phase: Phase)
      requires k < |tasks|
      modifies this`tasks
      ensures View() == SetPhase(old(View()), k, phase)
    {
      tasks := tasks[k := tasks[k].(phase := phase)];
    }

    /** The loop of run task k from its top to the call of the runtime. */
    method LoopTop(k: nat)
      requires k < |tasks|
      modifies this
      ensures View() == BeginAttempt(old(View()), k)
    {
      var id := tasks[k].id;
      if id !in registry {
        SetTaskPhase(k, Over);
        return;
      }
      var attempt := registry[id].attempts + 1;
      registry := registry[id := registry[id].(status := Running, attempts := attempt, error := None)];
      if id !in tokens {
        tokens, issued := tokens[id := issued], issued + 1;
      }
      SetTaskPhase(k, Attempting(tokens[id], attempt));
    }

    method Begin(k: nat)
      requires Valid() && k < |tasks| && tasks[k].phase == Waiting
      modifies this
      ensures Valid() && View() == Step(old(View()), Event.Begin(k))
    {
      StepKeeps(View(), Event.Begin(k));
      hide Inv;
      LoopTop(k);
    }

    method CancelledRun(id: Id, message: string)
      requires id in registry
      modifies this
      ensures View() == HandleCancelled(old(View()), id, message)
    {
      if id in paused {
        paused := paused - {id};
        FinalizeSession(id, Paused, None, None);
        return;
      }
      var reason := if id in cancelReasons then cancelReasons[id] else message;
      cancelReasons := cancelReasons - {id};
      FinalizeSession(id, Cancelled, None, Some(reason));
    }

    /** The loop of run task k from the runtime's answer to the next wait. */
    method AttemptEnds(k: nat, outcome: Outcome)
      requires Valid() && k < |tasks| && tasks[k].phase.Attempting?
      modifies this
      ensures Valid() && View() == Step(old(View()), Event.Finish(k, outcome))
      ensures forall status :: IsTerminal(status) ==>
                (HasStatus(View(), old(tasks)[k].id, status) <==>
                 EndsIn(old(View()), Event.Finish(k, outcome), old(tasks)[k].id, status))
    {
      AnswerEnds(View(), k, outcome);
      StepKeeps(View(), Event.Finish(k, outcome));
      TaskHasSession(View(), k);
      hide Inv, EndsIn, HasStatus;
      var id, attempt := tasks[k].id, tasks[k].phase.attempt;
      match outcome {
        case Succeeded(response) => FinalizeSession(id, Completed, Some(response), None);
        case Stopped(message) => CancelledRun(id, message);
        case OutOfTime(response, message) => FinalizeSession(id, TimedOut, Some(response), Some(message));
        case Raised(message) => FinalizeSession(id, Failed, None, Some(message));
        case Unsuccessful(response, message) =>
          if attempt < registry[id].options.maxAttempts {
            if registry[id].options.retryDelay > 0.0 {
              SetTaskPhase(k, Waiting);
            } else {
              LoopTop(k);
            }
            return;
          }
          FinalizeSession(id, Failed, Some(response), Some(message));
      }
      SetTaskPhase(k, Over);
    }

    /** Run task k is cancelled by the event loop. */
    method Killed(k: nat)
      requires Valid() && k < |tasks|
      modifies this
      ensures Valid() && View() == Step(old(View()), Event.Kill(k))
    {
      StepKeeps(View(), Event.Kill(k));
      if tasks[k].phase.Attempting? {
        TaskHasSession(View(), k);
        hide Inv;
        CancelledRun(tasks[k].id, "Agent run task cancelled");
      }
      SetTaskPhase(k, Over);
    }
  }

  lemma AnswerEnds(s: State, k: nat, outcome: Outcome)
    requires Inv(s) && k < |s.tasks| && s.tasks[k].phase.Attempting?
    ensures forall status :: IsTerminal(status) ==>
              (HasStatus(Step(s, Event.Finish(k, outcome)), s.tasks[k].id, status) <==>
               EndsIn(s, Event.Finish(k, outcome), s.tasks[k].id, status))
  {
    hide Inv, Step, EndsIn;
    forall status | IsTerminal(status)
      ensures HasStatus(Step(s, Event.Finish(k, outcome)), s.tasks[k].id, status) <==>
              EndsIn(s, Event.Finish(k, outcome), s.tasks[k].id, status)
    {
      FinishEnds(s, Event.Finish(k, outcome), s.tasks[k].id, status);
    }
  }

  lemma TaskHasSession(s: State, k: nat)
    requires Inv(s) && Live(s, k)
    ensures s.tasks[k].id in s.registry
  {
    assert TaskOk(s, k);
  }
}
