/**
 The action table of DeviceBox/Dropbox.cpp, as the curl thread sees it: transfers under way,
 at most MAX_UPLOADS of them uploads, and one completion per submitted operation. First the
 tasks of the curl thread as a transition system, then the class that takes its steps.

 curl decides which transfers finish; `finishing` says which ones do so during a call to
 curl_multi_perform, with their response codes. Operations are named by numbers.
 */
module DropboxActions {

  const MAX_UPLOADS: nat := 2

  type Curl = nat
  type Operation = nat

  /** The callback of an internal action is called at once; all others are posted. */
  datatype Action = Action(op: Operation, upload: bool, isInternal: bool)

  datatype Message = Done(curl: Curl, code: int)

  /** A callback that has been called (`direct`) or posted to the main loop. */
  datatype Completion = Completion(op: Operation, code: int, direct: bool)

  /** A task of the curl thread. `initialised` is false when creating the request failed. */
  datatype Task =
    | Submit(action: Action, curl: Curl, initialised: bool, finishing: seq<Message>)
    | Perform(finishing: seq<Message>)

  function Uploads(actions: map<Curl, Action>): set<Curl> {
    set c | c in actions && actions[c].upload
  }

  lemma UploadsRemoved(actions: map<Curl, Action>, c: Curl)
    requires c in actions
    ensures |Uploads(actions - {c})| == |Uploads(actions)| - (if actions[c].upload then 1 else 0)
  {
    if actions[c].upload {
      assert c in Uploads(actions);
      assert Uploads(actions - {c}) == Uploads(actions) - {c};
    } else {
      assert Uploads(actions - {c}) == Uploads(actions);
    }
  }

  lemma UploadsAdded(actions: map<Curl, Action>, c: Curl, a: Action)
    requires c !in actions
    ensures |Uploads(actions[c := a])| == |Uploads(actions)| + (if a.upload then 1 else 0)
  {
    if a.upload {
      assert Uploads(actions[c := a]) == Uploads(actions) + {c};
    } else {
      assert Uploads(actions[c := a]) == Uploads(actions);
    }
  }

  function Curls(messages: seq<Message>): set<Curl> {
    set m | m in messages :: m.curl
  }

  predicate Distinct(messages: seq<Message>) {
    forall i, j :: 0 <= i < j < |messages| ==> messages[i].curl != messages[j].curl
  }

  /** The table holds the transfers under way and those whose completion is unread, once each. */
  ghost predicate Tracked(keys: set<Curl>, running: set<Curl>, unread: seq<Message>) {
    keys == running + Curls(unread) && running !! Curls(unread) && Distinct(unread)
  }

  /** curl may finish any of the transfers it has been given. */
  predicate CanFinish(finishing: seq<Message>, running: set<Curl>) {
    Distinct(finishing) && Curls(finishing) <= running
  }

  lemma TrackedAfterAdd(keys: set<Curl>, running: set<Curl>, unread: seq<Message>, c: Curl)
    requires Tracked(keys, running, unread) && c !in keys
    ensures Tracked(keys + {c}, running + {c}, unread)
  {}

  lemma TrackedAfterFinish(keys: set<Curl>, running: set<Curl>, unread: seq<Message>, finishing: seq<Message>)
    requires Tracked(keys, running, unread) && CanFinish(finishing, running)
    ensures Tracked(keys, running - Curls(finishing), unread + finishing)
  {
    var all := unread + finishing;
    assert Curls(all) == Curls(unread) + Curls(finishing);
    forall i, j | 0 <= i < j < |all|
      ensures all[i].curl != all[j].curl
    {
      if i < |unread| <= j {
        var a, b := unread[i], finishing[j - |unread|];
        assert a in unread && b in finishing;
        assert a.curl in Curls(unread) && b.curl in Curls(finishing);
      }
    }
  }

  lemma AllRead(keys: set<Curl>, running: set<Curl>)
    requires Tracked(keys, running, [])
    ensures keys == running
  {}

  lemma TrackedAfterRead(keys: set<Curl>, running: set<Curl>, unread: seq<Message>)
    requires Tracked(keys, running, unread) && unread != []
    ensures unread[0].curl in keys
    ensures Tracked(keys - {unread[0].curl}, running, unread[1..])
  {
    var c := unread[0].curl;
    assert unread == [unread[0]] + unread[1..];
    assert c in Curls(unread);
    assert Curls(unread) == Curls(unread[1..]) + {c};
    assert c !in Curls(unread[1..]);
  }

  /** Every submitted operation is in the table or completed, never both, never twice. */
  ghost predicate ExactlyOnce(submitted: set<Operation>, actions: map<Curl, Action>, completed: seq<Completion>) {
    && (forall c :: c in actions ==> actions[c].op in submitted)
    && (forall c, d :: c in actions && d in actions && actions[c].op == actions[d].op ==> c == d)
    && (forall i :: 0 <= i < |completed| ==> completed[i].op in submitted)
    && (forall i, j :: 0 <= i < j < |completed| ==> completed[i].op != completed[j].op)
    && (forall i, c :: 0 <= i < |completed| && c in actions ==> completed[i].op != actions[c].op)
    && (forall op :: op in submitted ==>
          || (exists c :: c in actions && actions[c].op == op)
          || (exists i :: 0 <= i < |completed| && completed[i].op == op))
  }

  lemma OnceAfterStart(submitted: set<Operation>, actions: map<Curl, Action>, completed: seq<Completion>,
                       c: Curl, a: Action)
    requires ExactlyOnce(submitted, actions, completed) && a.op !in submitted && c !in actions
    ensures ExactlyOnce(submitted + {a.op}, actions[c := a], completed)
  {
    var actions' := actions[c := a];
    forall op | op in submitted + {a.op}
      ensures || (exists d :: d in actions' && actions'[d].op == op)
              || (exists i :: 0 <= i < |completed| && completed[i].op == op)
    {
      if op == a.op {
        assert actions'[c].op == op;
      } else if d :| d in actions && actions[d].op == op {
        assert actions'[d].op == op;
      }
    }
  }

  lemma OnceAfterRefusal(submitted: set<Operation>, actions: map<Curl, Action>, completed: seq<Completion>,
                         done: Completion)
    requires ExactlyOnce(submitted, actions, completed) && done.op !in submitted
    ensures ExactlyOnce(submitted + {done.op}, actions, completed + [done])
  {
    var completed' := completed + [done];
    forall op | op in submitted + {done.op}
      ensures || (exists d :: d in actions && actions[d].op == op)
              || (exists i :: 0 <= i < |completed'| && completed'[i].op == op)
    {
      if op == done.op {
        assert completed'[|completed|].op == op;
      } else if i :| 0 <= i < |completed| && completed[i].op == op {
        assert completed'[i].op == op;
      }
    }
  }

  lemma OnceAfterDone(submitted: set<Operation>, actions: map<Curl, Action>, completed: seq<Completion>,
                      c: Curl, done: Completion)
    requires ExactlyOnce(submitted, actions, completed) && c in actions && done.op == actions[c].op
    ensures ExactlyOnce(submitted, actions - {c}, completed + [done])
  {
    var completed', actions' := completed + [done], actions - {c};
    forall op | op in submitted
      ensures || (exists d :: d in actions' && actions'[d].op == op)
              || (exists i :: 0 <= i < |completed'| && completed'[i].op == op)
    {
      if i :| 0 <= i < |completed| && completed[i].op == op {
        assert completed'[i].op == op;
      } else {
        var d :| d in actions && actions[d].op == op;
        if d == c {
          assert completed'[|completed|].op == op;
        } else {
          assert actions'[d].op == op;
        }
      }
    }
  }

  lemma AllCompleted(submitted: set<Operation>, completed: seq<Completion>)
    requires ExactlyOnce(submitted, map[], completed)
    ensures (set done | done in completed :: done.op) == submitted
  {
    forall op | op in submitted
      ensures exists done :: done in completed && done.op == op
    {
      var i :| 0 <= i < |completed| && completed[i].op == op;
      assert completed[i] in completed;
    }
  }

  // ---------------------------------------------------------------- the tasks

  /** `running` and `unread` are curl's side: the transfers under way, and the completion messages
      not read yet. `submitted` is history: all operations handed in so far. */
  datatype State = State(
    actions: map<Curl, Action>,
    uploadCount: int,
    runningCount: nat,
    running: set<Curl>,
    unread: seq<Message>,
    completed: seq<Completion>,
    submitted: set<Operation>)

  const EMPTY := State(map[], 0, 0, {}, [], [], {})

  function Finished(s: State, a: Action, code: int): State {
    s.(uploadCount := s.uploadCount - (if a.upload then 1 else 0),
       completed := s.completed + [Completion(a.op, code, a.isInternal)])
  }

  /** handleDone on the oldest message. */
  function ReadOne(s: State): State
    requires s.unread != []
  {
    var m, t := s.unread[0], s.(unread := s.unread[1..]);
    if m.curl !in s.actions then t else Finished(t, s.actions[m.curl], m.code).(actions := s.actions - {m.curl})
  }

  function ReadAll(s: State): State
    decreases |s.unread|
  {
    if s.unread == [] then s else ReadAll(ReadOne(s))
  }

  /** curlPerform: completion messages are read only when the number of running transfers changes. */
  function Performed(s: State, finishing: seq<Message>): State {
    var running := s.running - Curls(finishing);
    var t := s.(running := running, unread := s.unread + finishing, runningCount := |running|);
    if s.runningCount != |running| then ReadAll(t) else t
  }

  /** Whether an operation gets as far as a transfer. */
  predicate Enters(s: State, a: Action, initialised: bool) {
    initialised && (a.upload ==> s.uploadCount < MAX_UPLOADS)
  }

  function Submitted(s: State, a: Action, curl: Curl, initialised: bool, finishing: seq<Message>): State {
    var t := s.(submitted := s.submitted + {a.op}, uploadCount := s.uploadCount + (if a.upload then 1 else 0));
    if !Enters(s, a, initialised) then Finished(t, a, 0)
    else Performed(t.(actions := s.actions[curl := a], running := s.running + {curl}), finishing)
  }

  function Step(s: State, task: Task): State {
    match task
    case Submit(a, curl, initialised, finishing) => Submitted(s, a, curl, initialised, finishing)
    case Perform(finishing) => Performed(s, finishing)
  }

  /** Operations and curl handles are new, uploads are never internal, and curl finishes only what it
      has been given. */
  predicate Legal(s: State, task: Task) {
    match task
    case Submit(a, curl, initialised, finishing) =>
      && a.op !in s.submitted && !(a.upload && a.isInternal)
      && (Enters(s, a, initialised) ==> curl !in s.actions && CanFinish(finishing, s.running + {curl}))
    case Perform(finishing) => CanFinish(finishing, s.running)
  }

  ghost predicate LegalRun(s: State, tasks: seq<Task>)
    decreases |tasks|
  {
    tasks == [] || (Legal(s, tasks[0]) && LegalRun(Step(s, tasks[0]), tasks[1..]))
  }

  function Execute(s: State, tasks: seq<Task>): State
    decreases |tasks|
  {
    if tasks == [] then s else Execute(Step(s, tasks[0]), tasks[1..])
  }

  // ---------------------------------------------------------------- what every task keeps

  /** What holds all through a task. */
  ghost predicate Consistent(s: State) {
    && Tracked(s.actions.Keys, s.running, s.unread)
    && s.uploadCount == |Uploads(s.actions)| <= MAX_UPLOADS
    && ExactlyOnce(s.submitted, s.actions, s.completed)
    && |s.actions| + |s.completed| == |s.submitted|
    && (forall c :: c in s.actions && s.actions[c].upload ==> !s.actions[c].isInternal)
  }

  /** What holds between tasks. */
  ghost predicate Inv(s: State) {
    Consistent(s) && s.runningCount == |s.running|
  }

  lemma EmptyInv()
    ensures Inv(EMPTY)
  {
    assert Uploads(map[]) == {};
  }

  /** A message moves one operation from the table to the completions. */
  lemma ReadOneKeeps(s: State)
    requires Consistent(s) && s.unread != []
    ensures Consistent(ReadOne(s)) && s.unread[0].curl in s.actions
  {
    hide Tracked, ExactlyOnce, Uploads;
    var c := s.unread[0].curl;
    TrackedAfterRead(s.actions.Keys, s.running, s.unread);
    UploadsRemoved(s.actions, c);
    var a := s.actions[c];
    OnceAfterDone(s.submitted, s.actions, s.completed, c, Completion(a.op, s.unread[0].code, a.isInternal));
    assert (s.actions - {c}).Keys == s.actions.Keys - {c};
    OneLess(s.actions, c);
  }

  lemma UploadsCounted(s: State, c: Curl)
    requires Consistent(s) && c in s.actions
    ensures s.actions[c].upload ==> s.uploadCount > 0
    ensures !(s.actions[c].upload && s.actions[c].isInternal)
  {
    hide Tracked, ExactlyOnce;
    if s.actions[c].upload { assert c in Uploads(s.actions); }
  }

  lemma OneLess(actions: map<Curl, Action>, c: Curl)
    requires c in actions
    ensures |actions - {c}| == |actions| - 1
  {
    assert (actions - {c})[c := actions[c]] == actions;
  }

  lemma {:induction false} ReadAllKeeps(s: State)
    requires Consistent(s)
    ensures var t := ReadAll(s);
            Consistent(t) && t.unread == [] && t.running == s.running && t.runningCount == s.runningCount
    decreases |s.unread|
  {
    hide Consistent;
    if s.unread != [] {
      ReadOneKeeps(s);
      ReadAllKeeps(ReadOne(s));
    }
  }

  lemma PerformedKeeps(s: State, finishing: seq<Message>)
    requires Consistent(s) && CanFinish(finishing, s.running)
    ensures Inv(Performed(s, finishing))
  {
    hide Tracked, ExactlyOnce, Uploads, CanFinish, Curls;
    TrackedAfterFinish(s.actions.Keys, s.running, s.unread, finishing);
    var running := s.running - Curls(finishing);
    ReadAllKeeps(s.(running := running, unread := s.unread + finishing, runningCount := |running|));
  }

  lemma StepKeeps(s: State, task: Task)
    requires Inv(s) && Legal(s, task)
    ensures Inv(Step(s, task))
  {
    hide Tracked, ExactlyOnce, Uploads, CanFinish, Performed;
    match task
    case Perform(finishing) => PerformedKeeps(s, finishing);
    case Submit(a, curl, initialised, finishing) =>
      if Enters(s, a, initialised) {
        EnteringKeeps(s, a, curl);
        PerformedKeeps(Entered(s, a, curl), finishing);
      } else {
        OnceAfterRefusal(s.submitted, s.actions, s.completed, Completion(a.op, 0, a.isInternal));
      }
  }

  /** A transfer is entered. */
  function WithTransfer(s: State, a: Action, curl: Curl): State {
    s.(submitted := s.submitted + {a.op}, actions := s.actions[curl := a], running := s.running + {curl})
  }

  function Entered(s: State, a: Action, curl: Curl): State {
    WithTransfer(s.(uploadCount := s.uploadCount + (if a.upload then 1 else 0)), a, curl)
  }

  lemma EnteringKeeps(s: State, a: Action, curl: Curl)
    requires Consistent(s) && a.op !in s.submitted && curl !in s.actions
    requires a.upload ==> s.uploadCount < MAX_UPLOADS && !a.isInternal
    ensures Consistent(Entered(s, a, curl))
  {
    hide Tracked, ExactlyOnce, Uploads;
    OnceAfterStart(s.submitted, s.actions, s.completed, curl, a);
    UploadsAdded(s.actions, curl, a);
    TrackedAfterAdd(s.actions.Keys, s.running, s.unread, curl);
    assert s.actions[curl := a].Keys == s.actions.Keys + {curl};
  }

  lemma StartKeeps(s: State, a: Action, curl: Curl, initialised: bool, finishing: seq<Message>)
    requires Inv(s) && Legal(s, Submit(a, curl, initialised, finishing))
    ensures Inv(Submitted(s, a, curl, initialised, finishing)) && s.uploadCount <= MAX_UPLOADS
    ensures Enters(s, a, initialised) ==> Consistent(Entered(s, a, curl)) && CanFinish(finishing, s.running + {curl})
  {
    StepKeeps(s, Submit(a, curl, initialised, finishing));
    hide Tracked, ExactlyOnce, Uploads, CanFinish;
    if Enters(s, a, initialised) { EnteringKeeps(s, a, curl); }
  }

  lemma {:induction false} ReadAllRuns(s: State)
    ensures ReadAll(s).running == s.running
    decreases |s.unread|
  {
    if s.unread != [] {
      ReadAllRuns(ReadOne(s));
    }
  }

  lemma PerformedRuns(s: State, finishing: seq<Message>)
    ensures Performed(s, finishing).running == s.running - Curls(finishing)
  {
    var running := s.running - Curls(finishing);
    ReadAllRuns(s.(running := running, unread := s.unread + finishing, runningCount := |running|));
  }

  lemma InvIsConsistent(s: State)
    requires Inv(s)
    ensures Consistent(s)
  {}

  // ---------------------------------------------------------------- conservation over every run

  function Operations(tasks: seq<Task>): set<Operation> {
    set i | 0 <= i < |tasks| && tasks[i].Submit? :: tasks[i].action.op
  }

  lemma {:induction false} ExecuteKeeps(s: State, tasks: seq<Task>)
    requires Inv(s) && LegalRun(s, tasks)
    ensures Inv(Execute(s, tasks))
    ensures Execute(s, tasks).submitted == s.submitted + Operations(tasks)
    decreases |tasks|
  {
    hide Inv, Operations, Legal;
    assert Operations([]) == {} by { NoOperations(); }
    if tasks != [] {
      StepKeeps(s, tasks[0]);
      ExecuteKeeps(Step(s, tasks[0]), tasks[1..]);
      StepSubmits(s, tasks[0]);
      OperationsCons(tasks);
    }
  }

  lemma NoOperations()
    ensures Operations([]) == {}
  {}

  lemma OperationsCons(tasks: seq<Task>)
    requires tasks != []
    ensures Operations(tasks) == (if tasks[0].Submit? then {tasks[0].action.op} else {}) + Operations(tasks[1..])
  {
    forall op | op in Operations(tasks)
      ensures op in (if tasks[0].Submit? then {tasks[0].action.op} else {}) + Operations(tasks[1..])
    {
      var i :| 0 <= i < |tasks| && tasks[i].Submit? && tasks[i].action.op == op;
      if i > 0 { assert tasks[1..][i - 1].action.op == op; }
    }
    forall op | op in Operations(tasks[1..])
      ensures op in Operations(tasks)
    {
      var i :| 0 <= i < |tasks[1..]| && tasks[1..][i].Submit? && tasks[1..][i].action.op == op;
      assert tasks[i + 1].action.op == op;
    }
  }

  lemma {:induction false} ReadAllAppends(s: State)
    ensures s.completed <= ReadAll(s).completed && ReadAll(s).submitted == s.submitted
    decreases |s.unread|
  {
    if s.unread != [] {
      ReadAllAppends(ReadOne(s));
    }
  }

  lemma StepSubmits(s: State, task: Task)
    ensures s.completed <= Step(s, task).completed
    ensures Step(s, task).submitted == s.submitted + (if task.Submit? then {task.action.op} else {})
  {
    var finishing := task.finishing;
    var t := if task.Submit? then Entered(s, task.action, task.curl) else s;
    var running := t.running - Curls(finishing);
    ReadAllAppends(t.(running := running, unread := t.unread + finishing, runningCount := |running|));
  }

  /** Completions are never taken back. */
  lemma {:induction false} CompletionsStay(s: State, tasks: seq<Task>)
    ensures s.completed <= Execute(s, tasks).completed
    decreases |tasks|
  {
    if tasks != [] {
      StepSubmits(s, tasks[0]);
      CompletionsStay(Step(s, tasks[0]), tasks[1..]);
    }
  }

  /** Conservation: after any legal run exactly the operations of its tasks have been submitted, each
      of them is in the table or completed, never both and never twice, and the uploads in the table
      are counted and within the limit. With an empty table all of them have completed. */
  lemma Conservation(tasks: seq<Task>)
    requires LegalRun(EMPTY, tasks)
    ensures var s := Execute(EMPTY, tasks);
            && ExactlyOnce(Operations(tasks), s.actions, s.completed)
            && |s.actions| + |s.completed| == |Operations(tasks)|
            && s.uploadCount == |Uploads(s.actions)| <= MAX_UPLOADS
            && (s.actions == map[] ==> (set done | done in s.completed :: done.op) == Operations(tasks))
  {
    EmptyInv();
    ExecuteKeeps(EMPTY, tasks);
    var s := Execute(EMPTY, tasks);
    assert {} + Operations(tasks) == Operations(tasks);
    if s.actions == map[] {
      AllCompleted(s.submitted, s.completed);
    }
  }

  /** The messages of a run. */
  function Reported(tasks: seq<Task>): seq<Message> {
    if tasks == [] then [] else tasks[0].finishing + Reported(tasks[1..])
  }

  /** `a` is still being transferred by `curl`, or has completed with the code of one of `messages`
      about that handle. */
  ghost predicate Accounted(s: State, curl: Curl, a: Action, messages: seq<Message>) {
    || (curl in s.actions && s.actions[curl] == a)
    || exists m :: m in messages && m.curl == curl && Completion(a.op, m.code, a.isInternal) in s.completed
  }

  lemma AccountedStays(s: State, t: State, curl: Curl, a: Action, messages: seq<Message>, more: seq<Message>)
    requires Accounted(s, curl, a, messages) && !(curl in s.actions && s.actions[curl] == a)
    requires s.completed <= t.completed && forall m :: m in messages ==> m in more
    ensures Accounted(t, curl, a, more)
  {
    var m :| m in messages && m.curl == curl && Completion(a.op, m.code, a.isInternal) in s.completed;
    assert m in more;
  }

  lemma {:induction false} ReadAllAccounts(s: State, curl: Curl, a: Action)
    requires curl in s.actions && s.actions[curl] == a
    ensures Accounted(ReadAll(s), curl, a, s.unread)
    ensures forall m :: m in ReadAll(s).unread ==> m in s.unread
    decreases |s.unread|
  {
    if s.unread != [] {
      var m, t := s.unread[0], ReadOne(s);
      assert forall x :: x in t.unread ==> x in s.unread;
      if m.curl == curl {
        assert Completion(a.op, m.code, a.isInternal) in t.completed;
        ReadAllAppends(t);
        ReadAllEmpties(t);
      } else {
        ReadAllAccounts(t, curl, a);
      }
    }
  }

  lemma {:induction false} ReadAllEmpties(s: State)
    ensures ReadAll(s).unread == []
    decreases |s.unread|
  {
    if s.unread != [] {
      ReadAllEmpties(ReadOne(s));
    }
  }

  lemma StepAccounts(s: State, task: Task, curl: Curl, a: Action)
    requires Legal(s, task) && curl in s.actions && s.actions[curl] == a
    ensures Accounted(Step(s, task), curl, a, s.unread + task.finishing)
    ensures forall m :: m in Step(s, task).unread ==> m in s.unread + task.finishing
  {
    var t := if task.Submit? then Entered(s, task.action, task.curl) else s;
    var running := t.running - Curls(task.finishing);
    if task.Submit? && !Enters(s, task.action, task.initialised) {
      assert forall m :: m in s.unread ==> m in s.unread + task.finishing;
    } else {
      ReadAllAccounts(t.(running := running, unread := t.unread + task.finishing, runningCount := |running|), curl, a);
    }
  }

  lemma {:induction false} ExecuteAccounts(s: State, tasks: seq<Task>, curl: Curl, a: Action)
    requires LegalRun(s, tasks) && curl in s.actions && s.actions[curl] == a
    ensures Accounted(Execute(s, tasks), curl, a, s.unread + Reported(tasks))
    decreases |tasks|
  {
    hide Accounted, Step, Legal;
    if tasks == [] {
      TableAccounts(s, curl, a, s.unread + Reported(tasks));
    } else {
      var t := Step(s, tasks[0]);
      var more := s.unread + Reported(tasks);
      StepAccounts(s, tasks[0], curl, a);
      assert more == s.unread + tasks[0].finishing + Reported(tasks[1..]);
      if curl in t.actions && t.actions[curl] == a {
        ExecuteAccounts(t, tasks[1..], curl, a);
        AccountedMore(Execute(t, tasks[1..]), curl, a, t.unread + Reported(tasks[1..]), more);
      } else {
        CompletionsStay(t, tasks[1..]);
        AccountedStays(t, Execute(t, tasks[1..]), curl, a, s.unread + tasks[0].finishing, more);
      }
    }
  }

  lemma TableAccounts(s: State, curl: Curl, a: Action, messages: seq<Message>)
    requires curl in s.actions && s.actions[curl] == a
    ensures Accounted(s, curl, a, messages)
  {}

  lemma AccountedMore(s: State, curl: Curl, a: Action, messages: seq<Message>, more: seq<Message>)
    requires Accounted(s, curl, a, messages) && forall m :: m in messages ==> m in more
    ensures Accounted(s, curl, a, more)
  {
    if !(curl in s.actions && s.actions[curl] == a) {
      AccountedStays(s, s, curl, a, messages, more);
    }
  }

  /** What becomes of the operation that `task` submits in a legal run, whatever came before it and
      comes after it: refused or not built, it has completed with code 0; otherwise it is in the table
      or has completed with a code that curl has reported for its handle since. */
  lemma EveryOperationIsAccounted(before: seq<Task>, task: Task, rest: seq<Task>)
    requires LegalRun(EMPTY, before + [task] + rest) && task.Submit?
    ensures var s, t := Execute(EMPTY, before), Execute(EMPTY, before + [task] + rest);
            if Enters(s, task.action, task.initialised)
            then Accounted(t, task.curl, task.action, Reported([task] + rest))
            else Completion(task.action.op, 0, task.action.isInternal) in t.completed
  {
    hide Accounted, Inv, Consistent, Step;
    var s, a := Execute(EMPTY, before), task.action;
    var t := Step(s, task);
    RunThrough(before, task, rest);
    hide LegalRun, Execute;
    assert ([task] + rest)[1..] == rest;
    if Enters(s, a, task.initialised) {
      NothingUnread(s, task.curl);
      SubmitAccounts(s, task);
      SinceSubmit(s, t, task, rest);
      AccountedOnly(Execute(t, rest), task.curl, a, s.unread, Reported([task] + rest));
    } else {
      RefusedCompletes(s, task);
      CompletionsStay(t, rest);
    }
  }

  lemma SinceSubmit(s: State, t: State, task: Task, rest: seq<Task>)
    requires LegalRun(t, rest) && task.Submit?
    requires Accounted(t, task.curl, task.action, s.unread + task.finishing)
    requires forall m :: m in t.unread ==> m in s.unread + task.finishing
    ensures Accounted(Execute(t, rest), task.curl, task.action, s.unread + Reported([task] + rest))
  {
    hide Accounted, LegalRun, Execute;
    var a, more := task.action, s.unread + Reported([task] + rest);
    assert ([task] + rest)[1..] == rest;
    assert more == s.unread + task.finishing + Reported(rest);
    if task.curl in t.actions && t.actions[task.curl] == a {
      ExecuteAccounts(t, rest, task.curl, a);
      AccountedMore(Execute(t, rest), task.curl, a, t.unread + Reported(rest), more);
    } else {
      CompletionsStay(t, rest);
      AccountedStays(t, Execute(t, rest), task.curl, a, s.unread + task.finishing, more);
    }
  }

  lemma RefusedCompletes(s: State, task: Task)
    requires task.Submit? && !Enters(s, task.action, task.initialised)
    ensures Completion(task.action.op, 0, task.action.isInternal) in Step(s, task).completed
  {}

  /** No unread message is about a handle that is not in the table. */
  lemma NothingUnread(s: State, curl: Curl)
    requires Inv(s) && curl !in s.actions
    ensures forall m :: m in s.unread ==> m.curl != curl
  {
    hide ExactlyOnce, Uploads;
    forall m | m in s.unread
      ensures m.curl != curl
    {
      assert m.curl in Curls(s.unread);
    }
  }

  lemma AccountedOnly(s: State, curl: Curl, a: Action, others: seq<Message>, messages: seq<Message>)
    requires Accounted(s, curl, a, others + messages) && forall m :: m in others ==> m.curl != curl
    ensures Accounted(s, curl, a, messages)
  {}

  lemma RunThrough(before: seq<Task>, task: Task, rest: seq<Task>)
    requires LegalRun(EMPTY, before + [task] + rest)
    ensures var s := Execute(EMPTY, before);
            && Inv(s) && Legal(s, task) && LegalRun(Step(s, task), rest)
            && Execute(EMPTY, before + [task] + rest) == Execute(Step(s, task), rest)
  {
    assert before + ([task] + rest) == before + [task] + rest && ([task] + rest)[1..] == rest;
    RunSplit(EMPTY, before, [task] + rest);
    EmptyInv();
    ExecuteKeeps(EMPTY, before);
  }

  lemma SubmitAccounts(s: State, task: Task)
    requires task.Submit? && Enters(s, task.action, task.initialised)
    ensures Accounted(Step(s, task), task.curl, task.action, s.unread + task.finishing)
    ensures forall m :: m in Step(s, task).unread ==> m in s.unread + task.finishing
  {
    var t := Entered(s, task.action, task.curl);
    var running := t.running - Curls(task.finishing);
    var u := t.(running := running, unread := t.unread + task.finishing, runningCount := |running|);
    ReadAllAccounts(u, task.curl, task.action);
  }

  lemma {:induction false} RunSplit(s: State, a: seq<Task>, b: seq<Task>)
    requires LegalRun(s, a + b)
    ensures LegalRun(s, a) && LegalRun(Execute(s, a), b) && Execute(s, a + b) == Execute(Execute(s, a), b)
    decreases |a|
  {
    hide Legal, Step;
    if a == [] {
      assert a + b == b;
    } else {
      assert (a + b)[1..] == a[1..] + b;
      RunSplit(Step(s, a[0]), a[1..], b);
    }
  }

  // ---------------------------------------------------------------- completions that wait

  /** Distinct messages name as many handles. */
  lemma {:induction false} CurlsCount(messages: seq<Message>)
    requires Distinct(messages)
    ensures |Curls(messages)| == |messages|
  {
    if messages != [] {
      var first, rest := messages[0], messages[1..];
      CurlsCount(rest);
      assert messages == [first] + rest;
      assert Curls(messages) == Curls(rest) + {first.curl};
      assert first.curl !in Curls(rest);
    }
  }

  /** A task that reaches curl leaves no completion unread exactly when the transfers that finish are
      not as many as it adds, or when there is nothing to read; any other leaves all of them unread. */
  lemma WaitsExactly(s: State, task: Task)
    requires Inv(s) && Legal(s, task)
    ensures var t := Step(s, task);
            if task.Submit? && !Enters(s, task.action, task.initialised) then t.unread == s.unread
            else
              t.unread == [] <==>
                || |task.finishing| != (if task.Submit? then 1 else 0)
                || s.unread + task.finishing == []
  {
    var finishing := task.finishing;
    if task.Perform? {
      WaitsAfter(s, finishing, 0);
    } else if Enters(s, task.action, task.initialised) {
      EnteringKeeps(s, task.action, task.curl);
      TransferIsNew(s, task.curl);
      WaitsAfter(Entered(s, task.action, task.curl), finishing, 1);
    }
  }

  lemma TransferIsNew(s: State, curl: Curl)
    requires Inv(s) && curl !in s.actions
    ensures |s.running + {curl}| == s.runningCount + 1
  {
    hide ExactlyOnce, Uploads, Distinct;
    assert curl !in s.running;
  }

  lemma WaitsAfter(s: State, finishing: seq<Message>, added: nat)
    requires CanFinish(finishing, s.running) && |s.running| == s.runningCount + added
    ensures Performed(s, finishing).unread == [] <==> |finishing| != added || s.unread + finishing == []
  {
    var running := s.running - Curls(finishing);
    CurlsCount(finishing);
    assert |running| == |s.running| - |finishing|;
    ReadAllEmpties(s.(running := running, unread := s.unread + finishing, runningCount := |running|));
  }

  function Idle(n: nat): seq<Task> {
    if n == 0 then [] else [Perform([])] + Idle(n - 1)
  }

  /** However often curl is called, nothing changes until a transfer finishes or is added: a completion
      that waits may wait for ever. */
  lemma {:induction false} IdlingChangesNothing(s: State, n: nat)
    requires Inv(s)
    ensures LegalRun(s, Idle(n)) && Execute(s, Idle(n)) == s
    decreases n
  {
    hide Inv, Step, Legal;
    if n > 0 {
      hide LegalRun, Execute;
      assert Idle(n) == [Perform([])] + Idle(n - 1);
      IdleStep(s);
      IdlingChangesNothing(s, n - 1);
      RunCons(s, Perform([]), Idle(n - 1));
    }
  }

  lemma IdleStep(s: State)
    requires Inv(s)
    ensures Legal(s, Perform([])) && Step(s, Perform([])) == s
  {
    hide Consistent;
    assert Curls([]) == {};
    assert s.running - {} == s.running && s.unread + [] == s.unread;
  }

  /** A waiting completion keeps its upload slot: two uploads that finish as they start fill both of
      them with no transfer under way, however long curl goes on, and a third upload is refused. */
  lemma FinishedUploadsKeepTheirSlots(n: nat)
    ensures var tasks := [UploadThatFinishes(0, 7), UploadThatFinishes(1, 8)] + Idle(n);
            var third := Submit(Action(2, true, false), 9, true, []);
            var s := Execute(EMPTY, tasks);
            && LegalRun(EMPTY, tasks) && Legal(s, third)
            && s.running == {} && s.uploadCount == MAX_UPLOADS && |s.actions| == 2 && s.completed == []
            && Step(s, third).completed == [Completion(2, 0, false)]
  {
    TwoSlotsFill(n);
    ThirdIsRefused(WaitingTwo());
    hide Legal, Step, Idle, LegalRun, Execute, UploadThatFinishes;
  }

  lemma TwoSlotsFill(n: nat)
    ensures var tasks := [UploadThatFinishes(0, 7), UploadThatFinishes(1, 8)] + Idle(n);
            LegalRun(EMPTY, tasks) && Execute(EMPTY, tasks) == WaitingTwo()
  {
    hide Legal, Step, Inv, Idle, LegalRun, Execute, WaitingOne, WaitingTwo, UploadThatFinishes;
    var first, second := UploadThatFinishes(0, 7), UploadThatFinishes(1, 8);
    TwoFinish();
    EmptyInv();
    StepKeeps(EMPTY, first);
    StepKeeps(WaitingOne(), second);
    IdlingChangesNothing(WaitingTwo(), n);
    RunCons(WaitingOne(), second, Idle(n));
    RunCons(EMPTY, first, [second] + Idle(n));
    assert [first, second] + Idle(n) == [first] + ([second] + Idle(n));
  }

  function UploadThatFinishes(op: Operation, curl: Curl): Task {
    Submit(Action(op, true, false), curl, true, [Done(curl, 0)])
  }

  function WaitingOne(): State {
    Waiting(map[7 := Action(0, true, false)], [Done(7, 0)], {0})
  }

  function WaitingTwo(): State {
    Waiting(map[7 := Action(0, true, false), 8 := Action(1, true, false)], [Done(7, 0), Done(8, 0)], {0, 1})
  }

  lemma TwoFinish()
    ensures Legal(EMPTY, UploadThatFinishes(0, 7)) && Step(EMPTY, UploadThatFinishes(0, 7)) == WaitingOne()
    ensures Legal(WaitingOne(), UploadThatFinishes(1, 8))
    ensures Step(WaitingOne(), UploadThatFinishes(1, 8)) == WaitingTwo()
  {
    hide Legal, Step;
    var a, b := Action(0, true, false), Action(1, true, false);
    FinishesAtOnce(EMPTY, a, 7);
    FinishesAtOnce(WaitingOne(), b, 8);
    assert EMPTY.actions[7 := a] == map[7 := a] && {} + {0} == {0} && {0} + {1} == {0, 1};
    assert map[7 := a][8 := b] == map[7 := a, 8 := b];
  }

  /** Uploads that have all finished unread. */
  function Waiting(actions: map<Curl, Action>, unread: seq<Message>, submitted: set<Operation>): State {
    State(actions, |actions|, 0, {}, unread, [], submitted)
  }

  lemma RunCons(s: State, task: Task, rest: seq<Task>)
    requires Legal(s, task) && LegalRun(Step(s, task), rest)
    ensures LegalRun(s, [task] + rest) && Execute(s, [task] + rest) == Execute(Step(s, task), rest)
  {
    hide Legal, Step;
    assert ([task] + rest)[1..] == rest;
  }

  lemma ThirdIsRefused(s: State)
    requires 2 !in s.submitted && s.uploadCount == MAX_UPLOADS && s.completed == []
    ensures var third := Submit(Action(2, true, false), 9, true, []);
            Legal(s, third) && Step(s, third).completed == [Completion(2, 0, false)]
  {}

  /** An upload that curl finishes while it is being added, with nothing else under way. */
  lemma FinishesAtOnce(s: State, a: Action, curl: Curl)
    requires s.running == {} && s.runningCount == 0 && s.uploadCount < MAX_UPLOADS
    requires a.op !in s.submitted && a.upload && !a.isInternal && curl !in s.actions
    ensures var task := Submit(a, curl, true, [Done(curl, 0)]);
            && Legal(s, task)
            && Step(s, task) == s.(actions := s.actions[curl := a], uploadCount := s.uploadCount + 1,
                                   unread := s.unread + [Done(curl, 0)], submitted := s.submitted + {a.op})
  {
    assert Curls([Done(curl, 0)]) == {curl};
    assert {} + {curl} - {curl} == {};
    assert s.running + {curl} - {curl} == {};
  }

  // ---------------------------------------------------------------- the class

  class Internal {
    var actions: map<Curl, Action>
    var uploadCount: nat
    var runningCount: nat

    // curl's side
    var running: set<Curl>
    var unread: seq<Message>

    var completed: seq<Completion>
    var submitted: set<Operation>  // bookkeeping of the model

    ghost function View(): State
      reads this
    {
      State(actions, uploadCount, runningCount, running, unread, completed, submitted)
    }

    constructor ()
      ensures View() == EMPTY && Inv(View())
    {
      actions, uploadCount, runningCount := map[], 0, 0;
      running, unread, completed, submitted := {}, [], [], {};
      new;
      EmptyInv();
    }

    /** Removes a finished transfer from the table and completes it. */
    method HandleDone(message: Message)
      requires unread != [] && message == unread[0] && Consistent(View())
      modifies this`actions, this`uploadCount, this`unread, this`completed
      ensures Consistent(View()) && View() == ReadOne(old(View()))
      ensures unread == old(unread)[1..]
      ensures message.curl in old(actions) && actions == old(actions) - {message.curl}
      ensures var a := old(actions)[message.curl];
              completed == old(completed) + [Completion(a.op, message.code, a.isInternal)]
    {
      hide Consistent;
      var c := message.curl;
      ReadOneKeeps(View());
      UploadsCounted(View(), c);
      unread := unread[1..];
      var action := actions[c];
      if action.upload {
        UploadFinished(action.op, message.code);
      } else {
        ActionFinished(action.op, action.isInternal, message.code);
      }
      actions := actions - {c};
    }

    method UploadFinished(op: Operation, code: int)
      requires uploadCount > 0
      modifies this`uploadCount, this`completed
      ensures View() == Finished(old(View()), Action(op, true, false), code)
    {
      uploadCount := uploadCount - 1;
      ActionFinished(op, false, code);
    }

    /** An internal action is called back at once, any other through the main loop. */
    method ActionFinished(op: Operation, isInternal: bool, code: int)
      modifies this`completed
      ensures View() == Finished(old(View()), Action(op, false, isInternal), code)
    {
      completed := completed + [Completion(op, code, isInternal)];
    }

    /** The do loop of curlPerform. */
    method ReadMessages()
      requires Consistent(View())
      modifies this`actions, this`uploadCount, this`unread, this`completed
      ensures Consistent(View()) && View() == ReadAll(old(View())) && unread == []
    {
      hide Consistent, ReadOne;
      while unread != []
        invariant Consistent(View()) && ReadAll(View()) == ReadAll(old(View()))
        decreases |unread|
      {
        HandleDone(unread[0]);
      }
    }

    /** Lets curl work and, only when the number of transfers under way has changed, reads all its
        completion messages: a completion waits when as many transfers finish as were added. */
    method CurlPerform(finishing: seq<Message>)
      requires Consistent(View()) && CanFinish(finishing, running)
      modifies this`actions, this`uploadCount, this`runningCount, this`running, this`unread, this`completed
      ensures Inv(View()) && View() == Performed(old(View()), finishing)
      ensures unread == if |running| != old(runningCount) then [] else old(unread) + finishing
      ensures |running| == old(runningCount) ==> actions == old(actions) && completed == old(completed)
      ensures |running| != old(runningCount) ==> actions.Keys == running
    {
      hide Tracked, ExactlyOnce, Uploads, CanFinish, Curls;
      PerformedKeeps(View(), finishing);
      TrackedAfterFinish(actions.Keys, running, unread, finishing);
      var prevRunningCount := runningCount;
      running := running - Curls(finishing);
      unread := unread + finishing;
      runningCount := |running|;
      if prevRunningCount != runningCount {
        ReadMessages();
        AllRead(actions.Keys, running);
      }
    }

    /** Enters a transfer into the table, hands it to curl and lets curl work. */
    method Add(action: Action, curl: Curl, finishing: seq<Message>)
      requires Consistent(WithTransfer(View(), action, curl)) && CanFinish(finishing, running + {curl})
      modifies this
      ensures Inv(View()) && View() == Performed(WithTransfer(old(View()), action, curl), finishing)
    {
      hide Consistent, Performed, CanFinish;
      submitted := submitted + {action.op};
      actions := actions[curl := action];
      running := running + {curl};
      CurlPerform(finishing);
    }

    /** upload(): refused beyond MAX_UPLOADS, completed at once when the request cannot be built,
        otherwise entered into the table. */
    method StartUpload(op: Operation, curl: Curl, initialised: bool, finishing: seq<Message>)
      requires Inv(View()) && Legal(View(), Submit(Action(op, true, false), curl, initialised, finishing))
      modifies this
      ensures Inv(View()) && View() == Step(old(View()), Submit(Action(op, true, false), curl, initialised, finishing))
      ensures old(uploadCount) >= MAX_UPLOADS || !initialised ==>
                && actions == old(actions) && completed == old(completed) + [Completion(op, 0, false)]
                && running == old(running) && unread == old(unread)
      ensures old(uploadCount) < MAX_UPLOADS && initialised ==>
                running == old(running) + {curl} - Curls(finishing)
    {
      hide Inv, Consistent, CanFinish, Curls, Legal, Performed;
      StartKeeps(View(), Action(op, true, false), curl, initialised, finishing);
      uploadCount := uploadCount + 1;
      if uploadCount > MAX_UPLOADS {
        submitted := submitted + {op};
        UploadFinished(op, 0);
        return;
      }
      if !initialised {
        submitted := submitted + {op};
        UploadFinished(op, 0);
        return;
      }
      PerformedRuns(WithTransfer(View(), Action(op, true, false), curl), finishing);
      Add(Action(op, true, false), curl, finishing);
    }

    /** listFolder, continueListFolder, latestFolderCursor, deletePath and deleteBatch share this
        shape; they are not limited in number. */
    method StartRequest(op: Operation, isInternal: bool, curl: Curl, initialised: bool, finishing: seq<Message>)
      requires Inv(View()) && Legal(View(), Submit(Action(op, false, isInternal), curl, initialised, finishing))
      modifies this
      ensures Inv(View())
      ensures View() == Step(old(View()), Submit(Action(op, false, isInternal), curl, initialised, finishing))
      ensures !initialised ==>
                && actions == old(actions) && completed == old(completed) + [Completion(op, 0, isInternal)]
                && running == old(running) && unread == old(unread)
      ensures initialised ==> running == old(running) + {curl} - Curls(finishing)
    {
      hide Inv, Consistent, CanFinish, Curls, Legal, Performed;
      StartKeeps(View(), Action(op, false, isInternal), curl, initialised, finishing);
      if !initialised {
        submitted := submitted + {op};
        ActionFinished(op, isInternal, 0);
        return;
      }
      PerformedRuns(WithTransfer(View(), Action(op, false, isInternal), curl), finishing);
      Add(Action(op, false, isInternal), curl, finishing);
    }

    /** One task of the curl thread. */
    method Do(task: Task)
      requires Inv(View()) && Legal(View(), task)
      modifies this
      ensures Inv(View()) && View() == Step(old(View()), task)
    {
      hide Inv, Consistent, Performed, Submitted, CanFinish;
      match task {
        case Perform(finishing) =>
          InvIsConsistent(View());
          CurlPerform(finishing);
        case Submit(a, curl, initialised, finishing) =>
          if a.upload {
            assert a == Action(a.op, true, false);
            StartUpload(a.op, curl, initialised, finishing);
          } else {
            StartRequest(a.op, a.isInternal, curl, initialised, finishing);
          }
      }
    }

    /** Any legal sequence of curl-thread tasks ends in the state that the tasks determine, to which
        Conservation and EveryOperationIsAccounted apply. */
    method Run(tasks: seq<Task>)
      requires Inv(View()) && LegalRun(View(), tasks)
      modifies this
      ensures Inv(View()) && View() == Execute(old(View()), tasks)
      ensures submitted == old(submitted) + Operations(tasks) && old(completed) <= completed
    {
      ExecuteKeeps(View(), tasks);
      CompletionsStay(View(), tasks);
      hide Inv, Legal, Step, Operations;
      for i := 0 to |tasks|
        invariant Inv(View()) && LegalRun(View(), tasks[i..])
        invariant Execute(View(), tasks[i..]) == Execute(old(View()), tasks)
      {
        assert tasks[i..][1..] == tasks[i + 1..];
        Do(tasks[i]);
      }
    }
  }
}
