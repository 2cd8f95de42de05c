/** Many threads writing one journal file: every interleaving of the steps of upsert and seed, where
    any step may raise instead and a crash is possible between any two of them. */
module JournalThreads {
  import opened Text
  import opened PositionJournal

  type Tid = nat

  datatype Op = Put(position: LocalPosition) | Reset(positions: seq<LocalPosition>)

  function Apply(op: Op, js: seq<LocalPosition>): seq<LocalPosition> {
    match op
    case Put(p) => Upserted(js, p)
    case Reset(ps) => ps
  }

  // Operations one after another.
  function Replay(start: seq<LocalPosition>, ops: seq<Op>): seq<LocalPosition> {
    if ops == [] then start else Apply(ops[|ops| - 1], Replay(start, ops[..|ops| - 1]))
  }

  // A file is absent, cut off in the middle of being written, or whole.
  datatype Contents = Absent | Torn | Whole(js: seq<LocalPosition>)

  function Listing(c: Contents): seq<LocalPosition> {
    if c.Whole? then c.js else []
  }

  // Where a thread stands inside one operation.
  datatype Pc =
    | Wants(op: Op)
    | Locked(op: Op)
    | Loaded(op: Op, js: seq<LocalPosition>)
    | Edited(op: Op, js: seq<LocalPosition>)
    | TempOpen(op: Op, js: seq<LocalPosition>)
    | TempWritten(op: Op, js: seq<LocalPosition>)
    | Replaced(op: Op)

  /** `log` lists the operations whose replace happened, `order` the operations in the order in
      which they took the lock, without those that raised or were cut off by a crash; both only
      describe the run. */
  datatype State = State(
    threads: map<Tid, Pc>, lock: Option<Tid>, file: Contents, temp: Contents, log: seq<Op>, order: seq<Op>)

  datatype Action =
    | Begin(t: Tid, op: Op)
    | Acquire(t: Tid)
    | Load(t: Tid)
    | Edit(t: Tid)
    | OpenTemp(t: Tid)
    | WriteTemp(t: Tid)
    | Replace(t: Tid)
    | Release(t: Tid)
    | Abort(t: Tid)
    | Crash

  function Init(start: seq<LocalPosition>): State {
    State(map[], None, if start == [] then Absent else Whole(start), Absent, [], [])
  }

  // The state after one action, or None when the action is not possible.
  function Next(s: State, a: Action): Option<State> {
    if a.Crash? then Some(s.(threads := map[], lock := None, order := s.log))
    else if a.Begin? then
      if a.t in s.threads then None else Some(s.(threads := s.threads[a.t := Wants(a.op)]))
    else if a.t !in s.threads then None
    else StepThread(s, a, s.threads[a.t])
  }

  function StepThread(s: State, a: Action, pc: Pc): Option<State>
    requires !a.Crash? && !a.Begin?
  {
    match (a, pc)
    case (Acquire(t), Wants(op)) =>
      if s.lock != None then None
      else Some(s.(threads := s.threads[t := Locked(op)], lock := Some(t), order := s.order + [op]))
    // Seeding does not read the file first.
    case (Edit(t), Locked(Reset(ps))) => Some(s.(threads := s.threads[t := Edited(Reset(ps), ps)]))
    case (Load(t), Locked(Put(p))) => Some(s.(threads := s.threads[t := Loaded(Put(p), Listing(s.file))]))
    case (Edit(t), Loaded(op, js)) => Some(s.(threads := s.threads[t := Edited(op, Apply(op, js))]))
    case (OpenTemp(t), Edited(op, js)) => Some(s.(threads := s.threads[t := TempOpen(op, js)], temp := Torn))
    case (WriteTemp(t), TempOpen(op, js)) => Some(s.(threads := s.threads[t := TempWritten(op, js)], temp := Whole(js)))
    case (Replace(t), TempWritten(op, js)) =>
      Some(s.(threads := s.threads[t := Replaced(op)], file := s.temp, temp := Absent, log := s.log + [op]))
    case (Release(t), Replaced(op)) => Some(s.(threads := s.threads - {t}, lock := None))
    // A step that raises: leaving the locked block releases the lock; the temporary file stays.
    case (Abort(t), _) =>
      if pc.Wants? || pc.Replaced? then None
      else Some(s.(threads := s.threads - {t}, lock := None, order := s.log))
    case _ => None
  }

  function Run(start: seq<LocalPosition>, actions: seq<Action>): Option<State> {
    if actions == [] then Some(Init(start))
    else
      match Run(start, actions[..|actions| - 1])
      case None => None
      case Some(s) => Next(s, actions[|actions| - 1])
  }

  // ---------- the invariant ----------

  // What the lock holder knows at its place, and the part of the lock order not yet in the log.
  ghost predicate HolderInv(s: State, pc: Pc) {
    match pc
    case Wants(_) => false
    case Locked(op) => s.order == s.log + [op]
    case Loaded(op, js) => s.order == s.log + [op] && js == Listing(s.file)
    case Edited(op, js) => s.order == s.log + [op] && js == Apply(op, Listing(s.file))
    case TempOpen(op, js) => s.order == s.log + [op] && js == Apply(op, Listing(s.file))
    case TempWritten(op, js) =>
      s.order == s.log + [op] && js == Apply(op, Listing(s.file)) && s.temp == Whole(js)
    case Replaced(op) => s.order == s.log && s.log != [] && s.log[|s.log| - 1] == op
  }

  ghost predicate Inv(start: seq<LocalPosition>, s: State) {
    && s.file != Torn && Listing(s.file) == Replay(start, s.log)
    && (forall t :: t in s.threads && s.lock != Some(t) ==> s.threads[t].Wants?)
    && match s.lock
       case None => s.order == s.log
       case Some(t) => t in s.threads && HolderInv(s, s.threads[t])
  }

  lemma ReplayStep(start: seq<LocalPosition>, ops: seq<Op>, op: Op)
    ensures Replay(start, ops + [op]) == Apply(op, Replay(start, ops))
  {
    assert (ops + [op])[..|ops|] == ops;
  }

  lemma InvStep(start: seq<LocalPosition>, s: State, a: Action)
    requires Inv(start, s) && Next(s, a).Some?
    ensures Inv(start, Next(s, a).value)
    ensures s.log <= Next(s, a).value.log
  {
    hide Replay, StepThread, Listing;
    if !a.Crash? && !a.Begin? {
      if a.Replace? {
        ReplaceStep(start, s, a.t);
      } else if a.Release? || a.Abort? {
        LeaveStep(start, s, a);
      } else {
        HolderStep(start, s, a);
      }
    }
  }

  // The rename puts the operation into the log.
  lemma ReplaceStep(start: seq<LocalPosition>, s: State, t: Tid)
    requires Inv(start, s) && Next(s, Replace(t)).Some?
    ensures Inv(start, Next(s, Replace(t)).value) && s.log <= Next(s, Replace(t)).value.log
  {
    hide Replay, Apply;
    ReplayStep(start, s.log, s.threads[t].op);
  }

  // A thread lets go of the lock, done or not.
  lemma LeaveStep(start: seq<LocalPosition>, s: State, a: Action)
    requires Inv(start, s) && Next(s, a).Some? && (a.Release? || a.Abort?)
    ensures Inv(start, Next(s, a).value) && s.log == Next(s, a).value.log
  {
    hide Replay, Apply, Listing;
  }

  // Any other step of a thread.
  lemma HolderStep(start: seq<LocalPosition>, s: State, a: Action)
    requires Inv(start, s) && Next(s, a).Some?
    requires !a.Crash? && !a.Begin? && !a.Replace? && !a.Release? && !a.Abort?
    ensures Inv(start, Next(s, a).value) && s.log == Next(s, a).value.log
  {
    hide Replay, Upserted, Listing;
  }

  /** Every reachable state, in every interleaving, whatever raised and after any crashes: the file is
      never torn, and it lists exactly what the replaced operations give one after another in the
      order in which they took the lock; the only operation of that order that can be missing is the
      one whose thread holds the lock. */
  lemma {:induction false} EveryInterleaving(start: seq<LocalPosition>, actions: seq<Action>)
    requires Run(start, actions).Some?
    ensures var s := Run(start, actions).value;
            && Inv(start, s)
            && s.file != Torn && Listing(s.file) == Replay(start, s.log)
            && (s.order == s.log || (s.lock != None && exists op :: s.order == s.log + [op]))
            && (s.lock == None ==> Listing(s.file) == Replay(start, s.order))
  {
    if actions != [] {
      var before := actions[..|actions| - 1];
      EveryInterleaving(start, before);
      InvStep(start, Run(start, before).value, actions[|actions| - 1]);
    }
    var s := Run(start, actions).value;
    if s.order != s.log {
      var op := s.threads[s.lock.value].op;
      assert s.order == s.log + [op];
    }
  }

  /** What anyone who opens the file at some point of a run reads, including after a crash right
      there: the complete list after some number of the operations that the whole run completes. */
  lemma {:induction false} ReadersSeeWholeLists(start: seq<LocalPosition>, actions: seq<Action>, at: nat)
    requires at <= |actions| && Run(start, actions).Some?
    ensures Run(start, actions[..at]).Some?
    ensures var seen, end := Run(start, actions[..at]).value, Run(start, actions).value;
            && seen.log <= end.log
            && Listing(seen.file) == Replay(start, end.log[..|seen.log|])
    decreases |actions|
  {
    EveryInterleaving(start, actions);
    if at == |actions| {
      assert actions[..at] == actions;
      var end := Run(start, actions).value;
      assert end.log[..|end.log|] == end.log;
    } else {
      var before := actions[..|actions| - 1];
      assert before[..at] == actions[..at];
      ReadersSeeWholeLists(start, before, at);
      EveryInterleaving(start, before);
      InvStep(start, Run(start, before).value, actions[|actions| - 1]);
      var seen, mid, end := Run(start, actions[..at]).value, Run(start, before).value, Run(start, actions).value;
      assert end.log[..|seen.log|] == mid.log[..|seen.log|];
    }
  }

  /** An operation that has returned is in the file for good: from the release on, the log of
      replaced operations contains it. */
  lemma ReleasedIsLogged(start: seq<LocalPosition>, actions: seq<Action>, t: Tid)
    requires Run(start, actions).Some? && Next(Run(start, actions).value, Release(t)).Some?
    ensures var s := Run(start, actions).value;
            t in s.threads && s.lock == Some(t) && s.log != [] && s.log[|s.log| - 1] == s.threads[t].op
  {
    EveryInterleaving(start, actions);
  }

  // ---------- progress ----------

  // The steps of one operation from the lock on; seeding does not load.
  function Steps(t: Tid, op: Op): seq<Action> {
    [Acquire(t)] + (if op.Put? then [Load(t)] else []) + [Edit(t), OpenTemp(t), WriteTemp(t), Replace(t), Release(t)]
  }

  function RunFrom(s: State, actions: seq<Action>): Option<State>
    decreases |actions|
  {
    if actions == [] then Some(s)
    else
      match Next(s, actions[0])
      case None => None
      case Some(next) => RunFrom(next, actions[1..])
  }

  // The state after an operation of thread t that nothing interrupts.
  function Done(s: State, t: Tid, op: Op): State {
    var js := Apply(op, Listing(s.file));
    State(s.threads - {t}, None, Whole(js), Absent, s.log + [op], s.order + [op])
  }

  lemma StepOn(s: State, a: Action, actions: seq<Action>)
    requires Next(s, a).Some?
    ensures RunFrom(s, [a] + actions) == RunFrom(Next(s, a).value, actions)
  {
    assert ([a] + actions)[1..] == actions;
  }

  // From the edited list on: write beside, then rename over and let go.
  lemma FinishWrite(s: State, t: Tid, op: Op, js: seq<LocalPosition>)
    requires t in s.threads && s.threads[t] == Edited(op, js)
    ensures RunFrom(s, [OpenTemp(t), WriteTemp(t), Replace(t), Release(t)])
            == Some(State(s.threads - {t}, None, Whole(js), Absent, s.log + [op], s.order))
  {
    hide RunFrom;
    var s1 := Next(s, OpenTemp(t)).value;
    var s2 := Next(s1, WriteTemp(t)).value;
    StepOn(s, OpenTemp(t), [WriteTemp(t), Replace(t), Release(t)]);
    StepOn(s1, WriteTemp(t), [Replace(t), Release(t)]);
    FinishReplace(s2, t, op, js);
    assert [WriteTemp(t)] + [Replace(t), Release(t)] == [WriteTemp(t), Replace(t), Release(t)];
    assert [OpenTemp(t)] + [WriteTemp(t), Replace(t), Release(t)] == [OpenTemp(t), WriteTemp(t), Replace(t), Release(t)];
    assert s2.threads - {t} == s.threads - {t};
  }

  lemma FinishReplace(s: State, t: Tid, op: Op, js: seq<LocalPosition>)
    requires t in s.threads && s.threads[t] == TempWritten(op, js) && s.temp == Whole(js)
    ensures RunFrom(s, [Replace(t), Release(t)])
            == Some(State(s.threads - {t}, None, Whole(js), Absent, s.log + [op], s.order))
  {
    var next := Next(s, Replace(t)).value;
    StepOn(s, Replace(t), [Release(t)]);
    StepOn(next, Release(t), []);
    assert [Release(t)] + [] == [Release(t)];
    assert [Replace(t)] + [Release(t)] == [Replace(t), Release(t)];
    assert next.threads - {t} == s.threads - {t};
  }

  /** An operation that gets the lock and is not interrupted completes: the file then lists what it
      makes of the list before, and the lock is free again. */
  lemma OperationCompletes(s: State, t: Tid, op: Op)
    requires s.lock == None && t in s.threads && s.threads[t] == Wants(op)
    ensures RunFrom(s, Steps(t, op)) == Some(Done(s, t, op))
  {
    hide RunFrom;
    var rest := [OpenTemp(t), WriteTemp(t), Replace(t), Release(t)];
    var s1 := Next(s, Acquire(t)).value;
    var js := Apply(op, Listing(s.file));
    if op.Put? {
      var s2 := Next(s1, Load(t)).value;
      var s3 := Next(s2, Edit(t)).value;
      StepOn(s, Acquire(t), [Load(t)] + ([Edit(t)] + rest));
      StepOn(s1, Load(t), [Edit(t)] + rest);
      StepOn(s2, Edit(t), rest);
      FinishWrite(s3, t, op, js);
      assert Steps(t, op) == [Acquire(t)] + ([Load(t)] + ([Edit(t)] + rest));
      assert s3.threads - {t} == s.threads - {t};
    } else {
      var s3 := Next(s1, Edit(t)).value;
      StepOn(s, Acquire(t), [Edit(t)] + rest);
      StepOn(s1, Edit(t), rest);
      FinishWrite(s3, t, op, js);
      assert Steps(t, op) == [Acquire(t)] + ([Edit(t)] + rest);
      assert s3.threads - {t} == s.threads - {t};
    }
  }

  lemma {:induction false} RunOn(start: seq<LocalPosition>, actions: seq<Action>, more: seq<Action>)
    requires Run(start, actions).Some?
    ensures Run(start, actions + more) == RunFrom(Run(start, actions).value, more)
    decreases |more|
  {
    hide Next;
    if more == [] {
      assert actions + more == actions;
    } else {
      var s, longer := Run(start, actions).value, actions + [more[0]];
      assert longer[..|longer| - 1] == actions;
      assert Run(start, longer) == Next(s, more[0]);
      assert longer + more[1..] == actions + more;
      if Next(s, more[0]).Some? {
        RunOn(start, longer, more[1..]);
      } else {
        RunStops(start, longer, more[1..]);
      }
    }
  }

  lemma {:induction false} RunStops(start: seq<LocalPosition>, actions: seq<Action>, more: seq<Action>)
    requires Run(start, actions) == None
    ensures Run(start, actions + more) == None
  {
    hide Next;
    if more == [] {
      assert actions + more == actions;
    } else {
      RunStops(start, actions, more[..|more| - 1]);
      assert (actions + more)[..|actions + more| - 1] == actions + more[..|more| - 1];
    }
  }

  /** So a thread that wants to run an operation in some reachable state with a free lock can complete
      it: the run goes on, and afterwards the file lists what the operation makes of the list before. */
  lemma RunCompletes(start: seq<LocalPosition>, actions: seq<Action>, t: Tid, op: Op)
    requires Run(start, actions).Some? && Run(start, actions).value.lock == None
    requires t in Run(start, actions).value.threads && Run(start, actions).value.threads[t] == Wants(op)
    ensures Run(start, actions + Steps(t, op)) == Some(Done(Run(start, actions).value, t, op))
  {
    hide Run, Done, Steps;
    RunOn(start, actions, Steps(t, op));
    OperationCompletes(Run(start, actions).value, t, op);
  }

  /** There is no deadlock: in every reachable state a thread that is not there can begin, and as long as
      a thread is inside an operation, the holder of the lock has a next step, or anyone when the lock is
      free. The holder can also raise until it has replaced the file, and then leaves
      it as it was. */
  lemma NoDeadlock(start: seq<LocalPosition>, actions: seq<Action>, t: Tid, op: Op)
    requires Run(start, actions).Some?
    ensures var s := Run(start, actions).value;
            && (t !in s.threads ==>
                  Next(s, Begin(t, op)).Some? && Next(s, Begin(t, op)).value.threads == s.threads[t := Wants(op)])
            && (t in s.threads ==>
                  var holder := if s.lock.Some? then s.lock.value else t;
                  holder in s.threads && Next(s, NextMove(holder, s.threads[holder])).Some?)
            && (t in s.threads && s.lock == Some(t) && !s.threads[t].Replaced? ==>
                  var aborted := Next(s, Abort(t));
                  aborted.Some? && aborted.value.file == s.file && aborted.value.lock == None)
  {
    hide Run, Replay, Apply;
    EveryInterleaving(start, actions);
    var s := Run(start, actions).value;
    if t in s.threads {
      var holder := if s.lock.Some? then s.lock.value else t;
      MoveEnabled(s, holder);
    }
  }

  // The next step of a thread inside an operation.
  function NextMove(t: Tid, pc: Pc): Action {
    match pc
    case Wants(_) => Acquire(t)
    case Locked(op) => if op.Put? then Load(t) else Edit(t)
    case Loaded(_, _) => Edit(t)
    case Edited(_, _) => OpenTemp(t)
    case TempOpen(_, _) => WriteTemp(t)
    case TempWritten(_, _) => Replace(t)
    case Replaced(_) => Release(t)
  }

  lemma MoveEnabled(s: State, t: Tid)
    requires t in s.threads && (s.threads[t].Wants? ==> s.lock == None)
    ensures Next(s, NextMove(t, s.threads[t])).Some?
  {
  }

  function Puts(ps: seq<LocalPosition>): seq<Op> {
    seq(|ps|, i requires 0 <= i < |ps| => Put(ps[i]))
  }

  /** When threads only upsert, starting from no file, a free lock means the file is the journal of
      the upserts in lock order: each id once, in first-insertion order, with its last record. */
  lemma ConcurrentUpsertsRefineMap(actions: seq<Action>, ps: seq<LocalPosition>)
    requires Run([], actions).Some? && Run([], actions).value.lock == None
    requires Run([], actions).value.order == Puts(ps)
    ensures var js := Listing(Run([], actions).value.file);
            js == Journal(ps) && Ids(js) == FirstIds(ps) && forall id :: GetPosition(js, id) == LastWith(ps, id)
  {
    EveryInterleaving([], actions);
    ReplayOfPuts(ps);
    JournalRefinesMap(ps);
  }

  lemma {:induction false} ReplayOfPuts(ps: seq<LocalPosition>)
    ensures Replay([], Puts(ps)) == Journal(ps)
  {
    if ps != [] {
      ReplayOfPuts(ps[..|ps| - 1]);
      assert Puts(ps)[..|ps| - 1] == Puts(ps[..|ps| - 1]);
    }
  }
}
