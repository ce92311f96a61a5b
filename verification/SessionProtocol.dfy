/**
  Every interleaving of sends and decrypts that go through `SessionLocks::lock`
  (src/session_lock.rs, src/sender.rs, src/cipher.rs), as a state machine over single steps.

  A task works through a list of jobs. A job is one `lock(peer)` scope: it takes the table
  mutex, resolves the peer's lock, waits for it, then runs load/ratchet/store cycles on that
  peer's sessions with a yield point between each load and its store, and drops the guard.
  A job may stop early at any point (an error return, or the future being dropped).
 */
module SessionProtocol {
  import opened Prelude
  import SessionLocks

  /** A stored session record: opaque to this crate. */
  type Record(!new, ==)

  datatype Address = Address(peer: ServiceId, device: nat)

  type Store = map<Address, Record>

  function Get(store: Store, addr: Address): Option<Record> {
    if addr in store then Some(store[addr]) else None
  }

  function Put(store: Store, addr: Address, r: Option<Record>): Store {
    match r
    case Some(rec) => store[addr := rec]
    case None => store - {addr}
  }

  /** One load/ratchet/store cycle; `None` before is "no session", `None` after deletes it. */
  datatype Cycle = Cycle(device: nat, ratchet: Option<Record> -> Option<Record>)

  datatype Job = Job(peer: ServiceId, cycles: seq<Cycle>)

  datatype Pc =
    | Idle
    | InTable                // holds the table mutex
    | Waiting(lock: nat)
    | Holding(lock: nat, done: nat, loaded: Option<Option<Record>>)

  datatype Task = Task(jobs: seq<Job>, at: nat, pc: Pc)
  {
    predicate Finished() { at >= |jobs| }

    function Current(): Job
      requires !Finished()
    {
      jobs[at]
    }

    function Addr(): Address
      requires !Finished() && pc.Holding? && pc.done < |Current().cycles|
    {
      Address(Current().peer, Current().cycles[pc.done].device)
    }
  }

  /** The store of cycle `cycle` of job `job` of task `task` took effect. */
  datatype Commit = Commit(task: nat, job: nat, cycle: nat)

  /** `log` and `finished` are history: what was stored, in order, and which jobs ran to their end. */
  datatype State = State(
    table: map<ServiceId, nat>,
    tableOwner: Option<nat>,
    locks: seq<Option<nat>>,
    store: Store,
    tasks: seq<Task>,
    log: seq<Commit>,
    finished: set<(nat, nat)>)

  datatype Choice = Go | Fail | Cancel

  // -- steps -------------------------------------------------------------

  predicate Enabled(s: State, t: nat, c: Choice) {
    t < |s.tasks| && !s.tasks[t].Finished() &&
    match s.tasks[t].pc
    case Idle => c.Go? && s.tableOwner.None?
    case InTable => c.Go?
    case Waiting(l) => c.Cancel? || (c.Go? && l < |s.locks| && s.locks[l].None?)
    case Holding(l, _, _) => l < |s.locks|
  }

  function SetPc(s: State, t: nat, pc: Pc): State
    requires t < |s.tasks|
  {
    s.(tasks := s.tasks[t := s.tasks[t].(pc := pc)])
  }

  /** The guard is dropped: go on with the next job, or give the whole task up. */
  function Release(s: State, t: nat, c: Choice): State
    requires Enabled(s, t, c) && s.tasks[t].pc.Holding?
  {
    var task := s.tasks[t];
    s.(locks := s.locks[task.pc.lock := None],
       tasks := s.tasks[t := task.(pc := Idle, at := if c.Cancel? then |task.jobs| else task.at + 1)],
       finished := if c.Go? then s.finished + {(t, task.at)} else s.finished)
  }

  function Resolve(s: State, t: nat): State
    requires Enabled(s, t, Go) && s.tasks[t].pc.InTable?
  {
    var peer := s.tasks[t].Current().peer;
    if peer in s.table then
      SetPc(s.(tableOwner := None), t, Waiting(s.table[peer]))
    else
      SetPc(s.(tableOwner := None, table := s.table[peer := |s.locks|], locks := s.locks + [None]),
            t, Waiting(|s.locks|))
  }

  function Ratchet(s: State, t: nat): State
    requires Enabled(s, t, Go) && s.tasks[t].pc.Holding? && s.tasks[t].pc.done < |s.tasks[t].Current().cycles|
  {
    var task := s.tasks[t];
    match task.pc.loaded
    case None => SetPc(s, t, task.pc.(loaded := Some(Get(s.store, task.Addr()))))
    case Some(r) =>
      var stored := task.Current().cycles[task.pc.done].ratchet(r);
      SetPc(s.(store := Put(s.store, task.Addr(), stored),
               log := s.log + [Commit(t, task.at, task.pc.done)]),
            t, Holding(task.pc.lock, task.pc.done + 1, None))
  }

  function Step(s: State, t: nat, c: Choice): State
    requires Enabled(s, t, c)
  {
    var task := s.tasks[t];
    match task.pc
    case Idle => SetPc(s.(tableOwner := Some(t)), t, InTable)
    case InTable => Resolve(s, t)
    case Waiting(l) =>
      if c.Cancel? then s.(tasks := s.tasks[t := task.(pc := Idle, at := |task.jobs|)])
      else SetPc(s.(locks := s.locks[l := Some(t)]), t, Holding(l, 0, None))
    case Holding(_, done, _) =>
      if c.Go? && done < |task.Current().cycles| then Ratchet(s, t) else Release(s, t, c)
  }

  ghost predicate Init(s: State) {
    && s.table == map[] && s.tableOwner.None? && s.locks == [] && s.log == [] && s.finished == {}
    && forall t :: 0 <= t < |s.tasks| ==> s.tasks[t].at == 0 && s.tasks[t].pc.Idle?
  }

  ghost predicate Next(s: State, s': State) {
    exists t: nat, c :: Enabled(s, t, c) && s' == Step(s, t, c)
  }

  ghost predicate IsRun(run: seq<State>) {
    && |run| > 0 && Init(run[0])
    && forall i :: 0 <= i < |run| - 1 ==> Next(run[i], run[i + 1])
  }

  // -- what the stores amount to ------------------------------------------

  ghost predicate Known(jobs: seq<seq<Job>>, c: Commit) {
    c.task < |jobs| && c.job < |jobs[c.task]| && c.cycle < |jobs[c.task][c.job].cycles|
  }

  ghost predicate AllKnown(jobs: seq<seq<Job>>, log: seq<Commit>) {
    forall c :: c in log ==> Known(jobs, c)
  }

  function PeerOf(jobs: seq<seq<Job>>, c: Commit): ServiceId
    requires Known(jobs, c)
  {
    jobs[c.task][c.job].peer
  }

  /** One cycle run as a single atomic step. */
  function Apply(jobs: seq<seq<Job>>, store: Store, c: Commit): Store
    requires Known(jobs, c)
  {
    var cycle := jobs[c.task][c.job].cycles[c.cycle];
    var addr := Address(PeerOf(jobs, c), cycle.device);
    Put(store, addr, cycle.ratchet(Get(store, addr)))
  }

  /** The serial execution: the logged cycles run one after the other, each atomically. */
  function Replay(jobs: seq<seq<Job>>, store: Store, log: seq<Commit>): Store
    requires AllKnown(jobs, log)
  {
    if log == [] then store
    else Apply(jobs, Replay(jobs, store, log[..|log| - 1]), log[|log| - 1])
  }

  /** The commits to one peer's sessions, in order. */
  function PeerLog(jobs: seq<seq<Job>>, log: seq<Commit>, peer: ServiceId): (r: seq<Commit>)
    requires AllKnown(jobs, log)
    ensures forall c :: c in r <==> c in log && PeerOf(jobs, c) == peer
  {
    if log == [] then []
    else
      var rest := PeerLog(jobs, log[..|log| - 1], peer);
      assert forall c :: c in log <==> c in log[..|log| - 1] || c == log[|log| - 1];
      if PeerOf(jobs, log[|log| - 1]) == peer then rest + [log[|log| - 1]] else rest
  }

  function JobsOf(s: State): seq<seq<Job>> {
    seq(|s.tasks|, t requires 0 <= t < |s.tasks| => s.tasks[t].jobs)
  }

  // -- invariant -----------------------------------------------------------

  /** Every lock object has one peer, and what a task believes about locks is true. */
  ghost predicate LocksOk(s: State) {
    && SessionLocks.Distinct(s.table)
    && (forall p :: p in s.table ==> s.table[p] < |s.locks|)
    && (s.tableOwner.Some? ==> s.tableOwner.value < |s.tasks| && s.tasks[s.tableOwner.value].pc.InTable?)
    && (forall l :: 0 <= l < |s.locks| && s.locks[l].Some? ==>
          s.locks[l].value < |s.tasks| && s.tasks[s.locks[l].value].pc.Holding? && s.tasks[s.locks[l].value].pc.lock == l)
    && (forall t :: 0 <= t < |s.tasks| ==> TaskOk(s, t))
  }

  ghost predicate TaskOk(s: State, t: nat)
    requires t < |s.tasks|
  {
    var task := s.tasks[t];
    match task.pc
    case Idle => true
    case InTable => !task.Finished() && s.tableOwner == Some(t)
    case Waiting(l) => !task.Finished() && task.Current().peer in s.table && s.table[task.Current().peer] == l
    case Holding(l, done, _) =>
      && !task.Finished() && task.Current().peer in s.table && s.table[task.Current().peer] == l
      && l < |s.locks| && s.locks[l] == Some(t) && done <= |task.Current().cycles|
  }

  /** What a holder loaded is still what is stored: nothing was written behind its back. */
  ghost predicate LoadsOk(s: State) {
    forall t :: 0 <= t < |s.tasks| ==> LoadOk(s, t)
  }

  ghost predicate LoadOk(s: State, t: nat)
    requires t < |s.tasks|
  {
    s.tasks[t].pc.Holding? && s.tasks[t].pc.loaded.Some? ==>
      && !s.tasks[t].Finished() && s.tasks[t].pc.done < |s.tasks[t].Current().cycles|
      && s.tasks[t].pc.loaded.value == Get(s.store, s.tasks[t].Addr())
  }

  /** Only what a task has really done so far is logged. */
  ghost predicate LogSound(s: State) {
    forall c :: c in s.log ==> LoggedOk(s, c)
  }

  ghost predicate LoggedOk(s: State, c: Commit) {
    && Known(JobsOf(s), c)
    && c.job <= s.tasks[c.task].at
    && (c.job == s.tasks[c.task].at ==> s.tasks[c.task].pc.Holding? && c.cycle < s.tasks[c.task].pc.done)
  }

  ghost predicate LogOnce(s: State) {
    forall i, j :: 0 <= i < j < |s.log| ==> s.log[i] != s.log[j]
  }

  /** Everything a holder has stored so far is logged. */
  ghost predicate HoldersLogged(s: State) {
    forall t, k {:trigger Commit(t, s.tasks[t].at, k)} ::
      (0 <= t < |s.tasks| && s.tasks[t].pc.Holding? && 0 <= k < s.tasks[t].pc.done) ==> Commit(t, s.tasks[t].at, k) in s.log
  }

  /** Everything a finished job had to store is logged. */
  ghost predicate FinishedLogged(s: State) {
    forall t, j, k {:trigger Commit(t, j, k)} ::
      (0 <= t < |s.tasks| && 0 <= j < |s.tasks[t].jobs| && (t, j) in s.finished &&
       0 <= k < |s.tasks[t].jobs[j].cycles|) ==>
        Commit(t, j, k) in s.log
  }

  ghost predicate LogComplete(s: State) {
    HoldersLogged(s) && FinishedLogged(s)
  }

  ghost predicate LogOk(s: State) {
    LogSound(s) && LogOnce(s) && LogComplete(s)
  }

  /** Neighbours in a peer's log are consecutive cycles of one job, or the second starts a job. */
  ghost predicate Chained(log: seq<Commit>) {
    forall i :: 0 <= i < |log| && log[i].cycle != 0 ==> i > 0 && log[i - 1] == log[i].(cycle := log[i].cycle - 1)
  }

  /** The holder of a peer made the last commit to it, if it made any in its current job. */
  ghost predicate LastIsHolders(s: State, t: nat)
    requires AllKnown(JobsOf(s), s.log) && t < |s.tasks|
  {
    s.tasks[t].pc.Holding? && s.tasks[t].pc.done > 0 ==>
      !s.tasks[t].Finished() &&
      var pl := PeerLog(JobsOf(s), s.log, s.tasks[t].Current().peer);
      |pl| > 0 && pl[|pl| - 1] == Commit(t, s.tasks[t].at, s.tasks[t].pc.done - 1)
  }

  ghost predicate SerialOk(s: State) {
    && AllKnown(JobsOf(s), s.log)
    && (forall p :: Chained(PeerLog(JobsOf(s), s.log, p)))
    && (forall t :: 0 <= t < |s.tasks| ==> LastIsHolders(s, t))
  }

  ghost predicate Inv(initial: Store, s: State) {
    && LocksOk(s) && LoadsOk(s) && LogOk(s) && SerialOk(s)
    && s.store == Replay(JobsOf(s), initial, s.log)
  }

  lemma InitInv(s: State)
    requires Init(s)
    ensures Inv(s.store, s)
  {
  }

  lemma StepKeepsJobs(s: State, t: nat, c: Choice)
    requires Enabled(s, t, c)
    ensures JobsOf(Step(s, t, c)) == JobsOf(s)
  {
  }

  lemma StepKeepsOwnTask(s: State, t: nat, c: Choice)
    requires LocksOk(s) && Enabled(s, t, c)
    ensures TaskOk(Step(s, t, c), t)
  {
    assert TaskOk(s, t);
  }

  lemma StepKeepsOtherTask(s: State, t: nat, c: Choice, u: nat)
    requires LocksOk(s) && Enabled(s, t, c) && u < |s.tasks| && u != t
    ensures TaskOk(Step(s, t, c), u)
  {
    assert TaskOk(s, t) && TaskOk(s, u);
  }

  /** The table only grows, and the lock a peer has is the lock it keeps. */
  lemma StepKeepsTable(s: State, t: nat, c: Choice)
    requires LocksOk(s) && Enabled(s, t, c)
    ensures var s' := Step(s, t, c);
            && |s.locks| <= |s'.locks| && SessionLocks.Distinct(s'.table)
            && (forall p :: p in s'.table ==> s'.table[p] < |s'.locks|)
            && (forall p :: p in s.table ==> p in s'.table && s'.table[p] == s.table[p])
            && (s.tasks[t].pc.InTable? ==>
                  SessionLocks.Resolved(s.table, s'.table, s.tasks[t].Current().peer, s'.tasks[t].pc.lock))
  {
    var s' := Step(s, t, c);
    if s.tasks[t].pc.InTable? {
      SessionLocks.ResolvedKeepsIdentity(s.table, s'.table, s.tasks[t].Current().peer, s'.tasks[t].pc.lock);
    }
  }

  lemma StepKeepsLocks(s: State, t: nat, c: Choice)
    requires LocksOk(s) && Enabled(s, t, c)
    ensures LocksOk(Step(s, t, c))
  {
    assert TaskOk(s, t);
    StepKeepsTable(s, t, c);
    forall u | 0 <= u < |s.tasks|
      ensures TaskOk(Step(s, t, c), u)
    {
      if u == t {
        StepKeepsOwnTask(s, t, c);
      } else {
        StepKeepsOtherTask(s, t, c, u);
      }
    }
    StepKeepsOwners(s, t, c);
  }

  /** A lock marked as held is held by the task it names. */
  lemma StepKeepsOwners(s: State, t: nat, c: Choice)
    requires LocksOk(s) && Enabled(s, t, c)
    ensures var s' := Step(s, t, c);
            forall l :: 0 <= l < |s'.locks| && s'.locks[l].Some? ==>
              var u := s'.locks[l].value;
              u < |s'.tasks| && s'.tasks[u].pc.Holding? && s'.tasks[u].pc.lock == l
  {
    assert TaskOk(s, t);
  }

  /** Two tasks never hold the same peer's sessions at once. */
  lemma MutualExclusion(s: State, t: nat, u: nat)
    requires LocksOk(s) && t < |s.tasks| && u < |s.tasks|
    requires s.tasks[t].pc.Holding? && s.tasks[u].pc.Holding?
    requires !s.tasks[t].Finished() && !s.tasks[u].Finished()
    requires s.tasks[t].Current().peer == s.tasks[u].Current().peer
    ensures t == u
  {
    assert TaskOk(s, t) && TaskOk(s, u);
  }

  lemma StepKeepsOthersLoad(s: State, t: nat, c: Choice, u: nat)
    requires LocksOk(s) && LoadsOk(s) && Enabled(s, t, c) && u < |s.tasks| && u != t
    ensures LoadOk(Step(s, t, c), u)
  {
    assert TaskOk(s, t) && TaskOk(s, u) && LoadOk(s, u);
    if s.tasks[u].pc.Holding? && s.tasks[t].pc.Holding? && s.tasks[t].Current().peer == s.tasks[u].Current().peer {
      MutualExclusion(s, t, u);
    }
  }

  lemma StepKeepsLoads(s: State, t: nat, c: Choice)
    requires LocksOk(s) && LoadsOk(s) && Enabled(s, t, c)
    ensures LoadsOk(Step(s, t, c))
  {
    assert TaskOk(s, t) && LoadOk(s, t);
    forall u | 0 <= u < |s.tasks|
      ensures LoadOk(Step(s, t, c), u)
    {
      if u != t {
        StepKeepsOthersLoad(s, t, c, u);
      }
    }
  }

  lemma StepKeepsLogSound(s: State, t: nat, c: Choice)
    requires LocksOk(s) && LogSound(s) && Enabled(s, t, c)
    ensures LogSound(Step(s, t, c))
  {
    assert TaskOk(s, t);
    StepKeepsJobs(s, t, c);
    var s' := Step(s, t, c);
    forall e | e in s'.log
      ensures LoggedOk(s', e)
    {
      if e in s.log {
        assert LoggedOk(s, e);
      }
    }
  }

  lemma StepKeepsLogOnce(s: State, t: nat, c: Choice)
    requires LocksOk(s) && LogSound(s) && LogOnce(s) && Enabled(s, t, c)
    ensures LogOnce(Step(s, t, c))
  {
    assert TaskOk(s, t);
    forall e | e in s.log && e.task == t && e.job == s.tasks[t].at
      ensures s.tasks[t].pc.Holding? && e.cycle < s.tasks[t].pc.done
    {
      assert LoggedOk(s, e);
    }
  }

  lemma StepKeepsHoldersLogged(s: State, t: nat, c: Choice)
    requires LocksOk(s) && HoldersLogged(s) && Enabled(s, t, c)
    ensures HoldersLogged(Step(s, t, c))
  {
    assert TaskOk(s, t);
    assert forall e :: e in s.log ==> e in Step(s, t, c).log;
  }

  /** A job that finishes has stored everything it had to. */
  lemma StepKeepsFinishedLogged(s: State, t: nat, c: Choice)
    requires LocksOk(s) && LogComplete(s) && Enabled(s, t, c)
    ensures FinishedLogged(Step(s, t, c))
  {
    assert TaskOk(s, t);
    var s' := Step(s, t, c);
    assert forall e :: e in s.log ==> e in s'.log;
    forall u, j, k | 0 <= u < |s'.tasks| && 0 <= j < |s'.tasks[u].jobs| && (u, j) in s'.finished
                     && 0 <= k < |s'.tasks[u].jobs[j].cycles|
      ensures Commit(u, j, k) in s'.log
    {
      if (u, j) in s.finished {
        assert Commit(u, j, k) in s.log;
      } else {
        assert Commit(t, s.tasks[t].at, k) in s.log;
      }
    }
  }

  lemma StepKeepsLogComplete(s: State, t: nat, c: Choice)
    requires LocksOk(s) && LogComplete(s) && Enabled(s, t, c)
    ensures LogComplete(Step(s, t, c))
  {
    StepKeepsHoldersLogged(s, t, c);
    StepKeepsFinishedLogged(s, t, c);
  }

  lemma StepExtendsLog(s: State, t: nat, c: Choice)
    requires Inv0(s) && Enabled(s, t, c)
    ensures var s' := Step(s, t, c);
            if Commits(s, t, c) then
              && s'.log == s.log + [Commit(t, s.tasks[t].at, s.tasks[t].pc.done)]
              && Known(JobsOf(s), s'.log[|s.log|])
              && s'.store == Apply(JobsOf(s), s.store, s'.log[|s.log|])
            else s'.log == s.log && s'.store == s.store
  {
    assert TaskOk(s, t) && LoadOk(s, t);
  }

  /** The step is a store: the one kind of step other tasks could notice. */
  predicate Commits(s: State, t: nat, c: Choice)
    requires Enabled(s, t, c)
  {
    && c.Go? && s.tasks[t].pc.Holding? && s.tasks[t].pc.done < |s.tasks[t].Current().cycles|
    && s.tasks[t].pc.loaded.Some?
  }

  ghost predicate Inv0(s: State) {
    LocksOk(s) && LoadsOk(s)
  }

  lemma ReplayAppend(jobs: seq<seq<Job>>, store: Store, log: seq<Commit>, c: Commit)
    requires AllKnown(jobs, log) && Known(jobs, c)
    ensures AllKnown(jobs, log + [c])
    ensures Replay(jobs, store, log + [c]) == Apply(jobs, Replay(jobs, store, log), c)
  {
    assert (log + [c])[..|log|] == log;
  }

  lemma PeerLogAppend(jobs: seq<seq<Job>>, log: seq<Commit>, c: Commit, p: ServiceId)
    requires AllKnown(jobs, log) && Known(jobs, c)
    ensures AllKnown(jobs, log + [c])
    ensures PeerLog(jobs, log + [c], p) ==
            if PeerOf(jobs, c) == p then PeerLog(jobs, log, p) + [c] else PeerLog(jobs, log, p)
  {
    assert (log + [c])[..|log|] == log;
  }

  lemma StepKeepsReplay(initial: Store, s: State, t: nat, c: Choice)
    requires Inv(initial, s) && Enabled(s, t, c)
    ensures var s' := Step(s, t, c);
            AllKnown(JobsOf(s'), s'.log) && s'.store == Replay(JobsOf(s'), initial, s'.log)
  {
    StepKeepsJobs(s, t, c);
    StepExtendsLog(s, t, c);
    if Commits(s, t, c) {
      ReplayAppend(JobsOf(s), initial, s.log, Step(s, t, c).log[|s.log|]);
    }
  }

  /** Only the task that moves changes, and within a job it only gets on with its cycles. */
  lemma StepMovesOneTask(s: State, t: nat, c: Choice, u: nat)
    requires Inv0(s) && Enabled(s, t, c) && u < |s.tasks|
    ensures var was, now := s.tasks[u], Step(s, t, c).tasks[u];
            && (u != t ==> now == was)
            && (u == t && now.pc.Holding? && now.pc.done > 0 ==>
                  && was.pc.Holding? && !was.Finished() && now.at == was.at && now.jobs == was.jobs
                  && now.pc.done == was.pc.done + (if Commits(s, t, c) then 1 else 0))
  {
    assert TaskOk(s, t);
  }

  /** One more commit to a peer keeps every other peer's last commit in place. */
  lemma LastAfterCommit(s: State, s': State, t: nat, u: nat)
    requires LocksOk(s) && SerialOk(s) && t < |s.tasks| && u < |s.tasks|
    requires JobsOf(s') == JobsOf(s) && |s'.tasks| == |s.tasks|
    requires s.tasks[t].pc.Holding? && !s.tasks[t].Finished() && s.tasks[t].pc.done < |s.tasks[t].Current().cycles|
    requires s'.log == s.log + [Commit(t, s.tasks[t].at, s.tasks[t].pc.done)]
    requires u != t ==> s'.tasks[u] == s.tasks[u]
    requires u == t ==> s'.tasks[u] == s.tasks[u].(pc := Holding(s.tasks[u].pc.lock, s.tasks[u].pc.done + 1, None))
    ensures AllKnown(JobsOf(s'), s'.log) && LastIsHolders(s', u)
  {
    assert TaskOk(s, u) && LastIsHolders(s, u);
    assert Known(JobsOf(s), Commit(t, s.tasks[t].at, s.tasks[t].pc.done));
    if s'.tasks[u].pc.Holding? {
      PeerLogAppend(JobsOf(s), s.log, s'.log[|s.log|], s.tasks[u].Current().peer);
      if u != t && s.tasks[u].Current().peer == s.tasks[t].Current().peer {
        MutualExclusion(s, t, u);
      }
    }
  }

  lemma StepKeepsLast(initial: Store, s: State, t: nat, c: Choice, u: nat)
    requires Inv(initial, s) && Enabled(s, t, c) && u < |s.tasks|
    requires JobsOf(Step(s, t, c)) == JobsOf(s) && AllKnown(JobsOf(s), Step(s, t, c).log)
    ensures LastIsHolders(Step(s, t, c), u)
  {
    StepExtendsLog(s, t, c);
    if Commits(s, t, c) {
      LastAfterCommit(s, Step(s, t, c), t, u);
    } else {
      StepMovesOneTask(s, t, c, u);
      assert LastIsHolders(s, u);
    }
  }

  lemma ChainGrows(log: seq<Commit>, e: Commit)
    requires Chained(log)
    requires e.cycle != 0 ==> |log| > 0 && log[|log| - 1] == e.(cycle := e.cycle - 1)
    ensures Chained(log + [e])
  {
  }

  lemma StepKeepsChains(s: State, t: nat, c: Choice, p: ServiceId)
    requires Inv0(s) && Enabled(s, t, c) && AllKnown(JobsOf(s), s.log)
    requires Chained(PeerLog(JobsOf(s), s.log, p)) && LastIsHolders(s, t)
    requires AllKnown(JobsOf(s), Step(s, t, c).log)
    ensures Chained(PeerLog(JobsOf(s), Step(s, t, c).log, p))
  {
    StepExtendsLog(s, t, c);
    if Commits(s, t, c) {
      var e := Commit(t, s.tasks[t].at, s.tasks[t].pc.done);
      PeerLogAppend(JobsOf(s), s.log, e, p);
      if PeerOf(JobsOf(s), e) == p {
        ChainGrows(PeerLog(JobsOf(s), s.log, p), e);
      }
    }
  }

  lemma StepKeepsSerial(initial: Store, s: State, t: nat, c: Choice)
    requires Inv(initial, s) && Enabled(s, t, c)
    ensures SerialOk(Step(s, t, c))
  {
    StepKeepsJobs(s, t, c);
    StepKeepsReplay(initial, s, t, c);
    forall p ensures Chained(PeerLog(JobsOf(s), Step(s, t, c).log, p)) {
      StepKeepsChains(s, t, c, p);
    }
    forall u | 0 <= u < |s.tasks| ensures LastIsHolders(Step(s, t, c), u) {
      StepKeepsLast(initial, s, t, c, u);
    }
  }

  lemma StepKeepsInv(initial: Store, s: State, t: nat, c: Choice)
    requires Inv(initial, s) && Enabled(s, t, c)
    ensures Inv(initial, Step(s, t, c))
  {
    StepKeepsLocks(s, t, c);
    StepKeepsLoads(s, t, c);
    StepKeepsLogSound(s, t, c);
    StepKeepsLogOnce(s, t, c);
    StepKeepsLogComplete(s, t, c);
    StepKeepsSerial(initial, s, t, c);
    StepKeepsReplay(initial, s, t, c);
  }

  // -- main results ------------------------------------------------------------

  lemma {:induction false} RunKeepsInv(run: seq<State>, i: nat)
    requires IsRun(run) && i < |run|
    ensures Inv(run[0].store, run[i]) && JobsOf(run[i]) == JobsOf(run[0])
  {
    if i == 0 {
      InitInv(run[0]);
    } else {
      RunKeepsInv(run, i - 1);
      assert Next(run[i - 1], run[i - 1 + 1]);
      var t: nat, c :| Enabled(run[i - 1], t, c) && run[i] == Step(run[i - 1], t, c);
      StepKeepsInv(run[0].store, run[i - 1], t, c);
      StepKeepsJobs(run[i - 1], t, c);
    }
  }

  lemma ApplyIsPerPeer(jobs: seq<seq<Job>>, a: Store, b: Store, c: Commit, addr: Address)
    requires Known(jobs, c)
    requires forall d: Address :: d.peer == addr.peer ==> Get(a, d) == Get(b, d)
    ensures PeerOf(jobs, c) == addr.peer ==> Get(Apply(jobs, a, c), addr) == Get(Apply(jobs, b, c), addr)
    ensures PeerOf(jobs, c) != addr.peer ==> Get(Apply(jobs, a, c), addr) == Get(b, addr)
  {
    assert Get(a, addr) == Get(b, addr);
    var d := Address(PeerOf(jobs, c), jobs[c.task][c.job].cycles[c.cycle].device);
    if d.peer == addr.peer { assert Get(a, d) == Get(b, d); }
  }

  /** Changing one peer's sessions leaves every other peer's as they were. */
  lemma {:induction false} ReplayIsPerPeer(jobs: seq<seq<Job>>, store: Store, log: seq<Commit>, p: ServiceId)
    requires AllKnown(jobs, log)
    ensures forall addr: Address :: addr.peer == p ==>
              Get(Replay(jobs, store, log), addr) == Get(Replay(jobs, store, PeerLog(jobs, log, p)), addr)
  {
    if log != [] {
      var c, rest := log[|log| - 1], log[..|log| - 1];
      ReplayIsPerPeer(jobs, store, rest, p);
      var a, b := Replay(jobs, store, rest), Replay(jobs, store, PeerLog(jobs, rest, p));
      forall addr: Address | addr.peer == p
        ensures Get(Replay(jobs, store, log), addr) == Get(Replay(jobs, store, PeerLog(jobs, log, p)), addr)
      {
        ApplyIsPerPeer(jobs, a, b, c, addr);
        if PeerOf(jobs, c) == p {
          ReplayAppend(jobs, store, PeerLog(jobs, rest, p), c);
        }
      }
    }
  }

  /** A peer's log has no repetitions if the whole log has none. */
  lemma {:induction false} PeerLogOnce(jobs: seq<seq<Job>>, log: seq<Commit>, p: ServiceId)
    requires AllKnown(jobs, log)
    requires forall i, j :: 0 <= i < j < |log| ==> log[i] != log[j]
    ensures NoRepeats(PeerLog(jobs, log, p))
  {
    if log != [] {
      var rest := log[..|log| - 1];
      PeerLogOnce(jobs, rest, p);
      assert forall c :: c in PeerLog(jobs, rest, p) ==> c in rest;
      assert log[|log| - 1] !in rest;
    }
  }

  ghost predicate NoRepeats(pl: seq<Commit>) {
    forall i, j :: 0 <= i < j < |pl| ==> pl[i] != pl[j]
  }

  /** The job that made commit `i` started at some earlier commit and was not interrupted since. */
  lemma {:induction false} RunStart(pl: seq<Commit>, i: nat) returns (m: nat)
    requires Chained(pl) && i < |pl|
    ensures m <= i && pl[m] == pl[i].(cycle := 0)
    ensures forall k :: m <= k <= i ==> pl[k].task == pl[i].task && pl[k].job == pl[i].job
  {
    if pl[i].cycle == 0 {
      m := i;
    } else {
      m := RunStart(pl, i - 1);
    }
  }

  /** Jobs on one peer are serial: no other job's store falls between two stores of the same job. */
  lemma NoInterleaving(pl: seq<Commit>, i: nat, j: nat, k: nat)
    requires Chained(pl) && NoRepeats(pl)
    requires i <= j <= k < |pl| && SameJob(pl[i], pl[k])
    ensures SameJob(pl[i], pl[j]) && pl[j].cycle == pl[i].cycle + (j - i)
    decreases j
  {
    var m := RunStart(pl, i);
    var n := RunStart(pl, k);
    assert pl[m] == pl[n];
    assert m == n;
    if i < j { NoInterleaving(pl, i, j - 1, j); }
  }

  predicate SameJob(c: Commit, d: Commit) {
    c.task == d.task && c.job == d.job
  }

  /** The stores of each job are contiguous in a peer's log, and in the order of its cycles. */
  ghost predicate Serial(pl: seq<Commit>) {
    forall i, j, k :: 0 <= i <= j <= k < |pl| && SameJob(pl[i], pl[k]) ==>
      SameJob(pl[i], pl[j]) && pl[j].cycle == pl[i].cycle + (j - i)
  }

  /**
    No lost update. After any interleaving, every session is what running the completed cycles
    one at a time, in the order of their stores, would have made it, and that order is serial:
    each cycle took effect at most once and the cycles of one job are contiguous and in order.
   */
  lemma NoLostUpdate(run: seq<State>)
    requires IsRun(run)
    ensures var last, jobs := run[|run| - 1], JobsOf(run[0]);
            && AllKnown(jobs, last.log)
            && last.store == Replay(jobs, run[0].store, last.log)
            && NoRepeats(last.log)
            && forall p :: Serial(PeerLog(jobs, last.log, p))
  {
    var last, jobs := run[|run| - 1], JobsOf(run[0]);
    RunKeepsInv(run, |run| - 1);
    forall p ensures Serial(PeerLog(jobs, last.log, p)) {
      var pl := PeerLog(jobs, last.log, p);
      PeerLogOnce(jobs, last.log, p);
      forall i, j, k | 0 <= i <= j <= k < |pl| && SameJob(pl[i], pl[k])
        ensures SameJob(pl[i], pl[j]) && pl[j].cycle == pl[i].cycle + (j - i)
      {
        NoInterleaving(pl, i, j, k);
      }
    }
  }

  /** A peer's sessions at the end of a run are made by the cycles on that peer alone. */
  lemma PeersAreIndependent(run: seq<State>, addr: Address)
    requires IsRun(run)
    ensures var last, jobs := run[|run| - 1], JobsOf(run[0]);
            AllKnown(jobs, last.log) &&
            Get(last.store, addr) == Get(Replay(jobs, run[0].store, PeerLog(jobs, last.log, addr.peer)), addr)
  {
    RunKeepsInv(run, |run| - 1);
    ReplayIsPerPeer(JobsOf(run[0]), run[0].store, run[|run| - 1].log, addr.peer);
  }

  /** No cycle of a job that ran to its end is missing: its update reached the store. */
  lemma FinishedJobsTookEffect(run: seq<State>, t: nat, j: nat, k: nat)
    requires IsRun(run) && t < |run[0].tasks| && j < |run[0].tasks[t].jobs| && k < |run[0].tasks[t].jobs[j].cycles|
    requires (t, j) in run[|run| - 1].finished
    ensures Commit(t, j, k) in run[|run| - 1].log
  {
    RunKeepsInv(run, |run| - 1);
    var last := run[|run| - 1];
    assert JobsOf(run[0])[t] == run[0].tasks[t].jobs;
    assert JobsOf(last)[t] == last.tasks[t].jobs;
  }

  /** Between a holder's load and its store nothing else touches that peer's sessions. */
  lemma NothingBetweenLoadAndStore(run: seq<State>, i: nat, t: nat, d: nat)
    requires IsRun(run) && i < |run| - 1 && t < |run[i].tasks| && run[i].tasks[t].pc.Holding?
    requires !run[i].tasks[t].Finished() && run[i + 1].tasks[t] == run[i].tasks[t]
    ensures var addr := Address(run[i].tasks[t].Current().peer, d); Get(run[i + 1].store, addr) == Get(run[i].store, addr)
  {
    RunKeepsInv(run, i);
    var s := run[i];
    assert Next(run[i], run[i + 1]);
    var u: nat, c :| Enabled(s, u, c) && run[i + 1] == Step(s, u, c);
    StepExtendsLog(s, u, c);
    assert TaskOk(s, t) && TaskOk(s, u);
    if Commits(s, u, c) && s.tasks[u].Current().peer == s.tasks[t].Current().peer {
      MutualExclusion(s, t, u);
    }
  }

  /** Once a peer has a lock it has that lock for good, and no other peer ever shares it. */
  lemma {:induction false} StableLockIdentity(run: seq<State>, i: nat, j: nat)
    requires IsRun(run) && i <= j < |run|
    ensures SessionLocks.Distinct(run[j].table)
    ensures forall p :: p in run[i].table ==> p in run[j].table && run[j].table[p] == run[i].table[p]
  {
    RunKeepsInv(run, j);
    if i < j {
      StableLockIdentity(run, i, j - 1);
      RunKeepsInv(run, j - 1);
      assert Next(run[j - 1], run[j - 1 + 1]);
      var t: nat, c :| Enabled(run[j - 1], t, c) && run[j] == Step(run[j - 1], t, c);
      StepKeepsTable(run[j - 1], t, c);
    }
  }

  /** Deadlock freedom: while some task has work left, some task can move without giving up. */
  lemma Progress(initial: Store, s: State, t: nat) returns (u: nat)
    requires Inv(initial, s) && t < |s.tasks| && !s.tasks[t].Finished()
    ensures Enabled(s, u, Go)
  {
    u := t;
    assert TaskOk(s, t);
    match s.tasks[t].pc {
      case Idle => if s.tableOwner.Some? { u := s.tableOwner.value; assert TaskOk(s, u); }
      case InTable =>
      case Waiting(l) => if s.locks[l].Some? { u := s.locks[l].value; assert TaskOk(s, u); }
      case Holding(_, _, _) =>
    }
  }

  // -- every run ends ------------------------------------------------------------

  function Cost(job: Job): nat { 4 + 2 * |job.cycles| }

  function TotalCost(jobs: seq<Job>): nat {
    if jobs == [] then 0 else Cost(jobs[0]) + TotalCost(jobs[1..])
  }

  /** Steps a task has left, its current job counted from where it stands. */
  function Left(task: Task): int {
    if task.Finished() then 0
    else
      var spent := match task.pc
                   case Idle => 0
                   case InTable => 1
                   case Waiting(_) => 2
                   case Holding(_, done, loaded) => 3 + 2 * done + (if loaded.Some? then 1 else 0);
      TotalCost(task.jobs[task.at..]) - spent
  }

  function AllLeft(tasks: seq<Task>): int {
    if tasks == [] then 0 else Left(tasks[0]) + AllLeft(tasks[1..])
  }

  lemma {:induction false} AllLeftUpdate(tasks: seq<Task>, t: nat, task: Task)
    requires t < |tasks|
    ensures AllLeft(tasks[t := task]) == AllLeft(tasks) - Left(tasks[t]) + Left(task)
  {
    var updated := tasks[t := task];
    if t == 0 {
      assert updated[1..] == tasks[1..];
    } else {
      AllLeftUpdate(tasks[1..], t - 1, task);
      assert updated[1..] == tasks[1..][t - 1 := task];
    }
  }

  lemma TotalCostUnfold(jobs: seq<Job>, at: nat)
    requires at < |jobs|
    ensures TotalCost(jobs[at..]) == Cost(jobs[at]) + TotalCost(jobs[at + 1..])
  {
    assert jobs[at..][1..] == jobs[at + 1..];
  }

  lemma LeftIsNatural(s: State, t: nat)
    requires Inv0(s) && t < |s.tasks|
    ensures Left(s.tasks[t]) >= 0
  {
    assert TaskOk(s, t) && LoadOk(s, t);
    if !s.tasks[t].Finished() { TotalCostUnfold(s.tasks[t].jobs, s.tasks[t].at); }
  }

  lemma {:induction false} AllLeftIsNatural(s: State, t: nat)
    requires Inv0(s) && t <= |s.tasks|
    ensures AllLeft(s.tasks[t..]) >= 0
    decreases |s.tasks| - t
  {
    if t < |s.tasks| {
      LeftIsNatural(s, t);
      AllLeftIsNatural(s, t + 1);
      assert s.tasks[t..][1..] == s.tasks[t + 1..];
    }
  }

  lemma StepSpends(s: State, t: nat, c: Choice)
    requires Inv0(s) && Enabled(s, t, c)
    ensures AllLeft(Step(s, t, c).tasks) < AllLeft(s.tasks)
  {
    assert TaskOk(s, t) && LoadOk(s, t);
    var task, task' := s.tasks[t], Step(s, t, c).tasks[t];
    TotalCostUnfold(task.jobs, task.at);
    LeftIsNatural(s, t);
    assert Left(task') < Left(task);
    AllLeftUpdate(s.tasks, t, task');
    assert Step(s, t, c).tasks == s.tasks[t := task'];
  }

  ghost predicate Stuck(s: State) {
    forall u: nat :: !Enabled(s, u, Go)
  }

  predicate AllFinished(s: State) {
    forall t :: 0 <= t < |s.tasks| ==> s.tasks[t].Finished()
  }

  lemma StuckIsFinished(initial: Store, s: State)
    requires Inv(initial, s)
    ensures Stuck(s) ==> AllFinished(s)
  {
    forall t | 0 <= t < |s.tasks| && !s.tasks[t].Finished()
      ensures !Stuck(s)
    {
      var u := Progress(initial, s, t);
    }
  }

  lemma LastStepSpends(run: seq<State>)
    requires IsRun(run) && |run| > 1
    ensures IsRun(run[..|run| - 1])
    ensures AllLeft(run[|run| - 1].tasks) < AllLeft(run[|run| - 2].tasks)
  {
    var n := |run| - 1;
    RunKeepsInv(run, n - 1);
    assert Next(run[n - 1], run[n - 1 + 1]);
    var t: nat, c :| Enabled(run[n - 1], t, c) && run[n] == Step(run[n - 1], t, c);
    StepSpends(run[n - 1], t, c);
  }

  /**
    Every schedule ends: a run is no longer than the work its tasks started with, and a run in
    which no task can move any more has completed every task.
   */
  lemma {:induction false} EveryRunEnds(run: seq<State>)
    requires IsRun(run)
    ensures |run| - 1 + AllLeft(run[|run| - 1].tasks) <= AllLeft(run[0].tasks)
    ensures AllLeft(run[|run| - 1].tasks) >= 0
    ensures Stuck(run[|run| - 1]) ==> AllFinished(run[|run| - 1])
  {
    var n := |run| - 1;
    RunKeepsInv(run, n);
    AllLeftIsNatural(run[n], 0);
    assert run[n].tasks[0..] == run[n].tasks;
    StuckIsFinished(run[0].store, run[n]);
    if n > 0 {
      LastStepSpends(run);
      EveryRunEnds(run[..n]);
    }
  }
}
