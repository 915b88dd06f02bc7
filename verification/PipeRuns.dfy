/** Whole runs of the pipe, sequential and interleaved. */
module PipeRuns {
  import opened DdsPipeTypes
  import opened DdsPipeConfigurations
  import opened DiscoveryDatabases
  import opened PipeModel
  import opened PipeSync

  /** The system after the operations, one after the other. */
  ghost function Ran(config: Configuration, s: System, ops: seq<Op>): System {
    if ops == [] then s else Next(config, Ran(config, s, ops[..|ops| - 1]), ops[|ops| - 1])
  }

  /** Participants never pass on an endpoint that nobody discovered. */
  predicate HasDiscoverer(op: Op) {
    op.DatabaseOp? ==> op.op.endpoint.discoverer != DEFAULT_PARTICIPANT_ID
  }

  /** What the pipe and the database look like before the operation decides whether t stays in step. */
  ghost predicate KeepsUp(config: Configuration, s: System, op: Op, t: DdsTopic) {
    match op
    case DatabaseOp(Operation(Add, e)) => AddKeepsUp(config, s, e, t)
    case DatabaseOp(Operation(Update, e)) => UpdateKeepsUp(config, s, e, t)
    case DatabaseOp(Operation(Erase, e)) => EraseKeepsUp(s, e, t)
    case EnablePipe => !s.pipe.enabled ==> !BridgedLate(config, s.pipe, s.pipe.lists, t)
    case DisablePipe => true
    case ReloadLists(lists) => s.pipe.enabled ==> !BridgedLate(config, s.pipe, lists, t)
  }

  lemma StepKeepsActivation(config: Configuration, s: System, op: Op)
    requires ActivationInv(config, s.pipe)
    ensures ActivationInv(config, Next(config, s, op).pipe)
  {
    hide ActivationInv, Notified, Enable, Disable, Reload;
    match op
    case DatabaseOp(o) =>
      CallbacksKeepActivation(config, Applied(s.entities, o), s.pipe, OutcomeOf(s.entities, o));
    case EnablePipe => EnableKeepsActivation(config, s.pipe);
    case DisablePipe => DisableKeepsActivation(config, s.pipe);
    case ReloadLists(lists) => ReloadKeepsActivation(config, s.pipe, lists);
  }

  /** Every operation, from every state the invariant allows: pipe activation holds at the end of any run. */
  lemma {:induction false} RunKeepsActivation(config: Configuration, s: System, ops: seq<Op>)
    requires ActivationInv(config, s.pipe)
    ensures ActivationInv(config, Ran(config, s, ops).pipe)
    decreases |ops|
  {
    hide ActivationInv;
    if ops != [] {
      RunKeepsActivation(config, s, ops[..|ops| - 1]);
      StepKeepsActivation(config, Ran(config, s, ops[..|ops| - 1]), ops[|ops| - 1]);
    }
  }

  lemma StepKeepsDiscoverer(config: Configuration, s: System, op: Op, t: DdsTopic)
    requires HasDiscoverer(op)
    requires t in s.pipe.current ==> s.pipe.current[t].discoverer != DEFAULT_PARTICIPANT_ID
    ensures var pipe := Next(config, s, op).pipe;
            t in pipe.current ==> pipe.current[t].discoverer != DEFAULT_PARTICIPANT_ID
  {
    hide Allowed, FirstWriters, IsEndpointRelevant;
  }

  lemma StepKeepsTracked(config: Configuration, s: System, op: Op, t: DdsTopic)
    requires Tracked(config, s, t) && HasDiscoverer(op)
    ensures Tracked(config, Next(config, s, op), t)
  {
    StepKeepsActivation(config, s, op);
    StepKeepsDiscoverer(config, s, op, t);
    hide ActivationInv, Notified, Enable, Disable, Reload;
  }

  lemma EnablingTwice(config: Configuration, s: System)
    requires s.pipe.enabled
    ensures Next(config, s, EnablePipe) == s
  {
  }

  /** One operation keeps the writers of t in step with its readers exactly when KeepsUp says so. */
  lemma StepKeepsSyncExactly(config: Configuration, s: System, op: Op, t: DdsTopic)
    requires Tracked(config, s, t) && Sync(s, t) && HasDiscoverer(op)
    ensures Sync(Next(config, s, op), t) <==> KeepsUp(config, s, op, t)
  {
    hide Notified, Reload, Enable, Disable, ActivationInv, AddKeepsUp, UpdateKeepsUp, EraseKeepsUp;
    match op
    case DatabaseOp(Operation(Add, e)) => AddKeepsSyncExactly(config, s, e, t);
    case DatabaseOp(Operation(Update, e)) => UpdateKeepsSyncExactly(config, s, e, t);
    case DatabaseOp(Operation(Erase, e)) => EraseKeepsSyncExactly(config, s, e, t);
    case EnablePipe =>
      NoBridgeNoReader(s, t);
      if s.pipe.enabled {
        EnablingTwice(config, s);
      } else {
        EnableSyncsExactly(config, s, t);
        if BridgedLate(config, s.pipe, s.pipe.lists, t) {
          assert !HasActiveReader(s.entities, t, s.pipe.current[t].discoverer);
        }
      }
    case DisablePipe => DisableKeepsSync(config, s, t);
    case ReloadLists(lists) =>
      NoBridgeNoReader(s, t);
      ReloadSyncsExactly(config, s, lists, t);
      if BridgedLate(config, s.pipe, lists, t) {
        assert !HasActiveReader(s.entities, t, s.pipe.current[t].discoverer);
      }
  }

  lemma {:induction false} RunKeepsTracked(config: Configuration, s: System, ops: seq<Op>, t: DdsTopic)
    requires Tracked(config, s, t) && forall k :: 0 <= k < |ops| ==> HasDiscoverer(ops[k])
    ensures Tracked(config, Ran(config, s, ops), t)
    decreases |ops|
  {
    hide Tracked, Next;
    if ops != [] {
      RunKeepsTracked(config, s, ops[..|ops| - 1], t);
      StepKeepsTracked(config, Ran(config, s, ops[..|ops| - 1]), ops[|ops| - 1], t);
    }
  }

  /** The writers of t are in step with its readers after every operation of the run. */
  ghost predicate StaysInSync(config: Configuration, s: System, ops: seq<Op>, t: DdsTopic)
    decreases |ops|
  {
    Sync(Ran(config, s, ops), t) && (ops == [] || StaysInSync(config, s, ops[..|ops| - 1], t))
  }

  /** Every operation of the run keeps up in the state it meets. */
  ghost predicate AllKeepUp(config: Configuration, s: System, ops: seq<Op>, t: DdsTopic)
    decreases |ops|
  {
    ops == [] ||
    (var earlier := ops[..|ops| - 1];
     AllKeepUp(config, s, earlier, t) && KeepsUp(config, Ran(config, s, earlier), ops[|ops| - 1], t))
  }

  /** From a synchronised state, the only way out of step is an operation that does not keep up. */
  lemma {:induction false} RunStaysInSyncExactly(config: Configuration, s: System, ops: seq<Op>, t: DdsTopic)
    requires Tracked(config, s, t) && Sync(s, t) && forall k :: 0 <= k < |ops| ==> HasDiscoverer(ops[k])
    ensures StaysInSync(config, s, ops, t) <==> AllKeepUp(config, s, ops, t)
    decreases |ops|
  {
    hide Sync, KeepsUp, Tracked, Next;
    if ops != [] {
      var earlier := ops[..|ops| - 1];
      RunStaysInSyncExactly(config, s, earlier, t);
      RunKeepsTracked(config, s, earlier, t);
      if StaysInSync(config, s, earlier, t) {
        StepKeepsSyncExactly(config, Ran(config, s, earlier), ops[|ops| - 1], t);
      }
    }
  }

  // ----- The operations participants and users are expected to make

  /** The same endpoint, perhaps with another activity. */
  predicate SameEndpoint(e: Endpoint, stored: Endpoint) {
    e == stored.(active := e.active)
  }

  /**
   A guid is added active and never again once inactive, updates change activity only, an endpoint is
   erased as inactive, and t is not taken away before it has a bridge.
   */
  ghost predicate Ordinary(config: Configuration, s: System, op: Op, t: DdsTopic) {
    match op
    case DatabaseOp(Operation(Add, e)) => e.active && (e.guid in s.entities ==> s.entities[e.guid].active)
    case DatabaseOp(Operation(Update, e)) => e.guid in s.entities ==> SameEndpoint(e, s.entities[e.guid])
    case DatabaseOp(Operation(Erase, e)) => e.guid in s.entities ==> SameEndpoint(e, s.entities[e.guid]) && !e.active
    case EnablePipe => true
    case DisablePipe => t in s.pipe.bridges
    case ReloadLists(lists) => t in s.pipe.bridges || Allowed(config, lists, t)
  }

  ghost predicate AllOrdinary(config: Configuration, s: System, ops: seq<Op>, t: DdsTopic)
    decreases |ops|
  {
    ops == [] ||
    (var earlier := ops[..|ops| - 1];
     AllOrdinary(config, s, earlier, t) && Ordinary(config, Ran(config, s, earlier), ops[|ops| - 1], t))
  }

  lemma OrdinaryKeepsUp(config: Configuration, s: System, op: Op, t: DdsTopic)
    requires Tracked(config, s, t) && Ordinary(config, s, op, t) && CanHost(config, s.pipe, t)
    ensures KeepsUp(config, s, op, t)
  {
    hide Allowed, HasActiveReader;
    assert t in s.pipe.current ==> t in s.pipe.bridges;
  }

  lemma OrdinaryKeepsHost(config: Configuration, s: System, op: Op, t: DdsTopic)
    requires Tracked(config, s, t) && Ordinary(config, s, op, t) && CanHost(config, s.pipe, t)
    ensures CanHost(config, Next(config, s, op).pipe, t)
  {
    hide Allowed, FirstWriters, IsEndpointRelevant, ActivationInv;
  }

  /** In an enabled pipe that allows t, ordinary operations keep the writers of t in step for ever. */
  lemma {:induction false} OrdinaryRunsStayInSync(config: Configuration, s: System, ops: seq<Op>, t: DdsTopic)
    requires Tracked(config, s, t) && Sync(s, t) && forall k :: 0 <= k < |ops| ==> HasDiscoverer(ops[k])
    requires CanHost(config, s.pipe, t) && AllOrdinary(config, s, ops, t)
    ensures StaysInSync(config, s, ops, t)
  {
    OrdinaryRunsKeepUp(config, s, ops, t);
    RunStaysInSyncExactly(config, s, ops, t);
  }

  lemma {:induction false} OrdinaryRunsKeepUp(config: Configuration, s: System, ops: seq<Op>, t: DdsTopic)
    requires Tracked(config, s, t) && forall k :: 0 <= k < |ops| ==> HasDiscoverer(ops[k])
    requires CanHost(config, s.pipe, t) && AllOrdinary(config, s, ops, t)
    ensures AllKeepUp(config, s, ops, t) && CanHost(config, Ran(config, s, ops).pipe, t)
    decreases |ops|
  {
    hide KeepsUp, Tracked, Next, CanHost, Ordinary;
    if ops != [] {
      var earlier := ops[..|ops| - 1];
      OrdinaryRunsKeepUp(config, s, earlier, t);
      RunKeepsTracked(config, s, earlier, t);
      OrdinaryKeepsUp(config, Ran(config, s, earlier), ops[|ops| - 1], t);
      OrdinaryKeepsHost(config, Ran(config, s, earlier), ops[|ops| - 1], t);
    }
  }

  // ----- Interleavings

  /**
   The database is updated before the callback takes the pipe's mutex, and a user may enable, disable or
   reload in between.  `pending` is the outcome whose callbacks are still to be run.
   */
  datatype Threads = Threads(system: System, pending: Outcome)

  datatype Move = Process(op: Operation) | Callback | ByUser(userOp: Op)

  predicate Idle(outcome: Outcome) {
    outcome.Inconsistent? || outcome.Silent?
  }

  predicate CanMove(s: Threads, m: Move) {
    match m
    case Process(_) => Idle(s.pending)
    case Callback => !Idle(s.pending)
    case ByUser(op) => !op.DatabaseOp?
  }

  ghost function Moved(config: Configuration, s: Threads, m: Move): Threads {
    match m
    case Process(op) => Threads(s.system.(entities := Applied(s.system.entities, op)), OutcomeOf(s.system.entities, op))
    case Callback =>
      Threads(s.system.(pipe := Notified(config, s.system.entities, s.system.pipe, s.pending)), Silent)
    case ByUser(op) => s.(system := Next(config, s.system, op))
  }

  ghost function MovedAll(config: Configuration, s: Threads, moves: seq<Move>): Threads {
    if moves == [] then s else Moved(config, MovedAll(config, s, moves[..|moves| - 1]), moves[|moves| - 1])
  }

  ghost predicate CanMoveAll(config: Configuration, s: Threads, moves: seq<Move>)
    decreases |moves|
  {
    moves == [] ||
    (var earlier := moves[..|moves| - 1];
     CanMoveAll(config, s, earlier) && CanMove(MovedAll(config, s, earlier), moves[|moves| - 1]))
  }

  /** The database operations of a run, in order. */
  function DatabaseOps(ops: seq<Op>): seq<Operation> {
    if ops == [] then []
    else
      var earlier, op := ops[..|ops| - 1], ops[|ops| - 1];
      DatabaseOps(earlier) + if op.DatabaseOp? then [op.op] else []
  }

  function UserOps(ops: seq<Op>): seq<Op> {
    if ops == [] then []
    else
      var earlier, op := ops[..|ops| - 1], ops[|ops| - 1];
      UserOps(earlier) + if op.DatabaseOp? then [] else [op]
  }

  function ProcessedIn(moves: seq<Move>): seq<Operation> {
    if moves == [] then []
    else
      var earlier, m := moves[..|moves| - 1], moves[|moves| - 1];
      ProcessedIn(earlier) + if m.Process? then [m.op] else []
  }

  function UsedIn(moves: seq<Move>): seq<Op> {
    if moves == [] then []
    else
      var earlier, m := moves[..|moves| - 1], moves[|moves| - 1];
      UsedIn(earlier) + if m.ByUser? then [m.userOp] else []
  }

  /** The interleaved system is where the sequential one is, or has `open` half done on top of it. */
  ghost predicate Follows(s: Threads, sequential: System, open: seq<Operation>) {
    if open == [] then Idle(s.pending) && s.system == sequential
    else
      && !Idle(s.pending) && s.pending == OutcomeOf(sequential.entities, open[0])
      && s.system == System(Applied(sequential.entities, open[0]), sequential.pipe)
  }

  lemma OneMore(config: Configuration, s: System, ops: seq<Op>, op: Op) returns (longer: seq<Op>)
    ensures longer == ops + [op] && Ran(config, s, longer) == Next(config, Ran(config, s, ops), op)
    ensures DatabaseOps(longer) == DatabaseOps(ops) + if op.DatabaseOp? then [op.op] else []
    ensures UserOps(longer) == UserOps(ops) + if op.DatabaseOp? then [] else [op]
  {
    longer := ops + [op];
    assert longer[..|longer| - 1] == ops;
  }

  /** A user's operation finds and leaves the database alone, so it may as well come before the one half done. */
  lemma UserMoveCommutes(config: Configuration, s: Threads, sequential: System, open: seq<Operation>, op: Op)
    requires Follows(s, sequential, open) && !op.DatabaseOp?
    ensures Follows(Moved(config, s, ByUser(op)), Next(config, sequential, op), open)
  {
    hide Enable, Reload, Disable;
  }

  lemma ProcessStarts(config: Configuration, s: Threads, sequential: System, op: Operation)
    requires Follows(s, sequential, [])
    ensures var t := Moved(config, s, Process(op));
            if Idle(t.pending) then Follows(t, Next(config, sequential, DatabaseOp(op)), [])
            else Follows(t, sequential, [op])
  {
    hide Notified;
    if Idle(OutcomeOf(sequential.entities, op)) {
      NothingToNotify(config, sequential, op);
    }
  }

  lemma NothingToNotify(config: Configuration, s: System, op: Operation)
    requires Idle(OutcomeOf(s.entities, op))
    ensures Next(config, s, DatabaseOp(op)) == System(Applied(s.entities, op), s.pipe)
  {
  }

  /** One move: the sequential run is one operation longer, or one more operation is open. */
  lemma MoveFollows(config: Configuration, s: System, ops: seq<Op>, open: seq<Operation>, before: Threads, m: Move)
    returns (longer: seq<Op>, left: seq<Operation>)
    requires |open| <= 1 && CanMove(before, m) && Follows(before, Ran(config, s, ops), open)
    ensures |left| <= 1 && Follows(Moved(config, before, m), Ran(config, s, longer), left)
    ensures DatabaseOps(longer) + left == DatabaseOps(ops) + open + if m.Process? then [m.op] else []
    ensures UserOps(longer) == UserOps(ops) + if m.ByUser? then [m.userOp] else []
  {
    hide Next, Notified, Follows, Applied, OutcomeOf;
    var sequential := Ran(config, s, ops);
    OpenMeansPending(before, sequential, open);
    match m
    case ByUser(op) =>
      UserMoveCommutes(config, before, sequential, open, op);
      longer := OneMore(config, s, ops, op);
      left := open;
    case Process(op) =>
      ProcessStarts(config, before, sequential, op);
      if Idle(Moved(config, before, m).pending) {
        longer := OneMore(config, s, ops, DatabaseOp(op));
        left := [];
      } else {
        longer, left := ops, [op];
      }
    case Callback =>
      CallbackFinishes(config, before, sequential, open);
      longer := OneMore(config, s, ops, DatabaseOp(open[0]));
      left := [];
  }

  /**
   Every interleaving of the processing thread with users ends where some sequential run of the same
   operations, in the same order on each side, ends; a callback still due is the only thing missing.
   */
  lemma {:induction false} InterleavingsAreSequential(config: Configuration, s: Threads, moves: seq<Move>)
    returns (ops: seq<Op>, open: seq<Operation>)
    requires Idle(s.pending) && CanMoveAll(config, s, moves)
    ensures |open| <= 1 && Follows(MovedAll(config, s, moves), Ran(config, s.system, ops), open)
    ensures DatabaseOps(ops) + open == ProcessedIn(moves) && UserOps(ops) == UsedIn(moves)
    decreases |moves|
  {
    hide Moved, Follows, Next, CanMove;
    if moves == [] {
      ops, open := [], [];
      StartsAlike(s);
    } else {
      var earlier := moves[..|moves| - 1];
      ops, open := InterleavingsAreSequential(config, s, earlier);
      ops, open := MoveFollows(config, s.system, ops, open, MovedAll(config, s, earlier), moves[|moves| - 1]);
    }
  }

  lemma StartsAlike(s: Threads)
    requires Idle(s.pending)
    ensures Follows(s, s.system, [])
  {
  }

  lemma OpenMeansPending(s: Threads, sequential: System, open: seq<Operation>)
    requires Follows(s, sequential, open)
    ensures open == [] <==> Idle(s.pending)
  {
  }

  lemma CallbackFinishes(config: Configuration, s: Threads, sequential: System, open: seq<Operation>)
    requires open != [] && Follows(s, sequential, open)
    ensures Follows(Moved(config, s, Callback), Next(config, sequential, DatabaseOp(open[0])), [])
  {
    hide Notified;
  }
}
