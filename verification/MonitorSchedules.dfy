/**
 Which schedules of the monitor's operations keep the accounts, whatever the messages amount to.

 The account of participant p on topic t is about one cell; an operation on a disabled producer does nothing.
 */
module MonitorSchedules {
  import opened DdsPipeTypes
  import opened TopicsMonitor

  datatype CellId = CellId(t: DdsTopic, p: ParticipantId, kind: Kind)

  /** Up to every moment of the run, what was notified is what was delivered plus what is pending. */
  ghost predicate Balanced(m: Monitor, ops: seq<Op>, cell: CellId) {
    forall k :: 0 <= k <= |ops| ==> BalancedAfter(m, ops[..k], cell)
  }

  predicate BalancedAfter(m: Monitor, ops: seq<Op>, cell: CellId) {
    TotalNotified(m, ops, cell.t, cell.p, cell.kind)
    == TotalDelivered(m, ops, cell.t, cell.p, cell.kind) + At(Ran(m, ops).pending, cell.t, cell.p, cell.kind)
  }

  /** A run is balanced throughout exactly if each of its operations accounts for what is pending. */
  lemma {:induction false} BalancedMeansAllAccount(m: Monitor, ops: seq<Op>, cell: CellId)
    requires Registered(m) && At(m.pending, cell.t, cell.p, cell.kind) == 0
    ensures Balanced(m, ops, cell) <==> AllAccount(m, ops, cell.t, cell.p, cell.kind)
    decreases |ops|
  {
    hide Apply, Notified, Delivered, At, Registered, Accounts;
    assert ops[..|ops|] == ops;
    if ops == [] {
      assert forall k :: 0 <= k <= |ops| ==> ops[..k] == [];
      assert BalancedAfter(m, [], cell);
    } else {
      var earlier := ops[..|ops| - 1];
      BalancedMeansAllAccount(m, earlier, cell);
      RunKeepsRegistered(m, earlier);
      StepConservesExactly(Ran(m, earlier), ops[|ops| - 1], cell.t, cell.p, cell.kind);
      assert forall k :: 0 <= k < |ops| ==> ops[..k] == earlier[..k];
      assert earlier[..|earlier|] == earlier;
      assert Balanced(m, ops, cell) <==> Balanced(m, earlier, cell) && BalancedAfter(m, ops, cell);
    }
  }

  // ----- What a schedule says about the cell

  predicate EnabledAfter(enabled: bool, ops: seq<Op>) {
    if ops == [] then enabled
    else
      match ops[|ops| - 1]
      case Enable => true
      case Disable => false
      case _ => EnabledAfter(enabled, ops[..|ops| - 1])
  }

  /** The notifications of the cell, by their place in the schedule, since counts were last reset. */
  function PendingAfter(enabled: bool, ops: seq<Op>, cell: CellId): set<nat> {
    if ops == [] then {}
    else
      var earlier, op := ops[..|ops| - 1], ops[|ops| - 1];
      var before := PendingAfter(enabled, earlier, cell);
      if op.ClearData? then {}
      else if !EnabledAfter(enabled, earlier) then before
      else if op.Consume? || op.ProduceAndConsume? then {}
      else if IsNotify(op, cell) then before + {|earlier|}
      else before
  }

  predicate IsNotify(op: Op, cell: CellId) {
    op.Notify? && op.t == cell.t && op.p == cell.p && op.kind == cell.kind
  }

  /** Those that the last snapshot counts. */
  function SnapshotAfter(enabled: bool, ops: seq<Op>, cell: CellId): set<nat> {
    if ops == [] then {}
    else
      var earlier, op := ops[..|ops| - 1], ops[|ops| - 1];
      if op.ClearData? then {}
      else if EnabledAfter(enabled, earlier) && (op.Produce? || op.ProduceAndConsume?) then
        PendingAfter(enabled, earlier, cell)
      else SnapshotAfter(enabled, earlier, cell)
  }

  /** What the last operation of ops consumes or clears is what is pending. */
  predicate CarefulAt(enabled: bool, ops: seq<Op>, cell: CellId)
    requires ops != []
  {
    var earlier, op := ops[..|ops| - 1], ops[|ops| - 1];
    && (op.Consume? && EnabledAfter(enabled, earlier) ==>
          SnapshotAfter(enabled, earlier, cell) == PendingAfter(enabled, earlier, cell))
    && (op.ClearData? ==> PendingAfter(enabled, earlier, cell) == {})
  }

  /** Every consume hands over exactly the notifications that are pending, and no clear finds one. */
  ghost predicate Careful(enabled: bool, ops: seq<Op>, cell: CellId) {
    forall k :: 0 < k <= |ops| ==> CarefulAt(enabled, ops[..k], cell)
  }

  // ----- The schedule against the counts

  predicate Starts(m: Monitor, cell: CellId) {
    && Registered(m)
    && At(m.pending, cell.t, cell.p, cell.kind) == 0 && At(m.snapshot, cell.t, cell.p, cell.kind) == 0
  }

  lemma {:induction false} EnabledAsScheduled(m: Monitor, ops: seq<Op>)
    ensures Ran(m, ops).enabled == EnabledAfter(m.enabled, ops)
    decreases |ops|
  {
    if ops != [] {
      EnabledAsScheduled(m, ops[..|ops| - 1]);
    }
  }

  lemma {:induction false} PlacesAreEarlier(enabled: bool, ops: seq<Op>, cell: CellId)
    ensures forall i :: i in PendingAfter(enabled, ops, cell) || i in SnapshotAfter(enabled, ops, cell) ==> i < |ops|
    decreases |ops|
  {
    if ops != [] {
      PlacesAreEarlier(enabled, ops[..|ops| - 1], cell);
    }
  }

  /** The counts of the cell after one more operation. */
  lemma CountsAfter(m: Monitor, op: Op, cell: CellId)
    requires Registered(m)
    ensures var pending := At(m.pending, cell.t, cell.p, cell.kind);
            var snapshot := At(m.snapshot, cell.t, cell.p, cell.kind);
            var next := Apply(m, op);
            && At(next.pending, cell.t, cell.p, cell.kind) ==
                 (if op.ClearData? then 0
                  else if !m.enabled then pending
                  else if op.Consume? || op.ProduceAndConsume? then 0
                  else if IsNotify(op, cell) then pending + op.n
                  else pending)
            && At(next.snapshot, cell.t, cell.p, cell.kind) ==
                 (if op.ClearData? then 0
                  else if m.enabled && (op.Produce? || op.ProduceAndConsume?) then pending
                  else snapshot)
  {
    ProducedAt(m, cell.t, cell.p, cell.kind);
    ConsumedAt(m, cell.t, cell.p, cell.kind);
    ConsumedAt(Produced(m), cell.t, cell.p, cell.kind);
    assert op.ClearData? ==> At(Apply(m, op).pending, cell.t, cell.p, cell.kind) == 0;
    assert op.ClearData? ==> At(Apply(m, op).snapshot, cell.t, cell.p, cell.kind) == 0;
    assert Consumed(Produced(m)).snapshot == Produced(m).snapshot;
    hide At, Produced, Registered;
    if op.Notify? {
      NotifiedAt(m, op, cell.t, cell.p, cell.kind);
    }
  }

  /** Nothing scheduled, nothing counted; and the same scheduled, the same counted. */
  ghost predicate Agrees(m: Monitor, pending: set<nat>, snapshot: set<nat>, cell: CellId) {
    && (pending == {} ==> At(m.pending, cell.t, cell.p, cell.kind) == 0)
    && (snapshot == {} ==> At(m.snapshot, cell.t, cell.p, cell.kind) == 0)
    && (pending == snapshot ==>
          At(m.pending, cell.t, cell.p, cell.kind) == At(m.snapshot, cell.t, cell.p, cell.kind))
  }

  lemma {:induction false} ScheduleAgrees(m: Monitor, ops: seq<Op>, cell: CellId)
    requires Starts(m, cell)
    ensures Agrees(Ran(m, ops), PendingAfter(m.enabled, ops, cell), SnapshotAfter(m.enabled, ops, cell), cell)
    decreases |ops|
  {
    if ops != [] {
      var earlier := ops[..|ops| - 1];
      ScheduleAgrees(m, earlier, cell);
      EnabledAsScheduled(m, earlier);
      PlacesAreEarlier(m.enabled, earlier, cell);
      RunKeepsRegistered(m, earlier);
      CountsAfter(Ran(m, earlier), ops[|ops| - 1], cell);
      hide Apply, At, Registered, EnabledAfter;
    }
  }

  /** A careful schedule balances, whatever the amounts. */
  lemma {:induction false} CarefulAccounts(m: Monitor, ops: seq<Op>, cell: CellId)
    requires Starts(m, cell) && Careful(m.enabled, ops, cell)
    ensures AllAccount(m, ops, cell.t, cell.p, cell.kind)
    decreases |ops|
  {
    if ops != [] {
      var earlier := ops[..|ops| - 1];
      assert ops[..|ops|] == ops && forall k :: 0 < k <= |earlier| ==> earlier[..k] == ops[..k];
      CarefulAccounts(m, earlier, cell);
      ScheduleAgrees(m, earlier, cell);
      EnabledAsScheduled(m, earlier);
      assert CarefulAt(m.enabled, ops, cell);
      hide Apply, At, PendingAfter, SnapshotAfter, EnabledAfter;
    }
  }

  // ----- Amounts that show a careless schedule

  /** The same operations in the same places, up to how many messages are notified. */
  predicate SameSchedule(ops: seq<Op>, others: seq<Op>) {
    |ops| == |others| && forall k :: 0 <= k < |ops| ==> SameKind(ops[k], others[k])
  }

  predicate SameKind(op: Op, other: Op) {
    other == op || (op.Notify? && other.Notify? && other == op.(n := other.n))
  }

  lemma {:induction false} SamePlaces(enabled: bool, ops: seq<Op>, others: seq<Op>, cell: CellId)
    requires SameSchedule(ops, others)
    ensures EnabledAfter(enabled, others) == EnabledAfter(enabled, ops)
    ensures PendingAfter(enabled, others, cell) == PendingAfter(enabled, ops, cell)
    ensures SnapshotAfter(enabled, others, cell) == SnapshotAfter(enabled, ops, cell)
    decreases |ops|
  {
    if ops != [] {
      SamePlaces(enabled, ops[..|ops| - 1], others[..|ops| - 1], cell);
      assert SameKind(ops[|ops| - 1], others[|ops| - 1]);
    }
  }

  lemma CarefulAlike(enabled: bool, ops: seq<Op>, others: seq<Op>, cell: CellId)
    requires SameSchedule(ops, others) && Careful(enabled, ops, cell)
    ensures Careful(enabled, others, cell)
  {
    forall k | 0 < k <= |others| ensures CarefulAt(enabled, others[..k], cell) {
      assert CarefulAt(enabled, ops[..k], cell);
      assert SameKind(ops[k - 1], others[k - 1]);
      assert ops[..k][..k - 1] == ops[..k - 1] && others[..k][..k - 1] == others[..k - 1];
      SamePlaces(enabled, ops[..k - 1], others[..k - 1], cell);
    }
  }

  /** One message, notified in place x, and none anywhere else. */
  function OneMessage(ops: seq<Op>, x: nat): seq<Op> {
    seq(|ops|, k requires 0 <= k < |ops| =>
      if ops[k].Notify? then ops[k].(n := if k == x then 1 else 0) else ops[k])
  }

  lemma {:induction false} OneMessageCounts(m: Monitor, ops: seq<Op>, cell: CellId, x: nat)
    requires Starts(m, cell)
    ensures var s := Ran(m, OneMessage(ops, x));
            && At(s.pending, cell.t, cell.p, cell.kind) == (if x in PendingAfter(m.enabled, ops, cell) then 1 else 0)
            && At(s.snapshot, cell.t, cell.p, cell.kind) == (if x in SnapshotAfter(m.enabled, ops, cell) then 1 else 0)
    decreases |ops|
  {
    var one := OneMessage(ops, x);
    if ops != [] {
      var earlier := ops[..|ops| - 1];
      assert one[..|ops| - 1] == OneMessage(earlier, x);
      OneMessageCounts(m, earlier, cell, x);
      EnabledAsScheduled(m, OneMessage(earlier, x));
      SamePlaces(m.enabled, earlier, OneMessage(earlier, x), cell);
      PlacesAreEarlier(m.enabled, earlier, cell);
      RunKeepsRegistered(m, OneMessage(earlier, x));
      CountsAfter(Ran(m, OneMessage(earlier, x)), one[|ops| - 1], cell);
      hide Apply, At, Registered, EnabledAfter;
    }
  }

  /** Where the schedule is careless, a single message shows it. */
  lemma CarelessLoses(m: Monitor, ops: seq<Op>, cell: CellId) returns (others: seq<Op>)
    requires Starts(m, cell) && ops != [] && !CarefulAt(m.enabled, ops, cell)
    ensures SameSchedule(ops, others) && !AllAccount(m, others, cell.t, cell.p, cell.kind)
  {
    var earlier := ops[..|ops| - 1];
    var pending, snapshot := PendingAfter(m.enabled, earlier, cell), SnapshotAfter(m.enabled, earlier, cell);
    var clears := ops[|ops| - 1].ClearData?;
    var x: nat :| if clears then x in pending else (x in pending) != (x in snapshot);
    others := OneMessage(ops, x);
    assert others[..|ops| - 1] == OneMessage(earlier, x);
    OneMessageCounts(m, earlier, cell, x);
    EnabledAsScheduled(m, OneMessage(earlier, x));
    SamePlaces(m.enabled, earlier, OneMessage(earlier, x), cell);
  }

  lemma {:induction false} AccountsSoFar(m: Monitor, ops: seq<Op>, k: nat, cell: CellId)
    requires k <= |ops| && AllAccount(m, ops, cell.t, cell.p, cell.kind)
    ensures AllAccount(m, ops[..k], cell.t, cell.p, cell.kind)
    decreases |ops|
  {
    if k < |ops| {
      assert ops[..|ops| - 1][..k] == ops[..k];
      AccountsSoFar(m, ops[..|ops| - 1], k, cell);
    } else {
      assert ops[..k] == ops;
    }
  }

  /**
   A schedule keeps the account of the cell balanced throughout, whatever amounts are notified, exactly if every
   consume hands over the very notifications that are pending and no clear finds one.
   */
  lemma ScheduleConservesExactly(m: Monitor, ops: seq<Op>, cell: CellId)
    requires Starts(m, cell)
    ensures (forall others :: SameSchedule(ops, others) ==> Balanced(m, others, cell))
       <==> Careful(m.enabled, ops, cell)
  {
    if Careful(m.enabled, ops, cell) {
      forall others | SameSchedule(ops, others) ensures Balanced(m, others, cell) {
        CarefulAlike(m.enabled, ops, others, cell);
        CarefulAccounts(m, others, cell);
        BalancedMeansAllAccount(m, others, cell);
      }
    } else {
      var k :| 0 < k <= |ops| && !CarefulAt(m.enabled, ops[..k], cell);
      var few := CarelessLoses(m, ops[..k], cell);
      var others := few + ops[k..];
      assert others[..k] == few && SameSchedule(ops, others);
      if Balanced(m, others, cell) {
        BalancedMeansAllAccount(m, others, cell);
        AccountsSoFar(m, others, k, cell);
      }
    }
  }

  // ----- A careful habit

  /** The operation leaves alone what is pending in the cell and what the snapshot says of it. */
  predicate LeavesCell(enabled: bool, op: Op, cell: CellId) {
    !op.ClearData? && (enabled ==> !op.Consume? && !op.ProduceAndConsume? && !op.Produce? && !IsNotify(op, cell))
  }

  /** From place j on, where the snapshot was produced, nothing has touched the cell. */
  ghost predicate UntouchedSince(enabled: bool, ops: seq<Op>, j: nat, cell: CellId) {
    && j < |ops| && ops[j].Produce? && EnabledAfter(enabled, ops[..j])
    && forall k :: j < k < |ops| ==> LeavesCell(EnabledAfter(enabled, ops[..k]), ops[k], cell)
  }

  lemma {:induction false} UntouchedIsUpToDate(enabled: bool, ops: seq<Op>, j: nat, cell: CellId)
    requires UntouchedSince(enabled, ops, j, cell)
    ensures SnapshotAfter(enabled, ops, cell) == PendingAfter(enabled, ops, cell)
    decreases |ops|
  {
    var earlier := ops[..|ops| - 1];
    if j < |earlier| {
      assert forall k :: 0 <= k <= |earlier| ==> earlier[..k] == ops[..k];
      UntouchedIsUpToDate(enabled, earlier, j, cell);
      assert LeavesCell(EnabledAfter(enabled, earlier), ops[|earlier|], cell);
    }
    hide EnabledAfter;
  }

  /**
   So it is enough that between a produce and the consume that hands it over nothing is notified to the cell,
   produced or consumed, and that nothing is cleared.
   */
  lemma UndisturbedConsumesConserve(m: Monitor, ops: seq<Op>, cell: CellId)
    requires Starts(m, cell) && forall k :: 0 <= k < |ops| ==> !ops[k].ClearData?
    requires forall k :: 0 <= k < |ops| && ops[k].Consume? && EnabledAfter(m.enabled, ops[..k]) ==>
               exists j :: UntouchedSince(m.enabled, ops[..k], j, cell)
    ensures Balanced(m, ops, cell)
  {
    forall k | 0 < k <= |ops| ensures CarefulAt(m.enabled, ops[..k], cell) {
      assert ops[..k][..k - 1] == ops[..k - 1];
      if ops[k - 1].Consume? && EnabledAfter(m.enabled, ops[..k - 1]) {
        var j: nat :| UntouchedSince(m.enabled, ops[..k - 1], j, cell);
        UntouchedIsUpToDate(m.enabled, ops[..k - 1], j, cell);
      }
    }
    CarefulAccounts(m, ops, cell);
    BalancedMeansAllAccount(m, ops, cell);
  }
}
