/** The accounting of received and lost messages, period by period. */
module TopicsMonitor {
  import opened DdsPipeTypes

  datatype Counts = Counts(received: nat, lost: nat)

  const ZERO := Counts(0, 0)

  /** Messages received, or messages lost. */
  datatype Kind = Received | Lost

  function Count(c: Counts, kind: Kind): nat {
    if kind.Received? then c.received else c.lost
  }

  function Raised(c: Counts, kind: Kind, n: nat): Counts {
    if kind.Received? then c.(received := c.received + n) else c.(lost := c.lost + n)
  }

  type Ledger = map<DdsTopic, map<ParticipantId, Counts>>

  function Cell(row: map<ParticipantId, Counts>, p: ParticipantId): Counts {
    if p in row then row[p] else ZERO
  }

  function At(ledger: Ledger, t: DdsTopic, p: ParticipantId, kind: Kind): nat {
    Count(Cell(Row(ledger, t), p), kind)
  }

  function Row(ledger: Ledger, t: DdsTopic): map<ParticipantId, Counts> {
    if t in ledger then ledger[t] else map[]
  }

  /** `topics` are the registered ones, `pending` the counts of this period, `snapshot` what was last produced. */
  datatype Monitor = Monitor(enabled: bool, topics: set<DdsTopic>, pending: Ledger, snapshot: Ledger)

  datatype Op =
    | Notify(t: DdsTopic, p: ParticipantId, kind: Kind, n: nat)
    | Register(t: DdsTopic) // a type or QoS mismatch
    | ProduceAndConsume
    | Produce
    | Consume
    | ClearData
    | Enable
    | Disable

  function Produced(m: Monitor): Monitor {
    m.(pending := map t | t in m.pending.Keys + m.topics :: Row(m.pending, t),
    snapshot := map t | t in m.topics :: Row(m.pending, t))
  }

  function ResetRow(row: map<ParticipantId, Counts>): map<ParticipantId, Counts> {
    map p | p in row :: ZERO
  }

  function Consumed(m: Monitor): Monitor {
    m.(pending := map t | t in m.pending :: ResetRow(m.pending[t]))
  }

  function Apply(m: Monitor, op: Op): Monitor {
    match op
    case Enable => m.(enabled := true)
    case Disable => m.(enabled := false)
    case ClearData => m.(topics := {}, pending := map[], snapshot := map[])
    case Notify(t, p, kind, n) =>
      if m.enabled then
        m.(topics := m.topics + {t},
        pending := m.pending[t := Row(m.pending, t)[p := Raised(Cell(Row(m.pending, t), p), kind, n)]])
      else m
    case Register(t) => if m.enabled then m.(topics := m.topics + {t}) else m
    case ProduceAndConsume => if m.enabled then Consumed(Produced(m)) else m
    case Produce => if m.enabled then Produced(m) else m
    case Consume => if m.enabled then Consumed(m) else m
  }

  /** What an operation adds to the account of participant p on topic t. */
  function Notified(m: Monitor, op: Op, t: DdsTopic, p: ParticipantId, kind: Kind): nat {
    if m.enabled && op.Notify? && op.t == t && op.p == p && op.kind == kind then op.n else 0
  }

  /** What it hands to the consumers for p on t. */
  function Delivered(m: Monitor, op: Op, t: DdsTopic, p: ParticipantId, kind: Kind): nat {
    if m.enabled && op.ProduceAndConsume? then At(Produced(m).snapshot, t, p, kind)
    else if m.enabled && op.Consume? then At(m.snapshot, t, p, kind)
    else 0
  }

  /** Every topic with data is registered, so that produce does not miss it. */
  predicate Registered(m: Monitor) {
    m.pending.Keys <= m.topics
  }

  lemma StepKeepsRegistered(m: Monitor, op: Op)
    requires Registered(m)
    ensures Registered(Apply(m, op))
  {
  }

  /** The operation loses nothing and delivers nothing twice: a snapshot is consumed while it is up to date. */
  predicate Accounts(m: Monitor, op: Op, t: DdsTopic, p: ParticipantId, kind: Kind) {
    && (m.enabled && op.Consume? ==> At(m.snapshot, t, p, kind) == At(m.pending, t, p, kind))
    && (op.ClearData? ==> At(m.pending, t, p, kind) == 0)
  }

  /** An operation balances the books of p on t exactly when it accounts for what is pending. */
  lemma StepConservesExactly(m: Monitor, op: Op, t: DdsTopic, p: ParticipantId, kind: Kind)
    requires Registered(m)
    ensures At(m.pending, t, p, kind) + Notified(m, op, t, p, kind)
         == Delivered(m, op, t, p, kind) + At(Apply(m, op).pending, t, p, kind)
       <==> Accounts(m, op, t, p, kind)
  {
    ProducedAt(m, t, p, kind);
    ConsumedAt(m, t, p, kind);
    ConsumedAt(Produced(m), t, p, kind);
    assert op.ClearData? ==> At(Apply(m, op).pending, t, p, kind) == 0;
    hide At, Produced, Consumed, Registered;
    if op.Notify? {
      NotifiedAt(m, op, t, p, kind);
    }
  }

  lemma ProducedAt(m: Monitor, t: DdsTopic, p: ParticipantId, kind: Kind)
    requires Registered(m)
    ensures At(Produced(m).pending, t, p, kind) == At(m.pending, t, p, kind) == At(Produced(m).snapshot, t, p, kind)
  {
  }

  lemma ConsumedAt(m: Monitor, t: DdsTopic, p: ParticipantId, kind: Kind)
    ensures At(Consumed(m).pending, t, p, kind) == 0
  {
  }

  lemma NotifiedAt(m: Monitor, op: Op, t: DdsTopic, p: ParticipantId, kind: Kind)
    requires op.Notify?
    ensures At(Apply(m, op).pending, t, p, kind) == At(m.pending, t, p, kind) + Notified(m, op, t, p, kind)
  {
  }

  function Ran(m: Monitor, ops: seq<Op>): Monitor {
    if ops == [] then m else Apply(Ran(m, ops[..|ops| - 1]), ops[|ops| - 1])
  }

  function TotalNotified(m: Monitor, ops: seq<Op>, t: DdsTopic, p: ParticipantId, kind: Kind): nat {
    if ops == [] then 0
    else
      var earlier := ops[..|ops| - 1];
      TotalNotified(m, earlier, t, p, kind) + Notified(Ran(m, earlier), ops[|ops| - 1], t, p, kind)
  }

  function TotalDelivered(m: Monitor, ops: seq<Op>, t: DdsTopic, p: ParticipantId, kind: Kind): nat {
    if ops == [] then 0
    else
      var earlier := ops[..|ops| - 1];
      TotalDelivered(m, earlier, t, p, kind) + Delivered(Ran(m, earlier), ops[|ops| - 1], t, p, kind)
  }

  predicate AllAccount(m: Monitor, ops: seq<Op>, t: DdsTopic, p: ParticipantId, kind: Kind)
    decreases |ops|
  {
    ops == [] ||
    (var earlier := ops[..|ops| - 1];
     AllAccount(m, earlier, t, p, kind) && Accounts(Ran(m, earlier), ops[|ops| - 1], t, p, kind))
  }

  lemma {:induction false} RunKeepsRegistered(m: Monitor, ops: seq<Op>)
    requires Registered(m)
    ensures Registered(Ran(m, ops))
    decreases |ops|
  {
    hide Apply;
    if ops != [] {
      RunKeepsRegistered(m, ops[..|ops| - 1]);
      StepKeepsRegistered(Ran(m, ops[..|ops| - 1]), ops[|ops| - 1]);
    }
  }

  /** Over any run that accounts for what is pending: notified is delivered plus still pending. */
  lemma {:induction false} RunConserves(m: Monitor, ops: seq<Op>, t: DdsTopic, p: ParticipantId, kind: Kind)
    requires Registered(m) && At(m.pending, t, p, kind) == 0 && AllAccount(m, ops, t, p, kind)
    ensures TotalNotified(m, ops, t, p, kind)
         == TotalDelivered(m, ops, t, p, kind) + At(Ran(m, ops).pending, t, p, kind)
    decreases |ops|
  {
    hide Apply, Notified, Delivered, At, Registered, Accounts;
    if ops != [] {
      var earlier := ops[..|ops| - 1];
      RunConserves(m, earlier, t, p, kind);
      RunKeepsRegistered(m, earlier);
      StepConservesExactly(Ran(m, earlier), ops[|ops| - 1], t, p, kind);
    }
  }

  /** With produce_and_consume alone, nothing has to be watched. */
  lemma PeriodsConserve(m: Monitor, ops: seq<Op>, t: DdsTopic, p: ParticipantId, kind: Kind)
    requires Registered(m) && At(m.pending, t, p, kind) == 0
    requires forall k :: 0 <= k < |ops| ==> !ops[k].Consume? && !ops[k].ClearData?
    ensures TotalNotified(m, ops, t, p, kind)
         == TotalDelivered(m, ops, t, p, kind) + At(Ran(m, ops).pending, t, p, kind)
  {
    PeriodsAccount(m, ops, t, p, kind);
    RunConserves(m, ops, t, p, kind);
  }

  lemma {:induction false} PeriodsAccount(m: Monitor, ops: seq<Op>, t: DdsTopic, p: ParticipantId, kind: Kind)
    requires forall k :: 0 <= k < |ops| ==> !ops[k].Consume? && !ops[k].ClearData?
    ensures AllAccount(m, ops, t, p, kind)
    decreases |ops|
  {
    if ops != [] {
      PeriodsAccount(m, ops[..|ops| - 1], t, p, kind);
    }
  }

  // ----- The topics that are reported

  /** On an enabled producer the operation brings topic t up, by a message or by a mismatch. */
  predicate Reports(m: Monitor, op: Op, t: DdsTopic) {
    m.enabled && (op.Notify? || op.Register?) && op.t == t
  }

  /** Operation k does, and nothing is cleared later. */
  predicate ReportedAt(m: Monitor, ops: seq<Op>, k: nat, t: DdsTopic) {
    k < |ops| && Reports(Ran(m, ops[..k]), ops[k], t) && forall j :: k < j < |ops| ==> !ops[j].ClearData?
  }

  lemma TopicsAfter(m: Monitor, op: Op, t: DdsTopic)
    ensures t in Produced(Apply(m, op)).snapshot <==>
              !op.ClearData? && (t in Produced(m).snapshot || Reports(m, op, t))
  {
    hide Row, ResetRow, Cell;
  }

  lemma ReportedEarlier(m: Monitor, ops: seq<Op>, k: nat, t: DdsTopic)
    requires ops != [] && k < |ops| - 1
    ensures ReportedAt(m, ops, k, t) <==> ReportedAt(m, ops[..|ops| - 1], k, t) && !ops[|ops| - 1].ClearData?
  {
    var earlier := ops[..|ops| - 1];
    assert earlier[..k] == ops[..k] && forall j :: 0 <= j < |earlier| ==> earlier[j] == ops[j];
  }

  /** The topics of a snapshot are those brought up since the data were last cleared, with messages or without. */
  lemma {:induction false} TopicsAreThoseReported(m: Monitor, ops: seq<Op>, t: DdsTopic)
    requires m.topics == {}
    ensures t in Produced(Ran(m, ops)).snapshot <==> exists k: nat :: ReportedAt(m, ops, k, t)
    decreases |ops|
  {
    if ops != [] {
      hide Apply, Produced, Reports;
      var n := |ops| - 1;
      TopicsAreThoseReported(m, ops[..n], t);
      TopicsAfter(Ran(m, ops[..n]), ops[n], t);
      assert ReportedAt(m, ops, n, t) <==> Reports(Ran(m, ops[..n]), ops[n], t);
      forall k: nat | k < n
        ensures ReportedAt(m, ops, k, t) <==> ReportedAt(m, ops[..n], k, t) && !ops[n].ClearData?
      {
        ReportedEarlier(m, ops, k, t);
      }
      ClearReportsNothing(Ran(m, ops[..n]), ops[n], t);
    }
  }

  lemma ClearReportsNothing(m: Monitor, op: Op, t: DdsTopic)
    ensures op.ClearData? ==> !Reports(m, op, t)
  {
  }

  class TopicsMonitorProducer {
    var enabled: bool
    var topicData: set<DdsTopic>
    var participantData: Ledger
    var data: Ledger

    function View(): Monitor
      reads this
    {
      Monitor(enabled, topicData, participantData, data)
    }

    constructor ()
      ensures View() == Monitor(false, {}, map[], map[])
    {
      enabled, topicData, participantData, data := false, {}, map[], map[];
    }

    method SetEnabled(enableIt: bool)
      modifies this
      ensures View() == Apply(old(View()), if enableIt then Enable else Disable)
    {
      enabled := enableIt;
    }

    /** msgs_received and msgs_lost. */
    method AddMessages(topic: DdsTopic, participantId: ParticipantId, kind: Kind, n: nat)
      modifies this
      ensures View() == Apply(old(View()), Notify(topic, participantId, kind, n))
    {
      if !enabled {
        return;
      }
      topicData := topicData + {topic};
      if topic !in participantData {
        participantData := participantData[topic := map[]];
      }
      var row := participantData[topic];
      if participantId !in row {
        row := row[participantId := ZERO];
      }
      ghost var raised := Raised(Cell(Row(old(participantData), topic), participantId), kind, n);
      assert row[participantId := raised] == Row(old(participantData), topic)[participantId := raised];
      participantData := participantData[topic := row[participantId := Raised(row[participantId], kind, n)]];
    }

    method Mismatch(topic: DdsTopic)
      modifies this
      ensures View() == Apply(old(View()), Register(topic))
    {
      if enabled {
        topicData := topicData + {topic};
      }
    }

    method DoProduceAndConsume() returns (handed: Ledger)
      modifies this
      ensures View() == Apply(old(View()), ProduceAndConsume)
      ensures forall t, p, kind :: At(handed, t, p, kind) == Delivered(old(View()), ProduceAndConsume, t, p, kind)
    {
      handed := map[];
      if enabled {
        ProduceNts();
        handed := ConsumeNts();
      }
    }

    method DoProduce()
      modifies this
      ensures View() == Apply(old(View()), Produce)
    {
      if enabled {
        ProduceNts();
      }
    }

    method DoConsume() returns (handed: Ledger)
      modifies this
      ensures View() == Apply(old(View()), Consume)
      ensures forall t, p, kind :: At(handed, t, p, kind) == Delivered(old(View()), Consume, t, p, kind)
    {
      handed := map[];
      if enabled {
        handed := ConsumeNts();
      }
    }

    /** Each consumer is given the snapshot; then the period is over. */
    method ConsumeNts() returns (handed: Ledger)
      modifies this`participantData
      ensures handed == data && View() == Consumed(old(View()))
    {
      handed := data;
      ResetData();
    }

    method DoClearData()
      modifies this
      ensures View() == Apply(old(View()), ClearData)
    {
      topicData, participantData, data := {}, map[], map[];
    }

    /** Looking a topic's participants up creates an empty row where there is none. */
    method ProduceNts()
      modifies this`participantData, this`data
      ensures View() == Produced(old(View()))
    {
      var topicsData: Ledger := map[];
      var topics := topicData;
      while topics != {}
        invariant topics <= topicData
        invariant topicsData == map t | t in topicData - topics :: Row(old(participantData), t)
        invariant participantData
               == map t | t in old(participantData).Keys + (topicData - topics) :: Row(old(participantData), t)
        decreases topics
      {
        var topic :| topic in topics;
        if topic !in participantData {
          participantData := participantData[topic := map[]];
        }
        topicsData := topicsData[topic := participantData[topic]];
        topics := topics - {topic};
      }
      assert topicData - {} == topicData;
      data := topicsData;
    }

    method ResetData()
      modifies this`participantData
      ensures View() == Consumed(old(View()))
    {
      var topics := participantData.Keys;
      while topics != {}
        invariant topics <= old(participantData).Keys && participantData.Keys == old(participantData).Keys
        invariant forall t :: t in participantData ==>
                    participantData[t] ==
                      if t in topics then old(participantData)[t] else ResetRow(old(participantData)[t])
        decreases topics
      {
        var topic :| topic in topics;
        var row := participantData[topic];
        var ids := row.Keys;
        while ids != {}
          invariant ids <= participantData[topic].Keys && row.Keys == participantData[topic].Keys
          invariant forall p :: p in row && p !in ids ==> row[p] == ZERO
          decreases ids
        {
          var id :| id in ids;
          row := row[id := ZERO];
          ids := ids - {id};
        }
        assert row == ResetRow(participantData[topic]);
        participantData := participantData[topic := row];
        topics := topics - {topic};
      }
    }
  }
}
