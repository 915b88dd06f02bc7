/** How the QoS of a topic is decided for one participant: manual topics first, then the participant. */
module TopicQos {

  import opened DdsPipeTypes

  /** The fuzzy levels, in their order: a value counts as set above LEVEL_DEFAULT. */
  type Level = l: int | 0 <= l <= 3

  const LEVEL_DEFAULT: Level := 0
  const LEVEL_SET: Level := 2
  const LEVEL_HARD: Level := 3

  datatype Fuzzy<T> = Fuzzy(value: T, level: Level) {
    predicate IsSet() {
      level > LEVEL_DEFAULT
    }
  }

  datatype Durability = Volatile | TransientLocal
  datatype Reliability = BestEffort | Reliable
  datatype Ownership = Shared | Exclusive

  datatype Qos = Qos(
    durability: Fuzzy<Durability>,
    reliability: Fuzzy<Reliability>,
    ownership: Fuzzy<Ownership>,
    usePartitions: Fuzzy<bool>,
    historyDepth: Fuzzy<nat>,
    keyed: Fuzzy<bool>,
    maxTxRate: Fuzzy<real>,
    maxRxRate: Fuzzy<real>,
    downsampling: Fuzzy<nat>
  )

  const DEFAULT_QOS := Qos(
    Fuzzy(Volatile, LEVEL_DEFAULT), Fuzzy(BestEffort, LEVEL_DEFAULT), Fuzzy(Shared, LEVEL_DEFAULT),
    Fuzzy(false, LEVEL_DEFAULT), Fuzzy(50_000_000, LEVEL_DEFAULT), Fuzzy(false, LEVEL_DEFAULT),
    Fuzzy(0.0, LEVEL_DEFAULT), Fuzzy(0.0, LEVEL_DEFAULT), Fuzzy(1, LEVEL_DEFAULT))

  function OverlayField<T>(own: Fuzzy<T>, other: Fuzzy<T>, level: Level): Fuzzy<T> {
    if own.level < level && other.IsSet() then Fuzzy(other.value, level) else own
  }

  function Overlay(own: Qos, other: Qos, level: Level): Qos {
    Qos(OverlayField(own.durability, other.durability, level),
        OverlayField(own.reliability, other.reliability, level),
        OverlayField(own.ownership, other.ownership, level),
        OverlayField(own.usePartitions, other.usePartitions, level),
        OverlayField(own.historyDepth, other.historyDepth, level),
        OverlayField(own.keyed, other.keyed, level),
        OverlayField(own.maxTxRate, other.maxTxRate, level),
        OverlayField(own.maxRxRate, other.maxRxRate, level),
        OverlayField(own.downsampling, other.downsampling, level))
  }

  class TopicQoS {
    var durability: Fuzzy<Durability>
    var reliability: Fuzzy<Reliability>
    var ownership: Fuzzy<Ownership>
    var usePartitions: Fuzzy<bool>
    var historyDepth: Fuzzy<nat>
    var keyed: Fuzzy<bool>
    var maxTxRate: Fuzzy<real>
    var maxRxRate: Fuzzy<real>
    var downsampling: Fuzzy<nat>

    function View(): Qos
      reads this
    {
      Qos(durability, reliability, ownership, usePartitions, historyDepth, keyed, maxTxRate, maxRxRate, downsampling)
    }

    /** Starts from the built-in defaults; the defaults of this execution, if any, count as discovered. */
    constructor (executionDefault: Fuzzy<Qos>)
      ensures View() == if executionDefault.IsSet() then Overlay(DEFAULT_QOS, executionDefault.value, LEVEL_SET)
                        else DEFAULT_QOS
    {
      durability, reliability, ownership := DEFAULT_QOS.durability, DEFAULT_QOS.reliability, DEFAULT_QOS.ownership;
      usePartitions, historyDepth := DEFAULT_QOS.usePartitions, DEFAULT_QOS.historyDepth;
      keyed, maxTxRate := DEFAULT_QOS.keyed, DEFAULT_QOS.maxTxRate;
      maxRxRate, downsampling := DEFAULT_QOS.maxRxRate, DEFAULT_QOS.downsampling;
      new;
      if executionDefault.IsSet() {
        SetQos(executionDefault.value, LEVEL_SET);
      }
    }

    constructor Copy(qos: Qos)
      ensures View() == qos
    {
      durability, reliability, ownership := qos.durability, qos.reliability, qos.ownership;
      usePartitions, historyDepth, keyed := qos.usePartitions, qos.historyDepth, qos.keyed;
      maxTxRate, maxRxRate, downsampling := qos.maxTxRate, qos.maxRxRate, qos.downsampling;
    }

    /** The first half of set_qos: what endpoints agree on. */
    method SetContractQos(qos: Qos, level: Level)
      modifies this`durability, this`reliability, this`ownership, this`usePartitions
      ensures durability == OverlayField(old(durability), qos.durability, level)
      ensures reliability == OverlayField(old(reliability), qos.reliability, level)
      ensures ownership == OverlayField(old(ownership), qos.ownership, level)
      ensures usePartitions == OverlayField(old(usePartitions), qos.usePartitions, level)
    {
      if durability.level < level && qos.durability.IsSet() {
        durability := Fuzzy(qos.durability.value, level);
      }
      if reliability.level < level && qos.reliability.IsSet() {
        reliability := Fuzzy(qos.reliability.value, level);
      }
      if ownership.level < level && qos.ownership.IsSet() {
        ownership := Fuzzy(qos.ownership.value, level);
      }
      if usePartitions.level < level && qos.usePartitions.IsSet() {
        usePartitions := Fuzzy(qos.usePartitions.value, level);
      }
    }

    /** The second half of set_qos: depth, keys and rates. */
    method SetFlowQos(qos: Qos, level: Level)
      modifies this`historyDepth, this`keyed, this`maxTxRate, this`maxRxRate, this`downsampling
      ensures historyDepth == OverlayField(old(historyDepth), qos.historyDepth, level)
      ensures keyed == OverlayField(old(keyed), qos.keyed, level)
      ensures maxTxRate == OverlayField(old(maxTxRate), qos.maxTxRate, level)
      ensures maxRxRate == OverlayField(old(maxRxRate), qos.maxRxRate, level)
      ensures downsampling == OverlayField(old(downsampling), qos.downsampling, level)
    {
      if historyDepth.level < level && qos.historyDepth.IsSet() {
        historyDepth := Fuzzy(qos.historyDepth.value, level);
      }
      if keyed.level < level && qos.keyed.IsSet() {
        keyed := Fuzzy(qos.keyed.value, level);
      }
      if maxTxRate.level < level && qos.maxTxRate.IsSet() {
        maxTxRate := Fuzzy(qos.maxTxRate.value, level);
      }
      if maxRxRate.level < level && qos.maxRxRate.IsSet() {
        maxRxRate := Fuzzy(qos.maxRxRate.value, level);
      }
      if downsampling.level < level && qos.downsampling.IsSet() {
        downsampling := Fuzzy(qos.downsampling.value, level);
      }
    }

    method SetQos(qos: Qos, level: Level)
      modifies this
      ensures View() == Overlay(old(View()), qos, level)
    {
      SetContractQos(qos, level);
      SetFlowQos(qos, level);
    }
  }

  // ----- The layers of one participant

  /** A manually configured topic, for the listed participants, or for all if none is listed. */
  datatype ManualTopic = ManualTopic(qos: Qos, participants: set<ParticipantId>)

  predicate AppliesTo(manual: ManualTopic, id: ParticipantId) {
    manual.participants == {} || id in manual.participants
  }

  /** The QoS that may decide for a participant, strongest first. */
  function LayersFor(manual: seq<ManualTopic>, id: ParticipantId, participant: Qos): seq<Qos> {
    if manual == [] then [participant]
    else (if AppliesTo(manual[0], id) then [manual[0].qos] else []) + LayersFor(manual[1..], id, participant)
  }

  function ApplyLayers(own: Qos, layers: seq<Qos>): Qos
    decreases |layers|
  {
    if layers == [] then own else ApplyLayers(Overlay(own, layers[0], LEVEL_HARD), layers[1..])
  }

  method CreateTopicForParticipant(topicQos: Qos, manual: seq<ManualTopic>, id: ParticipantId, participant: Qos)
    returns (topic: TopicQoS)
    ensures fresh(topic)
    ensures topic.View() == ApplyLayers(topicQos, LayersFor(manual, id, participant))
  {
    topic := new TopicQoS.Copy(topicQos);
    for i := 0 to |manual|
      invariant fresh(topic)
      invariant i == 0 ==> manual[i..] == manual
      invariant ApplyLayers(topicQos, LayersFor(manual, id, participant))
             == ApplyLayers(topic.View(), LayersFor(manual[i..], id, participant))
    {
      ghost var rest := LayersFor(manual[i..], id, participant);
      assert manual[i..][0] == manual[i] && manual[i..][1..] == manual[i + 1..];
      if AppliesTo(manual[i], id) {
        assert rest[0] == manual[i].qos && rest[1..] == LayersFor(manual[i + 1..], id, participant);
        topic.SetQos(manual[i].qos, LEVEL_HARD);
      } else {
        assert rest == LayersFor(manual[i + 1..], id, participant);
      }
    }
    assert ApplyLayers(topic.View(), [participant]) == Overlay(topic.View(), participant, LEVEL_HARD) by {
      assert [participant][1..] == [];
    }
    topic.SetQos(participant, LEVEL_HARD);
  }

  // ----- What comes out, field by field

  /** f reads one of the fields that set_qos treats on its own. */
  ghost predicate IsField<T(!new)>(f: Qos -> Fuzzy<T>) {
    forall a, b, level :: f(Overlay(a, b, level)) == OverlayField(f(a), f(b), level)
  }

  lemma TheNineFields()
    ensures IsField((q: Qos) => q.durability) && IsField((q: Qos) => q.reliability)
    ensures IsField((q: Qos) => q.ownership) && IsField((q: Qos) => q.usePartitions)
    ensures IsField((q: Qos) => q.historyDepth) && IsField((q: Qos) => q.keyed)
    ensures IsField((q: Qos) => q.maxTxRate) && IsField((q: Qos) => q.maxRxRate)
    ensures IsField((q: Qos) => q.downsampling)
  {
  }

  /** The first layer that sets the field. */
  function FirstSet<T>(f: Qos -> Fuzzy<T>, layers: seq<Qos>): (k: nat)
    ensures k <= |layers|
    ensures k < |layers| ==> f(layers[k]).IsSet()
    ensures forall j :: 0 <= j < k ==> !f(layers[j]).IsSet()
  {
    if layers == [] || f(layers[0]).IsSet() then 0 else 1 + FirstSet(f, layers[1..])
  }

  /** A field keeps its own value if that is hard; else the first layer that sets it decides. */
  function Decided<T>(f: Qos -> Fuzzy<T>, own: Qos, layers: seq<Qos>): Fuzzy<T> {
    var k := FirstSet(f, layers);
    if f(own).level == LEVEL_HARD || k == |layers| then f(own) else Fuzzy(f(layers[k]).value, LEVEL_HARD)
  }

  lemma {:induction false} FieldIsDecided<T(!new)>(f: Qos -> Fuzzy<T>, own: Qos, layers: seq<Qos>)
    requires IsField(f)
    ensures f(ApplyLayers(own, layers)) == Decided(f, own, layers)
    decreases |layers|
  {
    if layers != [] {
      var next := Overlay(own, layers[0], LEVEL_HARD);
      assert f(next) == OverlayField(f(own), f(layers[0]), LEVEL_HARD);
      FieldIsDecided(f, next, layers[1..]);
    }
  }

  /** The first manual topic that applies to the participant and sets the field. */
  function FirstManual<T>(f: Qos -> Fuzzy<T>, manual: seq<ManualTopic>, id: ParticipantId): (k: nat)
    ensures k <= |manual|
    ensures k < |manual| ==>
              f(manual[k].qos).IsSet() && (manual[k].participants == {} || id in manual[k].participants)
    ensures forall j :: 0 <= j < k ==>
              !f(manual[j].qos).IsSet() || (manual[j].participants != {} && id !in manual[j].participants)
  {
    if manual == [] || (AppliesTo(manual[0], id) && f(manual[0].qos).IsSet()) then 0
    else 1 + FirstManual(f, manual[1..], id)
  }

  lemma {:induction false} DecisionByManualTopics<T>(
    f: Qos -> Fuzzy<T>, own: Qos, manual: seq<ManualTopic>, id: ParticipantId, participant: Qos)
    ensures Decided(f, own, LayersFor(manual, id, participant))
            == var k := FirstManual(f, manual, id);
               if f(own).level == LEVEL_HARD then f(own)
               else if k < |manual| then Fuzzy(f(manual[k].qos).value, LEVEL_HARD)
               else if f(participant).IsSet() then Fuzzy(f(participant).value, LEVEL_HARD)
               else f(own)
    decreases |manual|
  {
    var layers := LayersFor(manual, id, participant);
    if manual == [] {
      assert layers == [participant];
    } else {
      DecisionByManualTopics(f, own, manual[1..], id, participant);
      if AppliesTo(manual[0], id) {
        assert layers[0] == manual[0].qos && layers[1..] == LayersFor(manual[1..], id, participant);
      } else {
        assert layers == LayersFor(manual[1..], id, participant);
      }
    }
  }

  /** The decision in configuration terms: own if hard, then manual topics in order, then the participant. */
  lemma ManualTopicsThenParticipant<T(!new)>(
    f: Qos -> Fuzzy<T>, own: Qos, manual: seq<ManualTopic>, id: ParticipantId, participant: Qos)
    requires IsField(f)
    ensures f(ApplyLayers(own, LayersFor(manual, id, participant)))
            == var k := FirstManual(f, manual, id);
               if f(own).level == LEVEL_HARD then f(own)
               else if k < |manual| then Fuzzy(f(manual[k].qos).value, LEVEL_HARD)
               else if f(participant).IsSet() then Fuzzy(f(participant).value, LEVEL_HARD)
               else f(own)
  {
    FieldIsDecided(f, own, LayersFor(manual, id, participant));
    DecisionByManualTopics(f, own, manual, id, participant);
  }

  // ----- Which manual topics a topic has

  /** A manual topic of the configuration, under the filter it is given with. */
  datatype Configured<F> = Configured(filter: F, manual: ManualTopic)

  function Matching<F, T>(configured: seq<Configured<F>>, matches: (F, T) -> bool, topic: T): seq<ManualTopic> {
    if configured == [] then []
    else
      var last := |configured| - 1;
      Matching(configured[..last], matches, topic)
      + if matches(configured[last].filter, topic) then [configured[last].manual] else []
  }

  method GetManualTopics<F, T>(configured: seq<Configured<F>>, matches: (F, T) -> bool, topic: T)
    returns (manual: seq<ManualTopic>)
    ensures manual == Matching(configured, matches, topic)
  {
    manual := [];
    for i := 0 to |configured|
      invariant manual == Matching(configured[..i], matches, topic)
    {
      assert configured[..i + 1][..i] == configured[..i];
      if matches(configured[i].filter, topic) {
        manual := manual + [configured[i].manual];
      }
    }
    assert configured[..|configured|] == configured;
  }

  predicate NoneDecides<F, T, V>(f: Qos -> Fuzzy<V>, configured: seq<Configured<F>>, matches: (F, T) -> bool, topic: T,
                                 id: ParticipantId) {
    forall j :: 0 <= j < |configured| ==> !Decides(f, configured[j], matches, topic, id)
  }

  predicate Decides<F, T, V>(
    f: Qos -> Fuzzy<V>, c: Configured<F>, matches: (F, T) -> bool, topic: T, id: ParticipantId)
  {
    && matches(c.filter, topic) && f(c.manual.qos).IsSet()
    && (c.manual.participants == {} || id in c.manual.participants)
  }

  lemma {:induction false} FirstManualOfLonger<V>(
    f: Qos -> Fuzzy<V>, manual: seq<ManualTopic>, m: ManualTopic, id: ParticipantId)
    ensures FirstManual(f, manual + [m], id)
         == if FirstManual(f, manual, id) < |manual| then FirstManual(f, manual, id)
            else if AppliesTo(m, id) && f(m.qos).IsSet() then |manual| else |manual| + 1
  {
    var all := manual + [m];
    var k, n := FirstManual(f, manual, id), FirstManual(f, all, id);
    assert forall j :: 0 <= j < |manual| ==> all[j] == manual[j];
    assert all[|manual|] == m;
  }

  /**
   Selecting by filter first and deciding among the selected is deciding in the order of the configuration:
   the manual topic that decides is the first, c, that matches, applies to the participant and sets the field.
   */
  lemma {:induction false} SelectionKeepsTheFirst<F, T, V>(
    f: Qos -> Fuzzy<V>, configured: seq<Configured<F>>, matches: (F, T) -> bool, topic: T, id: ParticipantId)
    returns (c: nat)
    ensures c <= |configured| && NoneDecides(f, configured[..c], matches, topic, id)
    ensures var manual := Matching(configured, matches, topic);
            var k := FirstManual(f, manual, id);
            if c < |configured| then
              k < |manual| && Decides(f, configured[c], matches, topic, id) && manual[k] == configured[c].manual
            else k == |manual|
    decreases |configured|
  {
    c := 0;
    if configured != [] {
      var last := |configured| - 1;
      var earlier := configured[..last];
      var before := Matching(earlier, matches, topic);
      c := SelectionKeepsTheFirst(f, earlier, matches, topic, id);
      FirstManualOfLonger(f, before, configured[last].manual, id);
      assert earlier[..c] == configured[..c];
      assert Matching(configured, matches, topic)
             == if matches(configured[last].filter, topic) then before + [configured[last].manual] else before;
      if c == last {
        if !Decides(f, configured[last], matches, topic, id) {
          c := |configured|;
          assert configured[..c] == configured[..last] + [configured[last]];
        }
      }
    }
  }

  /** Applying the same layers again changes nothing. */
  lemma {:induction false} LayersAreIdempotent<T(!new)>(f: Qos -> Fuzzy<T>, own: Qos, layers: seq<Qos>)
    requires IsField(f)
    ensures f(ApplyLayers(ApplyLayers(own, layers), layers)) == f(ApplyLayers(own, layers))
  {
    FieldIsDecided(f, own, layers);
    FieldIsDecided(f, ApplyLayers(own, layers), layers);
  }

  // ----- Overlays at any level

  /** One call of set_qos. */
  datatype Layer = Layer(qos: Qos, level: Level)

  function ApplyOverlays(own: Qos, layers: seq<Layer>): Qos {
    if layers == [] then own
    else
      var last := layers[|layers| - 1];
      Overlay(ApplyOverlays(own, layers[..|layers| - 1]), last.qos, last.level)
  }

  /** Layer k sets the field, at a level above the field's own and above that of every earlier layer that sets it. */
  predicate Rises<T>(f: Qos -> Fuzzy<T>, own: Qos, layers: seq<Layer>, k: nat) {
    && k < |layers| && f(layers[k].qos).IsSet() && layers[k].level > f(own).level
    && forall j :: 0 <= j < k && f(layers[j].qos).IsSet() ==> layers[j].level < layers[k].level
  }

  /** It does, and no later layer rises above it. */
  predicate Wins<T>(f: Qos -> Fuzzy<T>, own: Qos, layers: seq<Layer>, k: nat) {
    && Rises(f, own, layers, k)
    && forall j :: k < j < |layers| && f(layers[j].qos).IsSet() ==> layers[j].level <= layers[k].level
  }

  /** The field is as it was, and no layer that sets it is above it; or it has the value and level of layer k. */
  ghost predicate IsDecidedBy<T>(f: Qos -> Fuzzy<T>, own: Qos, layers: seq<Layer>, field: Fuzzy<T>, k: nat) {
    if k < |layers| then Wins(f, own, layers, k) && field == Fuzzy(f(layers[k].qos).value, layers[k].level)
    else
      && field == f(own)
      && forall j :: 0 <= j < |layers| && f(layers[j].qos).IsSet() ==> layers[j].level <= f(own).level
  }

  lemma OneMoreLayer<T>(f: Qos -> Fuzzy<T>, own: Qos, earlier: seq<Layer>, last: Layer, before: Fuzzy<T>, k: nat)
    returns (next: nat)
    requires k <= |earlier| && IsDecidedBy(f, own, earlier, before, k)
    ensures next <= |earlier| + 1
    ensures IsDecidedBy(f, own, earlier + [last], OverlayField(before, f(last.qos), last.level), next)
  {
    var n, layers := |earlier|, earlier + [last];
    assert layers[n] == last && forall j :: 0 <= j < n ==> layers[j] == earlier[j];
    if last.level > before.level && f(last.qos).IsSet() {
      next := n;
      assert Wins(f, own, layers, n);
    } else if k == n {
      next := n + 1;
    } else {
      next := k;
      assert Wins(f, own, earlier, k);
      assert Wins(f, own, layers, k);
    }
  }

  lemma OverlayOfField<T(!new)>(f: Qos -> Fuzzy<T>, own: Qos, other: Qos, level: Level)
    requires IsField(f)
    ensures f(Overlay(own, other, level)) == OverlayField(f(own), f(other), level)
  {
  }

  /** Over any overlays: the last layer that rises decides value and level, or the field stays as it is. */
  lemma {:induction false} LastRiseDecides<T(!new)>(f: Qos -> Fuzzy<T>, own: Qos, layers: seq<Layer>)
    returns (k: nat)
    requires IsField(f)
    ensures k <= |layers| && IsDecidedBy(f, own, layers, f(ApplyOverlays(own, layers)), k)
    decreases |layers|
  {
    hide IsField, Overlay, OverlayField;
    if layers == [] {
      k := 0;
    } else {
      hide IsDecidedBy;
      var n := |layers| - 1;
      var before := ApplyOverlays(own, layers[..n]);
      k := LastRiseDecides(f, own, layers[..n]);
      OverlayOfField(f, before, layers[n].qos, layers[n].level);
      assert layers == layers[..n] + [layers[n]];
      k := OneMoreLayer(f, own, layers[..n], layers[n], f(before), k);
    }
  }

  /** Only one layer can win. */
  lemma OneWinner<T>(f: Qos -> Fuzzy<T>, own: Qos, layers: seq<Layer>, j: nat, k: nat)
    requires Wins(f, own, layers, j) && Wins(f, own, layers, k)
    ensures j == k
  {
  }

  /**
   The defaults of an execution do not stand in the way of the configuration: over them, as over the built-in
   ones, the first manual topic that applies and sets the field decides it, and else the participant.
   */
  lemma ManualTopicsDecideOverDefaults<T(!new)>(
    f: Qos -> Fuzzy<T>, execution: Fuzzy<Qos>, manual: seq<ManualTopic>, id: ParticipantId, participant: Qos)
    requires IsField(f) && f(DEFAULT_QOS).level == LEVEL_DEFAULT
    ensures var own := if execution.IsSet() then Overlay(DEFAULT_QOS, execution.value, LEVEL_SET) else DEFAULT_QOS;
            f(ApplyLayers(own, LayersFor(manual, id, participant)))
            == var k := FirstManual(f, manual, id);
               if k < |manual| then Fuzzy(f(manual[k].qos).value, LEVEL_HARD)
               else if f(participant).IsSet() then Fuzzy(f(participant).value, LEVEL_HARD)
               else if execution.IsSet() && f(execution.value).IsSet() then Fuzzy(f(execution.value).value, LEVEL_SET)
               else f(DEFAULT_QOS)
  {
    var own := if execution.IsSet() then Overlay(DEFAULT_QOS, execution.value, LEVEL_SET) else DEFAULT_QOS;
    assert f(Overlay(DEFAULT_QOS, execution.value, LEVEL_SET))
        == OverlayField(f(DEFAULT_QOS), f(execution.value), LEVEL_SET);
    ManualTopicsThenParticipant(f, own, manual, id, participant);
  }
}
