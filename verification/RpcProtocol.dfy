/**
 One RPC service as a step system: readers whose callbacks queue transmit tasks, workers that forward
 requests and replies, the registries that relate the two, and a controller that enables and disables.

 A step is one critical section or one call of the source, but for the callbacks of the readers: a listener
 holds the RTPS mutex of its reader, which guards neither the enabled flag of the reader nor that of the
 bridge, so it reads each of them in a step of its own.  The state starts where init_nts_ leaves it.
 */
module RpcProtocol {
  import opened DdsPipeTypes
  import opened ServiceRegistries

  /** Each participant has a proxy server, which reads requests, and a proxy client, which reads replies. */
  datatype ReaderId = RequestReader(p: ParticipantId) | ReplyReader(p: ParticipantId)

  /** A request, with whom to answer; or a reply to request `number`, `mine` if this proxy client made it. */
  datatype Sample = Request(identity: SampleIdentity) | Reply(mine: bool, number: SequenceNumber)

  datatype Pc =
    | Checking                                                       // about to look whether there is data
    | Taking                                                         // saw data, about to take it
    | Forwarding(identity: SampleIdentity, todo: set<ParticipantId>) // registries still to be considered
    | Locked(identity: SampleIdentity, todo: set<ParticipantId>, q: ParticipantId)
    | Written(identity: SampleIdentity, todo: set<ParticipantId>, q: ParticipantId, number: SequenceNumber)
    | Looking(number: SequenceNumber)                                // about to look the request up
    | Replying(number: SequenceNumber, entry: Entry)
    | Erasing(number: SequenceNumber)

  datatype Worker = Worker(reader: ReaderId, pc: Pc)

  datatype Holder = Nobody | HeldBy(w: nat)

  /**
   The proxy client of one participant: its registry, the mutex of the registry, and its request writer.
   `forwarded`, `added`, `evicted` and `replied` are history: no step reads them.
   */
  datatype Proxy = Proxy(
    open: bool,                             // there is a server to send requests to
    holder: Holder,
    registry: Registry,
    next: SequenceNumber,                   // the number the next request written will get
    forwarded: map<SequenceNumber, Entry>,  // whom each request written is to be answered to
    added: set<SequenceNumber>,             // requests whose entry reached the registry
    evicted: set<SequenceNumber>,           // entries dropped because the registry was full
    replied: set<SequenceNumber>            // requests whose reply was written
  )

  /** A reply written: to request `number` of the proxy client p, through `via` as `identity`. */
  datatype ReplyRecord = ReplyRecord(
    p: ParticipantId, number: SequenceNumber, via: ParticipantId, identity: SampleIdentity)

  /** `Announcing`: reader `r` has just been enabled, and its callback for what it holds is to come. */
  datatype Controller =
    | Idle
    | Enabling(toEnable: set<ReaderId>)
    | Announcing(r: ReaderId, toEnable: set<ReaderId>)
    | Draining
    | Disabling(toDisable: set<ReaderId>)

  /** A listener that found its reader enabled: about to look whether the bridge is, or past that. */
  datatype Callback = Called | Raising

  datatype State = State(
    enabled: bool,
    controller: Controller,
    flags: set<ReaderId>,                   // readers whose task flag is up
    queued: multiset<ReaderId>,             // transmit tasks waiting in the pool
    openReaders: set<ReaderId>,
    callbacks: map<ReaderId, Callback>,     // readers whose RTPS mutex a listener holds
    unread: map<ReaderId, seq<Sample>>,
    workers: map<nat, Worker>,
    proxies: map<ParticipantId, Proxy>,
    replies: seq<ReplyRecord>
  )

  datatype Config = Config(participants: set<ParticipantId>, repeaters: set<ParticipantId>)

  const NEW_PROXY := Proxy(false, Nobody, map[], 1, map[], {}, {}, {})

  function Readers(c: Config): set<ReaderId> {
    (set p | p in c.participants :: RequestReader(p)) + set p | p in c.participants :: ReplyReader(p)
  }

  function Initial(): State {
    State(false, Idle, {}, multiset{}, {}, map[], map[], map[], map[], [])
  }

  function ProxyOf(s: State, p: ParticipantId): Proxy {
    if p in s.proxies then s.proxies[p] else NEW_PROXY
  }

  function Unread(s: State, r: ReaderId): seq<Sample> {
    if r in s.unread then s.unread[r] else []
  }

  datatype Step =
    | Arrive(r: ReaderId, sample: Sample)
    | SeeBridge(r: ReaderId)
    | RaiseFlag(r: ReaderId)
    | OpenRegistry(q: ParticipantId)
    | StartWorker(w: nat, r: ReaderId)
    | Check(w: nat)
    | Take(w: nat)
    | SkipRegistry(w: nat, q: ParticipantId)
    | LockRegistry(w: nat, q: ParticipantId)
    | WriteRequest(w: nat, ok: bool)
    | AddEntry(w: nat)
    | RequestDone(w: nat)
    | LookUp(w: nat)
    | WriteReply(w: nat, ok: bool)
    | EraseEntry(w: nat)
    | StartEnable
    | EnableReader(r: ReaderId)
    | AnnounceReader
    | EnableDone
    | StartDisable
    | Drained
    | DisableReader(r: ReaderId)
    | DisableDone

  /** Not back through the participant the request came from, unless a repeater, nor where no server is. */
  predicate Skips(c: Config, s: State, received: ParticipantId, q: ParticipantId) {
    (received == q && q !in c.repeaters) || !ProxyOf(s, q).open
  }

  predicate Announces(s: State, r: ReaderId) {
    s.controller.Announcing? && s.controller.r == r
  }

  predicate CanStep(c: Config, s: State, step: Step) {
    match step
    case Arrive(r, sample) =>
      && r !in s.callbacks
      && (r.RequestReader? <==> sample.Request?)
      // nobody answers a request before it was written
      && (sample.Reply? && sample.mine ==> sample.number in ProxyOf(s, r.p).forwarded)
    case SeeBridge(r) => r in s.callbacks && s.callbacks[r].Called?
    case RaiseFlag(r) => r in s.callbacks && s.callbacks[r].Raising?
    case OpenRegistry(q) => q in c.participants
    case StartWorker(w, r) => w !in s.workers && r in s.queued
    case Check(w) => w in s.workers && s.workers[w].pc.Checking? && s.workers[w].reader !in s.callbacks
    case Take(w) =>
      // enable holds the mutex of the reader it announces; to read the history takes the RTPS mutex
      && w in s.workers && s.workers[w].pc.Taking? && !Announces(s, s.workers[w].reader)
      && (s.workers[w].reader in s.openReaders ==> s.workers[w].reader !in s.callbacks)
    case SkipRegistry(w, q) =>
      && w in s.workers && s.workers[w].pc.Forwarding?
      && q in s.workers[w].pc.todo && Skips(c, s, s.workers[w].reader.p, q)
    case LockRegistry(w, q) =>
      && w in s.workers && s.workers[w].pc.Forwarding? && q in s.workers[w].pc.todo
      && !Skips(c, s, s.workers[w].reader.p, q) && ProxyOf(s, q).holder.Nobody?
    case WriteRequest(w, _) => w in s.workers && s.workers[w].pc.Locked?
    case AddEntry(w) => w in s.workers && s.workers[w].pc.Written?
    case RequestDone(w) => w in s.workers && s.workers[w].pc.Forwarding? && s.workers[w].pc.todo == {}
    case LookUp(w) =>
      w in s.workers && s.workers[w].pc.Looking? && ProxyOf(s, s.workers[w].reader.p).holder.Nobody?
    case WriteReply(w, _) => w in s.workers && s.workers[w].pc.Replying?
    case EraseEntry(w) =>
      w in s.workers && s.workers[w].pc.Erasing? && ProxyOf(s, s.workers[w].reader.p).holder.Nobody?
    case StartEnable => s.controller.Idle?
    case EnableReader(r) => s.controller.Enabling? && r in s.controller.toEnable
    case AnnounceReader => s.controller.Announcing? && s.controller.r !in s.callbacks
    case EnableDone => s.controller.Enabling? && s.controller.toEnable == {}
    case StartDisable => s.controller.Idle?
    case Drained => s.controller.Draining? && s.workers == map[]
    case DisableReader(r) => s.controller.Disabling? && r in s.controller.toDisable
    case DisableDone => s.controller.Disabling? && s.controller.toDisable == {}
  }

  /** The rest of data_available_: queue the reader's task unless its flag is up. */
  function Raised(s: State, r: ReaderId): State {
    if r !in s.flags then s.(flags := s.flags + {r}, queued := s.queued + multiset{r}) else s
  }

  /** What a taken sample makes its worker do. */
  function AfterTake(c: Config, sample: Sample): Pc {
    match sample
    case Request(identity) => if identity == UNKNOWN_IDENTITY then Checking else Forwarding(identity, c.participants)
    case Reply(mine, number) => if mine then Looking(number) else Checking
  }

  predicate IsReaderStep(step: Step) {
    step.Arrive? || step.SeeBridge? || step.RaiseFlag? || step.OpenRegistry? || step.StartWorker?
  }

  predicate IsControllerStep(step: Step) {
    !IsReaderStep(step) && !IsWorkerStep(step)
  }

  /** What comes in from outside: data and its callbacks, a server, a thread of the pool. */
  function ReaderStep(c: Config, s: State, step: Step): State
    requires CanStep(c, s, step) && IsReaderStep(step)
  {
    match step
    case Arrive(r, sample) =>
      var arrived := s.(unread := s.unread[r := Unread(s, r) + [sample]]);
      if r in s.openReaders then arrived.(callbacks := s.callbacks[r := Called]) else arrived
    case SeeBridge(r) => s.(callbacks := if s.enabled then s.callbacks[r := Raising] else s.callbacks - {r})
    case RaiseFlag(r) => Raised(s.(callbacks := s.callbacks - {r}), r)
    case OpenRegistry(q) => s.(proxies := s.proxies[q := ProxyOf(s, q).(open := true)])
    case StartWorker(w, r) =>
      s.(queued := s.queued - multiset{r}, workers := s.workers[w := Worker(r, Checking)])
  }

  /** The steps of enable and disable. */
  function ControllerStep(c: Config, s: State, step: Step): State
    requires CanStep(c, s, step) && IsControllerStep(step)
  {
    match step
    case StartEnable => if s.enabled then s else s.(enabled := true, controller := Enabling(Readers(c)))
    case EnableReader(r) =>
      s.(openReaders := s.openReaders + {r}, controller := Announcing(r, s.controller.toEnable - {r}))
    case AnnounceReader =>
      var announced := s.(controller := Enabling(s.controller.toEnable));
      if s.enabled then Raised(announced, s.controller.r) else announced
    case EnableDone => s.(controller := Idle)
    case StartDisable => if s.enabled then s.(enabled := false, controller := Draining) else s
    case Drained => s.(controller := Disabling(Readers(c)))
    case DisableReader(r) =>
      s.(openReaders := s.openReaders - {r}, controller := Disabling(s.controller.toDisable - {r}))
    case DisableDone => s.(controller := Idle)
  }

  predicate IsWorkerStep(step: Step) {
    step.Check? || step.Take? || step.SkipRegistry? || step.LockRegistry? || step.WriteRequest? || step.AddEntry?
    || step.RequestDone? || step.LookUp? || step.WriteReply? || step.EraseEntry?
  }

  /** The check that ends the transmission: the bridge is disabled or there is nothing left to read. */
  predicate Ends(s: State, step: Step)
    requires step.Check? && step.w in s.workers
  {
    !s.enabled || Unread(s, s.workers[step.w].reader) == []
  }

  /** The take that gets a sample: the reader is enabled and not empty. */
  predicate Gets(s: State, step: Step)
    requires step.Take? && step.w in s.workers
  {
    var r := s.workers[step.w].reader;
    r in s.openReaders && Unread(s, r) != []
  }

  /** Where the worker goes on. */
  function PcAfter(c: Config, s: State, step: Step): Pc
    requires CanStep(c, s, step) && IsWorkerStep(step)
  {
    var r, pc := s.workers[step.w].reader, s.workers[step.w].pc;
    match step
    case Check(_) => Taking
    case Take(_) => if Gets(s, step) then AfterTake(c, Unread(s, r)[0]) else Checking
    case SkipRegistry(_, q) => Forwarding(pc.identity, pc.todo - {q})
    case LockRegistry(_, q) => Locked(pc.identity, pc.todo - {q}, q)
    case WriteRequest(_, ok) =>
      if ok then Written(pc.identity, pc.todo, pc.q, ProxyOf(s, pc.q).next) else Forwarding(pc.identity, pc.todo)
    case AddEntry(_) => Forwarding(pc.identity, pc.todo)
    case RequestDone(_) => Checking
    case LookUp(_) =>
      var entry := Looked(ProxyOf(s, r.p).registry, pc.number);
      if entry.participant == "" then Checking else Replying(pc.number, entry)
    case WriteReply(_, ok) => if ok then Erasing(pc.number) else Checking
    case EraseEntry(_) => Checking
  }

  /** The proxy a worker's step may change. */
  function Edited(c: Config, s: State, step: Step): ParticipantId
    requires CanStep(c, s, step) && IsWorkerStep(step)
  {
    if step.LockRegistry? then step.q
    else if step.WriteRequest? || step.AddEntry? then s.workers[step.w].pc.q
    else s.workers[step.w].reader.p
  }

  /** That proxy after the step. */
  function ProxyAfter(c: Config, s: State, step: Step): Proxy
    requires CanStep(c, s, step) && IsWorkerStep(step)
  {
    var r, pc, x := s.workers[step.w].reader, s.workers[step.w].pc, ProxyOf(s, Edited(c, s, step));
    match step
    case LockRegistry(w, _) => x.(holder := HeldBy(w))
    case WriteRequest(_, ok) =>
      if ok then x.(next := x.next + 1, forwarded := x.forwarded[x.next := Entry(r.p, pc.identity)])
      else x.(holder := Nobody)
    case AddEntry(_) =>
      var registry := Added(x.registry, pc.number, Entry(r.p, pc.identity));
      x.(holder := Nobody, registry := registry, added := x.added + {pc.number},
      evicted := x.evicted + (x.registry.Keys + {pc.number} - registry.Keys))
    case WriteReply(_, ok) => if ok then x.(replied := x.replied + {pc.number}) else x
    case EraseEntry(_) => x.(registry := x.registry - {pc.number})
    case _ => x
  }

  /** The replies written by the step. */
  function Answers(s: State, step: Step): seq<ReplyRecord>
    requires step.WriteReply? ==> step.w in s.workers && s.workers[step.w].pc.Replying?
  {
    if step.WriteReply? && step.ok then
      var pc := s.workers[step.w].pc;
      [ReplyRecord(s.workers[step.w].reader.p, pc.number, pc.entry.participant, pc.entry.identity)]
    else []
  }

  /** The steps of transmit_. */
  function WorkerStep(c: Config, s: State, step: Step): State
    requires CanStep(c, s, step) && IsWorkerStep(step)
  {
    var w := step.w;
    var r := s.workers[w].reader;
    if step.Check? && Ends(s, step) then s.(flags := s.flags - {r}, workers := s.workers - {w})
    else
      s.(workers := s.workers[w := Worker(r, PcAfter(c, s, step))],
      unread := if step.Take? && Gets(s, step) then s.unread[r := Unread(s, r)[1..]] else s.unread,
      proxies := s.proxies[Edited(c, s, step) := ProxyAfter(c, s, step)],
      replies := s.replies + Answers(s, step))
  }

  function Apply(c: Config, s: State, step: Step): State
    requires CanStep(c, s, step)
  {
    if IsWorkerStep(step) then WorkerStep(c, s, step)
    else if IsReaderStep(step) then ReaderStep(c, s, step)
    else ControllerStep(c, s, step)
  }

  predicate IsRun(c: Config, s: State, steps: seq<Step>)
    decreases |steps|
  {
    steps == [] || (CanStep(c, s, steps[0]) && IsRun(c, Apply(c, s, steps[0]), steps[1..]))
  }

  function After(c: Config, s: State, steps: seq<Step>): State
    requires IsRun(c, s, steps)
    decreases |steps|
  {
    if steps == [] then s else After(c, Apply(c, s, steps[0]), steps[1..])
  }
}
