/** The bounded registry that remembers, for each forwarded request, whom to answer. */
module ServiceRegistries {

  import opened DdsPipeTypes
  type SequenceNumber = nat

  /** Which writer sent a sample, and as which of its samples. */
  datatype SampleIdentity = SampleIdentity(writer: nat, sequence: SequenceNumber)

  /** The participant that received the request, and the identity its reply must carry. */
  datatype Entry = Entry(participant: ParticipantId, identity: SampleIdentity)

  type Registry = map<SequenceNumber, Entry>

  const MAX_ENTRIES: nat := 5000

  const UNKNOWN_IDENTITY := SampleIdentity(0, 0)

  /** What a lookup answers when there is no entry: the participant is the empty string. */
  const NO_ENTRY := Entry("", UNKNOWN_IDENTITY)

  lemma {:induction false} Least(s: set<SequenceNumber>) returns (m: SequenceNumber)
    requires s != {}
    ensures m in s && forall n :: n in s ==> m <= n
    decreases |s|
  {
    var x :| x in s;
    var rest := s - {x};
    if rest == {} {
      m := x;
      assert s == {x};
    } else {
      var least := Least(rest);
      m := if x <= least then x else least;
      forall n | n in s ensures m <= n {
        assert n == x || n in rest;
      }
    }
  }

  lemma LeastExists(s: set<SequenceNumber>)
    requires s != {}
    ensures exists m :: m in s && forall n :: n in s ==> m <= n
  {
    var m := Least(s);
  }

  /** `begin()` of a map ordered by key. */
  function Oldest(registry: Registry): (m: SequenceNumber)
    requires registry != map[]
    ensures m in registry && forall n :: n in registry ==> m <= n
  {
    assert exists n :: n in registry.Keys;
    LeastExists(registry.Keys);
    var m :| m in registry && forall n :: n in registry ==> m <= n;
    m
  }

  function Added(registry: Registry, idx: SequenceNumber, entry: Entry): Registry {
    if idx in registry then registry
    else
      var grown := registry[idx := entry];
      if |grown| == MAX_ENTRIES then grown - {Oldest(grown)} else grown
  }

  function Looked(registry: Registry, idx: SequenceNumber): Entry {
    if idx in registry then registry[idx] else NO_ENTRY
  }

  class ServiceRegistry {
    var enabled: bool
    var registry: Registry

    constructor ()
      ensures !enabled && registry == map[]
    {
      enabled, registry := false, map[];
    }

    method Enable()
      modifies this`enabled
      ensures enabled
    {
      enabled := true;
    }

    method Disable()
      modifies this`enabled
      ensures !enabled
    {
      enabled := false;
    }

    method Add(idx: SequenceNumber, newEntry: Entry)
      modifies this`registry
      ensures registry == Added(old(registry), idx, newEntry)
    {
      if idx in registry {
        return;
      }
      registry := registry[idx := newEntry];
      if |registry| == MAX_ENTRIES {
        registry := registry - {Oldest(registry)};
      }
    }

    method Get(idx: SequenceNumber) returns (entry: Entry)
      ensures entry == Looked(registry, idx)
      ensures if idx in registry then entry == registry[idx] else entry.participant == ""
    {
      if idx in registry {
        entry := registry[idx];
      } else {
        entry := NO_ENTRY;
      }
    }

    method Erase(idx: SequenceNumber)
      modifies this`registry
      ensures registry == old(registry) - {idx}
    {
      if idx in registry {
        registry := registry - {idx};
      }
    }
  }

  // ----- Any history of additions and erasures

  datatype Op = Add(idx: SequenceNumber, entry: Entry) | Erase(idx: SequenceNumber)

  function Applied(registry: Registry, op: Op): Registry {
    match op
    case Add(idx, entry) => Added(registry, idx, entry)
    case Erase(idx) => registry - {idx}
  }

  function After(ops: seq<Op>): Registry {
    if ops == [] then map[] else Applied(After(ops[..|ops| - 1]), ops[|ops| - 1])
  }

  lemma AddedSize(registry: Registry, idx: SequenceNumber, entry: Entry)
    requires |registry| < MAX_ENTRIES
    ensures |Added(registry, idx, entry)| < MAX_ENTRIES
  {
    var grown := registry[idx := entry];
    if idx !in registry && |grown| == MAX_ENTRIES {
      var rest := grown - {Oldest(grown)};
      assert rest.Keys == grown.Keys - {Oldest(grown)};
    }
  }

  lemma AddedContents(registry: Registry, idx: SequenceNumber, entry: Entry)
    requires idx !in registry
    ensures forall n :: n in Added(registry, idx, entry) ==>
              if n == idx then Added(registry, idx, entry)[n] == entry
              else n in registry && Added(registry, idx, entry)[n] == registry[n]
  {
  }

  lemma RemovedSize(registry: Registry, idx: SequenceNumber)
    ensures |registry - {idx}| <= |registry|
  {
    var rest := registry - {idx};
    SubsetSize(rest.Keys, registry.Keys);
    assert |rest| == |rest.Keys| && |registry| == |registry.Keys|;
  }

  /** The registry never holds more than 4999 entries. */
  lemma {:induction false} NeverFull(ops: seq<Op>)
    ensures |After(ops)| < MAX_ENTRIES
    decreases |ops|
  {
    if ops != [] {
      var before, op := After(ops[..|ops| - 1]), ops[|ops| - 1];
      NeverFull(ops[..|ops| - 1]);
      match op
      case Add(idx, entry) => AddedSize(before, idx, entry);
      case Erase(idx) => RemovedSize(before, idx);
    }
  }

  lemma {:induction false} SubsetSize(a: set<SequenceNumber>, b: set<SequenceNumber>)
    requires a <= b
    ensures |a| <= |b|
    decreases |a|
  {
    if a != {} {
      var x :| x in a;
      SubsetSize(a - {x}, b - {x});
    }
  }

  /**
   A new entry can be looked up right after it was added unless the registry was full and no number in
   it was smaller: then the new entry is the one evicted.
   */
  lemma NewEntryIsFound(registry: Registry, idx: SequenceNumber, entry: Entry)
    requires |registry| < MAX_ENTRIES && idx !in registry
    ensures idx in Added(registry, idx, entry)
            <==> |registry| + 1 < MAX_ENTRIES || exists n :: n in registry && n < idx
    ensures idx in Added(registry, idx, entry) ==> Looked(Added(registry, idx, entry), idx) == entry
  {
    var grown := registry[idx := entry];
    assert |grown| == |registry| + 1;
    if |grown| == MAX_ENTRIES {
      var oldest := Oldest(grown);
      if oldest != idx {
        assert oldest in registry && oldest < idx;
      } else {
        forall n | n in registry ensures idx <= n {
          assert n in grown;
        }
      }
    }
  }

  /** With strictly increasing numbers the entry just added is always found. */
  lemma IncreasingEntriesAreFound(registry: Registry, idx: SequenceNumber, entry: Entry)
    requires |registry| < MAX_ENTRIES && forall n :: n in registry ==> n < idx
    ensures Looked(Added(registry, idx, entry), idx) == entry
  {
    NewEntryIsFound(registry, idx, entry);
    if |registry| + 1 == MAX_ENTRIES {
      assert registry.Keys != {};
      var n :| n in registry.Keys;
    }
  }

  /** The registry is at capacity and everything in it is newer than n. */
  predicate CrowdsOut(registry: Registry, n: SequenceNumber) {
    |registry| == MAX_ENTRIES - 1 && forall k :: k in registry ==> n < k
  }

  /** An addition drops an entry, old or new, only behind 4999 newer ones; it changes no other. */
  lemma AdditionEvictsOnlyTheOldest(registry: Registry, idx: SequenceNumber, entry: Entry, n: SequenceNumber)
    requires |registry| < MAX_ENTRIES && (n in registry || n == idx)
    ensures n !in Added(registry, idx, entry) ==> CrowdsOut(Added(registry, idx, entry), n)
    ensures n in registry && n in Added(registry, idx, entry) ==> Added(registry, idx, entry)[n] == registry[n]
  {
    var grown := registry[idx := entry];
    if idx !in registry && |grown| == MAX_ENTRIES {
      var rest := grown - {Oldest(grown)};
      assert rest.Keys == grown.Keys - {Oldest(grown)};
    }
  }

  /**
   Over any history: an entry added at step i and not erased since is still there, or at some later
   moment 4999 newer entries were outstanding at once.
   */
  lemma {:induction false} MissingOnlyIfCrowdedOut(ops: seq<Op>, i: nat) returns (j: nat)
    requires i < |ops| && ops[i].Add?
    requires forall k :: i < k < |ops| ==> ops[k] != Erase(ops[i].idx)
    ensures ops[i].idx !in After(ops) ==> i < j <= |ops| && CrowdsOut(After(ops[..j]), ops[i].idx)
    decreases |ops|
  {
    hide Added, CrowdsOut;
    j := |ops|;
    var n, last := ops[i].idx, |ops| - 1;
    assert ops[..|ops|] == ops;
    var before := After(ops[..last]);
    NeverFull(ops[..last]);
    if i == last {
      AdditionEvictsOnlyTheOldest(before, n, ops[i].entry, n);
    } else {
      var earlier := MissingOnlyIfCrowdedOut(ops[..last], i);
      if n !in before {
        j := earlier;
        assert ops[..last][..j] == ops[..j];
      } else if ops[last].Add? {
        AdditionEvictsOnlyTheOldest(before, ops[last].idx, ops[last].entry, n);
      }
    }
  }

  /** With a number used once, what is found under it is what was added under it. */
  lemma {:induction false} FoundIsWhatWasAdded(ops: seq<Op>, n: SequenceNumber)
    requires n in After(ops)
    ensures Add(n, After(ops)[n]) in ops
    decreases |ops|
  {
    if ops != [] {
      var before, op := After(ops[..|ops| - 1]), ops[|ops| - 1];
      if n in before && (op.Erase? || op.idx != n || op.idx in before) {
        FoundIsWhatWasAdded(ops[..|ops| - 1], n);
        NeverFull(ops[..|ops| - 1]);
        if op.Add? {
          AdditionEvictsOnlyTheOldest(before, op.idx, op.entry, n);
        }
      } else {
        assert op == Add(n, After(ops)[n]);
      }
    }
  }
}
