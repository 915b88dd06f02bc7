/**
 The allow and block lists of topic filters, and the reduction that drops filters contained in others.

 What a filter is stays abstract: `contains` says that one filter covers another, `matches` that a
 filter accepts a topic.  A std::set is visited in an order fixed by its keys; here any order will do.
 */
module AllowedTopics {

  /** The virtual methods of the filters in use. */
  datatype Filters<!F, !T> = Filters(contains: (F, F) -> bool, matches: (F, T) -> bool)

  ghost predicate Transitive<F(!new), T>(fs: Filters<F, T>) {
    forall a, b, c :: fs.contains(a, b) && fs.contains(b, c) ==> fs.contains(a, c)
  }

  /** What a filter contains accepts no topic that the filter does not accept. */
  ghost predicate SoundFor<F(!new), T(!new)>(fs: Filters<F, T>) {
    forall a, b, t :: fs.contains(a, b) && fs.matches(b, t) ==> fs.matches(a, t)
  }

  ghost predicate Antichain<F(!new), T>(fs: Filters<F, T>, s: set<F>) {
    forall a, b :: a in s && b in s && a != b ==> !fs.contains(a, b)
  }

  ghost predicate CoveredBy<F, T>(fs: Filters<F, T>, f: F, s: set<F>) {
    exists k :: k in s && (k == f || fs.contains(k, f))
  }

  /** s is what is left of list when every filter covered by another one has been dropped. */
  ghost predicate IsReduction<F(!new), T>(fs: Filters<F, T>, list: set<F>, s: set<F>) {
    s <= list && Antichain(fs, s) && forall f :: f in list ==> CoveredBy(fs, f, s)
  }

  /** The stored filters that the new one contains, up to the first stored one that contains it. */
  method CompareWithStored<F(==,!new), T>(fs: Filters<F, T>, newTopic: F, stored: set<F>)
    returns (addIt: bool, repeated: set<F>)
    requires Transitive(fs) && Antichain(fs, stored)
    ensures repeated <= stored
    ensures addIt <==> forall k :: k in stored ==> !fs.contains(k, newTopic)
    ensures addIt ==> repeated == set k | k in stored && fs.contains(newTopic, k)
    ensures !addIt ==> forall k :: k in repeated ==>
                         fs.contains(newTopic, k)
                         && exists c :: c in stored && c !in repeated && fs.contains(c, newTopic)
  {
    addIt, repeated := true, {};
    var rest := stored;
    while rest != {}
      invariant rest <= stored && repeated <= stored
      invariant forall k :: k in stored - rest ==> !fs.contains(k, newTopic)
      invariant repeated == set k | k in stored - rest && fs.contains(newTopic, k)
      decreases rest
    {
      var topicStored :| topicStored in rest;
      if fs.contains(topicStored, newTopic) {
        addIt := false;
        break;
      } else if fs.contains(newTopic, topicStored) {
        repeated := repeated + {topicStored};
      }
      rest := rest - {topicStored};
    }
  }

  /**
   In a list without repetition the early stop never leaves anything to remove: a stored filter that
   contains the new one would contain whatever the new one contains.
   */
  lemma NothingRepeatedAtBreak<F(!new), T>(fs: Filters<F, T>, newTopic: F, stored: set<F>, repeated: set<F>)
    requires Transitive(fs) && Antichain(fs, stored) && repeated <= stored
    requires forall k :: k in repeated ==>
                fs.contains(newTopic, k)
                && exists c :: c in stored && c !in repeated && fs.contains(c, newTopic)
    ensures repeated == {}
  {
  }

  method GetTopicListWithoutRepetition<F(==,!new), T>(fs: Filters<F, T>, list: set<F>) returns (kept: set<F>)
    requires Transitive(fs)
    ensures IsReduction(fs, list, kept)
    ensures kept == {} <==> list == {}
  {
    kept := {};
    var rest := list;
    while rest != {}
      invariant rest <= list
      invariant IsReduction(fs, list - rest, kept)
      decreases rest
    {
      var newTopic :| newTopic in rest;
      var addIt, repeated := CompareWithStored(fs, newTopic, kept);
      ghost var before := kept;
      kept := kept - repeated;
      if addIt {
        kept := kept + {newTopic};
        ReplaceKeepsReduction(fs, list - rest, before, newTopic, repeated);
      } else {
        NothingRepeatedAtBreak(fs, newTopic, before, repeated);
        assert kept == before;
        CoveredKeepsReduction(fs, list - rest, kept, newTopic);
      }
      assert list - (rest - {newTopic}) == (list - rest) + {newTopic};
      rest := rest - {newTopic};
    }
    assert list - rest == list;
    if list != {} {
      var f :| f in list;
      assert CoveredBy(fs, f, kept);
    }
  }

  lemma CoveredKeepsReduction<F(!new), T>(fs: Filters<F, T>, seen: set<F>, stored: set<F>, f: F)
    requires IsReduction(fs, seen, stored) && exists k :: k in stored && fs.contains(k, f)
    ensures IsReduction(fs, seen + {f}, stored)
  {
    var c :| c in stored && fs.contains(c, f);
    assert CoveredBy(fs, f, stored);
  }

  lemma ReplaceKeepsReduction<F(!new), T>(fs: Filters<F, T>, seen: set<F>, stored: set<F>, f: F, repeated: set<F>)
    requires Transitive(fs) && IsReduction(fs, seen, stored)
    requires forall k :: k in stored ==> !fs.contains(k, f)
    requires repeated == set k | k in stored && fs.contains(f, k)
    ensures IsReduction(fs, seen + {f}, stored - repeated + {f})
  {
    var after := stored - repeated + {f};
    forall g | g in seen + {f} ensures CoveredBy(fs, g, after) {
      if g == f {
        assert f in after;
      } else {
        assert CoveredBy(fs, g, stored);
        var k :| k in stored && (k == g || fs.contains(k, g));
        if k in repeated {
          assert f in after && fs.contains(f, g);
        } else {
          assert k in after;
        }
      }
    }
  }

  /** A topic passes if some allow filter accepts it, or there is none, and no block filter does. */
  ghost predicate Allows<F, T>(fs: Filters<F, T>, allow: set<F>, block: set<F>, topic: T) {
    (allow == {} || exists f :: f in allow && fs.matches(f, topic))
    && forall f :: f in block ==> !fs.matches(f, topic)
  }

  lemma ReductionAcceptsTheSame<F(!new), T(!new)>(fs: Filters<F, T>, list: set<F>, kept: set<F>, topic: T)
    requires SoundFor(fs) && IsReduction(fs, list, kept)
    ensures (exists f :: f in list && fs.matches(f, topic)) <==> (exists f :: f in kept && fs.matches(f, topic))
  {
    if f :| f in list && fs.matches(f, topic) {
      assert CoveredBy(fs, f, kept);
      var k :| k in kept && (k == f || fs.contains(k, f));
      assert fs.matches(k, topic);
    }
  }

  /** The reduced lists give every topic the verdict the configured ones give. */
  lemma ReductionKeepsVerdict<F(!new), T(!new)>(fs: Filters<F, T>, allow: set<F>, block: set<F>,
                                               keptAllow: set<F>, keptBlock: set<F>, topic: T)
    requires SoundFor(fs) && IsReduction(fs, allow, keptAllow) && IsReduction(fs, block, keptBlock)
    ensures Allows(fs, keptAllow, keptBlock, topic) == Allows(fs, allow, block, topic)
  {
    ReductionAcceptsTheSame(fs, allow, keptAllow, topic);
    ReductionAcceptsTheSame(fs, block, keptBlock, topic);
    if keptAllow == {} && allow != {} {
      var f :| f in allow;
      assert CoveredBy(fs, f, keptAllow);
    }
  }

  /** As long as no filter claims to contain another, as WildcardDdsFilterTopic does, all are kept. */
  lemma WithoutContainmentAllAreKept<F(!new), T>(fs: Filters<F, T>, list: set<F>, kept: set<F>)
    requires IsReduction(fs, list, kept) && forall a, b :: !fs.contains(a, b)
    ensures kept == list
  {
    forall f | f in list ensures f in kept {
      assert CoveredBy(fs, f, kept);
    }
  }

  class AllowedTopicList<F(==,!new), T(!new)> {
    const filters: Filters<F, T>
    var allowlist: set<F>
    var blocklist: set<F>

    constructor (filters: Filters<F, T>, allow: set<F>, block: set<F>)
      requires Transitive(filters) && SoundFor(filters)
      ensures this.filters == filters
      ensures IsReduction(filters, allow, allowlist) && IsReduction(filters, block, blocklist)
      ensures forall t :: Allows(filters, allowlist, blocklist, t) == Allows(filters, allow, block, t)
    {
      this.filters := filters;
      allowlist, blocklist := {}, {};
      new;
      allowlist := GetTopicListWithoutRepetition(filters, allow);
      blocklist := GetTopicListWithoutRepetition(filters, block);
      forall t ensures Allows(filters, allowlist, blocklist, t) == Allows(filters, allow, block, t) {
        ReductionKeepsVerdict(filters, allow, block, allowlist, blocklist, t);
      }
    }

    method Clear()
      modifies this
      ensures allowlist == {} && blocklist == {} && forall t :: Allows(filters, allowlist, blocklist, t)
    {
      blocklist := {};
      allowlist := {};
    }

    method IsTopicAllowed(topic: T) returns (allowed: bool)
      ensures allowed <==>
                && (allowlist == {} || exists f :: f in allowlist && filters.matches(f, topic))
                && !exists f :: f in blocklist && filters.matches(f, topic)
      ensures allowed == Allows(filters, allowlist, blocklist, topic)
    {
      var accepted := allowlist == {};
      var rest := allowlist;
      while rest != {} && !accepted
        invariant rest <= allowlist
        invariant accepted == (allowlist == {} || exists f :: f in allowlist - rest && filters.matches(f, topic))
        decreases rest
      {
        var filter :| filter in rest;
        rest := rest - {filter};
        if filters.matches(filter, topic) {
          assert filter in allowlist - rest;
          accepted := true;
        }
      }
      if !accepted {
        return false;
      }
      rest := blocklist;
      while rest != {}
        invariant rest <= blocklist
        invariant forall f :: f in blocklist - rest ==> !filters.matches(f, topic)
        decreases rest
      {
        var filter :| filter in rest;
        if filters.matches(filter, topic) {
          return false;
        }
        rest := rest - {filter};
      }
      return true;
    }

    /** A service is allowed when both its request and its reply topic are. */
    method IsServiceAllowed(request: T, reply: T) returns (allowed: bool)
      ensures allowed
         <==> Allows(filters, allowlist, blocklist, request) && Allows(filters, allowlist, blocklist, reply)
    {
      allowed := IsTopicAllowed(request);
      if allowed {
        allowed := IsTopicAllowed(reply);
      }
    }
  }
}
