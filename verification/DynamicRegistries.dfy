/** The dynamic registry (internal/registry/dynamic.go): a cache that follows
    watched key-value changes, laid over an optional static fallback.
 */
module DynamicRegistries {
  import opened Strings
  import opened Options
  import opened Registries

  // ------------------------------------------------------- watched changes

  /** One delivery of the watcher: a put whose value may fail to decode, a
      delete, a purge, or the marker that ends the initial keys. */
  datatype Event = Put(key: string, value: Option<Entry>) | Delete(key: string) | Purge(key: string) | InitDone

  ghost function Change(agents: map<string, Entry>, e: Event): map<string, Entry> {
    match e
    case Put(key, Some(entry)) => agents[key := entry]
    case Put(_, None) => agents
    case Delete(key) => agents - {key}
    case Purge(key) => agents - {key}
    case InitDone => agents
  }

  ghost function Replay(agents: map<string, Entry>, events: seq<Event>): map<string, Entry> {
    if events == [] then agents
    else Change(Replay(agents, events[..|events| - 1]), events[|events| - 1])
  }

  /** The event decides what the cache holds under key. */
  predicate Decides(e: Event, key: string) {
    match e
    case Put(k, value) => k == key && value.Some?
    case Delete(k) => k == key
    case Purge(k) => k == key
    case InitDone => false
  }

  ghost predicate LastDeciding(events: seq<Event>, key: string, i: nat) {
    i < |events| && Decides(events[i], key) && forall j :: i < j < |events| ==> !Decides(events[j], key)
  }

  /** After any events a key holds its last decodable put that no delete or
      purge follows; a key no event decides keeps what it had. */
  lemma {:induction false} LastWriteWins(agents: map<string, Entry>, events: seq<Event>, key: string)
    ensures forall i: nat :: LastDeciding(events, key, i) ==>
              (key in Replay(agents, events) <==> events[i].Put?)
              && (events[i].Put? ==> Replay(agents, events)[key] == events[i].value.value)
    ensures (forall i :: 0 <= i < |events| ==> !Decides(events[i], key)) ==>
              (key in Replay(agents, events) <==> key in agents)
              && (key in agents ==> Replay(agents, events)[key] == agents[key])
  {
    if events != [] {
      var n := |events| - 1;
      var init := events[..n];
      LastWriteWins(agents, init, key);
      if !Decides(events[n], key) {
        forall i: nat | LastDeciding(events, key, i)
          ensures LastDeciding(init, key, i)
        {
        }
      }
    }
  }

  /** What one delivery does to the cache: only a put that decodes writes, only a
      delete or a purge removes, and only its own key. */
  lemma EventEffect(agents: map<string, Entry>, events: seq<Event>, e: Event, key: string)
    ensures var before, after := Replay(agents, events), Replay(agents, events + [e]);
            && (e.Put? && e.value.Some? ==> after == before[e.key := e.value.value])
            && (e.Put? && e.value.None? ==> after == before)
            && (e.InitDone? ==> after == before)
            && ((e.Delete? || e.Purge?) && e.key == key ==> key !in after)
            && ((e.Delete? || e.Purge?) && e.key != key ==>
                  (key in after <==> key in before) && (key in before ==> after[key] == before[key]))
  {
    assert (events + [e])[..|events + [e]| - 1] == events;
  }

  // ------------------------------------------------------ the merged view

  ghost function KeysHolding(agents: map<string, Entry>, within: set<string>, e: Entry): set<string> {
    set k | k in agents && k in within && agents[k] == e
  }

  /** How often the merged view lists e: once for each key that caches it, and
      as often as the fallback has it unless a cached key shadows its name. */
  ghost function Copies(agents: map<string, Entry>, base: seq<Entry>, e: Entry): nat {
    |KeysHolding(agents, agents.Keys, e)| + if e.card.name in agents then 0 else multiset(base)[e]
  }

  ghost predicate InView(agents: map<string, Entry>, base: seq<Entry>, e: Entry) {
    Copies(agents, base, e) > 0
  }

  ghost predicate IsMerge(all: seq<Entry>, agents: map<string, Entry>, base: seq<Entry>) {
    && SortedByKey(NameOf, all)
    && forall e :: multiset(all)[e] == Copies(agents, base, e)
  }

  /** Dynamic entries first, then the fallback. */
  ghost function Lookup(agents: map<string, Entry>, base: seq<Entry>, name: string): Option<Entry> {
    if name in agents then Some(agents[name]) else FirstNamed(base, name)
  }

  ghost predicate Keyed(agents: map<string, Entry>) {
    forall k :: k in agents ==> agents[k].card.name == k
  }

  /** The view and the lookup tell the same story: an entry is listed exactly
      when looking up its name finds it. */
  ghost predicate Agree(all: seq<Entry>, agents: map<string, Entry>, base: seq<Entry>) {
    forall name, e :: Lookup(agents, base, name) == Some(e) <==> e in all && e.card.name == name
  }

  /** Agents register under their own name; then every key is always its entry's name. */
  lemma {:induction false} RegistrationsAreKeyed(agents: map<string, Entry>, events: seq<Event>)
    requires Keyed(agents)
    requires forall i :: 0 <= i < |events| && events[i].Put? && events[i].value.Some? ==>
                           events[i].key == events[i].value.value.card.name
    ensures Keyed(Replay(agents, events))
  {
    if events != [] {
      RegistrationsAreKeyed(agents, events[..|events| - 1]);
    }
  }

  lemma MergedIsInView(all: seq<Entry>, agents: map<string, Entry>, base: seq<Entry>, e: Entry)
    requires IsMerge(all, agents, base)
    ensures e in all <==> InView(agents, base, e)
  {
  }

  lemma CachedIsInView(agents: map<string, Entry>, base: seq<Entry>, k: string)
    requires k in agents
    ensures InView(agents, base, agents[k])
  {
    assert k in KeysHolding(agents, agents.Keys, agents[k]);
  }

  /** An entry is listed under one name only, and only once. */
  lemma OneCopy(agents: map<string, Entry>, base: seq<Entry>, e: Entry)
    requires Keyed(agents) && ValidEntries(base) && InView(agents, base, e)
    ensures Copies(agents, base, e) == 1
    ensures Lookup(agents, base, e.card.name) == Some(e)
  {
    var holding := KeysHolding(agents, agents.Keys, e);
    var name := e.card.name;
    assert holding <= {name};
    SubsetOfOne(holding, name);
    if name in agents {
      assert name in holding;
    } else {
      assert holding == {};
      assert multiset(base)[e] > 0 && e in base;
      DistinctCounts(base);
      FirstNamedIsFirst(base, name);
    }
  }

  lemma SubsetOfOne(s: set<string>, x: string)
    requires s <= {x}
    ensures s == if x in s then {x} else {}
  {
  }

  /** When every key is its entry's name, the merged view over a validated
      fallback is strictly sorted by name and agrees with the lookup. */
  lemma ViewAgrees(all: seq<Entry>, agents: map<string, Entry>, base: seq<Entry>)
    requires Keyed(agents) && ValidEntries(base) && IsMerge(all, agents, base)
    ensures forall i, j :: 0 <= i < j < |all| ==> Less(all[i].card.name, all[j].card.name)
    ensures Agree(all, agents, base)
  {
    forall e | e in all
      ensures multiset(all)[e] == 1 && Lookup(agents, base, e.card.name) == Some(e)
    {
      MergedIsInView(all, agents, base, e);
      OneCopy(agents, base, e);
    }
    DistinctCounts(all);
    forall i, j | 0 <= i < j < |all|
      ensures Less(all[i].card.name, all[j].card.name)
    {
      LessTotal(all[i].card.name, all[j].card.name);
      assert AtMost(NameOf(all[i]), NameOf(all[j]));
      assert all[i] in all && all[j] in all;
    }
    forall name, e | Lookup(agents, base, name) == Some(e)
      ensures e in all && e.card.name == name
    {
      if name in agents {
        CachedIsInView(agents, base, name);
      } else {
        FirstNamedIsFirst(base, name);
        assert multiset(base)[e] > 0;
      }
      MergedIsInView(all, agents, base, e);
    }
  }

  /** The two agree exactly when every key is its entry's name. */
  lemma ViewAgreesIff(all: seq<Entry>, agents: map<string, Entry>, base: seq<Entry>)
    requires ValidEntries(base) && IsMerge(all, agents, base)
    ensures Agree(all, agents, base) <==> Keyed(agents)
  {
    if Keyed(agents) {
      ViewAgrees(all, agents, base);
    } else {
      var k :| k in agents && agents[k].card.name != k;
      assert Lookup(agents, base, k) == Some(agents[k]);
    }
  }

  ghost predicate NamesDistinct(s: seq<Entry>) {
    forall i, j :: 0 <= i < j < |s| ==> s[i].card.name != s[j].card.name
  }

  /** No two keys cache entries of one name, and no cached entry has the name of
      a fallback entry that its own name does not shadow. */
  ghost predicate NoNameTwice(agents: map<string, Entry>, base: seq<Entry>) {
    && (forall k, l :: k in agents && l in agents && k != l ==> agents[k].card.name != agents[l].card.name)
    && (forall k, i :: k in agents && 0 <= i < |base| && base[i].card.name !in agents ==>
                         agents[k].card.name != base[i].card.name)
  }

  lemma NamesDistinctMeans(s: seq<Entry>)
    ensures NamesDistinct(s)
            <==> (forall e :: e in s ==> multiset(s)[e] == 1)
                 && (forall e, e' :: e in s && e' in s && e.card.name == e'.card.name ==> e == e')
  {
    DistinctCounts(s);
  }

  /** The merged view is free of repeated names exactly under NoNameTwice. */
  lemma DeduplicatedIff(all: seq<Entry>, agents: map<string, Entry>, base: seq<Entry>)
    requires ValidEntries(base) && IsMerge(all, agents, base)
    ensures NamesDistinct(all) <==> NoNameTwice(agents, base)
  {
    NamesDistinctMeans(all);
    if NoNameTwice(agents, base) {
      forall e | e in all
        ensures multiset(all)[e] == 1
      {
        MergedIsInView(all, agents, base, e);
        ListedOnce(agents, base, e);
      }
      forall e, e' | e in all && e' in all && e.card.name == e'.card.name
        ensures e == e'
      {
        MergedIsInView(all, agents, base, e);
        MergedIsInView(all, agents, base, e');
        OneByName(agents, base, e, e');
      }
    } else if NamesDistinct(all) {
      DistinctHasNoNameTwice(all, agents, base);
    }
  }

  /** Where a listed entry comes from. */
  lemma Origin(agents: map<string, Entry>, base: seq<Entry>, e: Entry) returns (k: Option<string>)
    requires InView(agents, base, e)
    ensures k.Some? ==> k.value in agents && agents[k.value] == e
    ensures k.None? ==> e in base && e.card.name !in agents && KeysHolding(agents, agents.Keys, e) == {}
  {
    if k' :| k' in KeysHolding(agents, agents.Keys, e) {
      k := Some(k');
    } else {
      k := None;
      assert KeysHolding(agents, agents.Keys, e) == {};
      assert multiset(base)[e] > 0;
    }
  }

  lemma ListedOnce(agents: map<string, Entry>, base: seq<Entry>, e: Entry)
    requires NoNameTwice(agents, base) && ValidEntries(base) && InView(agents, base, e)
    ensures Copies(agents, base, e) == 1
  {
    var k := Origin(agents, base, e);
    if k.Some? {
      assert KeysHolding(agents, agents.Keys, e) == {k.value};
      assert e.card.name !in agents ==> e !in base;
    } else {
      DistinctCounts(base);
    }
  }

  lemma OneByName(agents: map<string, Entry>, base: seq<Entry>, e: Entry, e': Entry)
    requires NoNameTwice(agents, base) && ValidEntries(base) && InView(agents, base, e) && InView(agents, base, e')
    requires e.card.name == e'.card.name
    ensures e == e'
  {
    var k := Origin(agents, base, e);
    var k' := Origin(agents, base, e');
  }

  lemma DistinctHasNoNameTwice(all: seq<Entry>, agents: map<string, Entry>, base: seq<Entry>)
    requires IsMerge(all, agents, base) && NamesDistinct(all)
    ensures NoNameTwice(agents, base)
  {
    NamesDistinctMeans(all);
    forall k, l | k in agents && l in agents && k != l
      ensures agents[k].card.name != agents[l].card.name
    {
      CachedIsInView(agents, base, k);
      CachedIsInView(agents, base, l);
      MergedIsInView(all, agents, base, agents[k]);
      MergedIsInView(all, agents, base, agents[l]);
      TwoKeysTwoCopies(agents, base, k, l);
    }
    forall k, i | k in agents && 0 <= i < |base| && base[i].card.name !in agents
      ensures agents[k].card.name != base[i].card.name
    {
      CachedIsInView(agents, base, k);
      MergedIsInView(all, agents, base, agents[k]);
      FallbackAddsCopy(agents, base, k, i);
      MergedIsInView(all, agents, base, base[i]);
    }
  }

  lemma TwoKeysTwoCopies(agents: map<string, Entry>, base: seq<Entry>, k: string, l: string)
    requires k in agents && l in agents && k != l
    ensures agents[k] == agents[l] ==> Copies(agents, base, agents[k]) >= 2
  {
    if agents[k] == agents[l] {
      SubsetCount({k, l}, KeysHolding(agents, agents.Keys, agents[k]));
    }
  }

  lemma FallbackAddsCopy(agents: map<string, Entry>, base: seq<Entry>, k: string, i: nat)
    requires k in agents && i < |base| && base[i].card.name !in agents
    ensures InView(agents, base, base[i])
    ensures agents[k] == base[i] ==> Copies(agents, base, base[i]) >= 2
  {
    assert multiset(base)[base[i]] > 0;
    if agents[k] == base[i] {
      SubsetCount({k}, KeysHolding(agents, agents.Keys, base[i]));
    }
  }

  lemma SubsetCount(a: set<string>, b: set<string>)
    requires a <= b
    ensures |a| <= |b|
  {
    assert b == a + (b - a);
  }

  /** A cached entry under a foreign key makes the view list one name twice. */
  lemma ForeignKeyDuplicates(key: string, e: Entry)
    requires key != e.card.name && Complete(e)
    ensures ValidEntries([e])
    ensures Copies(map[key := e], [e], e) == 2
  {
    assert KeysHolding(map[key := e], {key}, e) == {key};
    assert map[key := e].Keys == {key};
  }

  lemma IsLeast(s: seq<Entry>, e: Entry)
    requires SortedByKey(NameOf, s) && e in s
    ensures AtMost(s[0].card.name, e.card.name)
  {
    var i :| 0 <= i < |s| && s[i] == e;
    assert i > 0 ==> AtMost(NameOf(s[0]), NameOf(s[i]));
    LessTotal(e.card.name, e.card.name);
  }

  lemma FirstBestIsLeast(all: seq<Entry>, req: Request, i: nat, e: Entry)
    requires SortedByKey(NameOf, all) && FirstBest(all, req, i) && e in all
    ensures ScoreOf(e, req) < ScoreOf(all[i], req)
            || (ScoreOf(e, req) == ScoreOf(all[i], req) && AtMost(all[i].card.name, e.card.name))
  {
    var j :| 0 <= j < |all| && all[j] == e;
    LessTotal(e.card.name, e.card.name);
    if i < j {
      assert AtMost(NameOf(all[i]), NameOf(all[j]));
    }
  }

  lemma OneMoreKey(agents: map<string, Entry>, seen: set<string>, name: string)
    requires name in agents && name !in seen
    ensures forall e :: |KeysHolding(agents, seen + {name}, e)|
                        == |KeysHolding(agents, seen, e)| + if agents[name] == e then 1 else 0
  {
    forall e
      ensures |KeysHolding(agents, seen + {name}, e)|
              == |KeysHolding(agents, seen, e)| + if agents[name] == e then 1 else 0
    {
      assert KeysHolding(agents, seen + {name}, e)
          == KeysHolding(agents, seen, e) + if agents[name] == e then {name} else {};
    }
  }

  class DynamicRegistry {
    var agents: map<string, Entry>
    const fallback: Option<seq<Entry>>

    constructor (fallback: Option<seq<Entry>>)
      ensures this.fallback == fallback && agents == map[]
    {
      this.fallback := fallback;
      agents := map[];
    }

    ghost function Static(): seq<Entry> {
      if fallback.Some? then fallback.value else []
    }

    /** Applies the watcher's deliveries until there are no more. */
    method RunWatcher(events: seq<Event>)
      modifies this`agents
      ensures agents == Replay(old(agents), events)
    {
      for i := 0 to |events|
        invariant agents == Replay(old(agents), events[..i])
      {
        assert events[..i + 1][..i] == events[..i];
        match events[i] {
          case Put(key, value) =>
            if value.Some? {
              agents := agents[key := value.value];
            }
          case Delete(key) => agents := agents - {key};
          case Purge(key) => agents := agents - {key};
          case InitDone =>
        }
      }
      assert events[..|events|] == events;
    }

    method FindByName(name: string) returns (r: Option<Entry>)
      ensures r == Lookup(agents, Static(), name)
    {
      if name in agents {
        return Some(agents[name]);
      }
      if fallback.Some? {
        r := Registries.FindByName(fallback.value, name);
        return;
      }
      r := None;
    }

    /** Lists the cache in any order. */
    method Cached() returns (result: seq<Entry>, seen: set<string>)
      ensures seen == agents.Keys
      ensures forall e :: multiset(result)[e] == |KeysHolding(agents, agents.Keys, e)|
    {
      result, seen := [], {};
      var keys := agents.Keys;
      while keys != {}
        invariant keys <= agents.Keys && seen == agents.Keys - keys
        invariant forall e :: multiset(result)[e] == |KeysHolding(agents, seen, e)|
        decreases |keys|
      {
        var name :| name in keys;
        OneMoreKey(agents, seen, name);
        result := result + [agents[name]];
        seen := seen + {name};
        keys := keys - {name};
      }
    }

    method All() returns (all: seq<Entry>)
      ensures IsMerge(all, agents, Static())
    {
      var result, seen := Cached();
      if fallback.Some? {
        var base := fallback.value;
        for i := 0 to |base|
          invariant forall e :: multiset(result)[e] == |KeysHolding(agents, agents.Keys, e)|
                                                       + if e.card.name in agents then 0 else multiset(base[..i])[e]
        {
          assert base[..i + 1] == base[..i] + [base[i]];
          if base[i].card.name !in seen {
            result := result + [base[i]];
          }
        }
        assert base[..|base|] == base;
      }
      all := SortByKey(NameOf, result);
    }

    /** The merged entries with the skill, sorted by name. */
    method FindBySkill(id: string) returns (r: seq<Entry>)
      ensures SortedByKey(NameOf, r)
      ensures forall e :: multiset(r)[e] == if HasSkill(e, id) then Copies(agents, Static(), e) else 0
    {
      var all := All();
      r := Registries.FindBySkill(all, id);
      WithSkillSelects(all, id);
      WithSkillKeepsOrder(all, id);
    }

    /** The queue of the least-named agent with the skill, if any has it. */
    method Route(id: string) returns (subject: Option<string>)
      ensures subject.None? <==> forall e :: InView(agents, Static(), e) ==> !HasSkill(e, id)
      ensures subject.Some? ==>
                exists e :: InView(agents, Static(), e) && HasSkill(e, id) && e.queueSubject == subject.value
                            && forall f :: InView(agents, Static(), f) && HasSkill(f, id) ==> AtMost(e.card.name, f.card.name)
    {
      var matches := FindBySkill(id);
      if |matches| == 0 {
        assert multiset(matches) == multiset{};
        return None;
      }
      subject := Some(matches[0].queueSubject);
      ghost var e := matches[0];
      assert multiset(matches)[e] > 0;
      forall f | InView(agents, Static(), f) && HasSkill(f, id)
        ensures AtMost(e.card.name, f.card.name)
      {
        assert multiset(matches)[f] > 0;
        IsLeast(matches, f);
      }
    }

    /** The least-named highest scorer; none exactly when every score is zero. */
    method RouteByScore(req: Request) returns (best: Option<Entry>)
      ensures best.None? <==> forall e :: InView(agents, Static(), e) ==> ScoreOf(e, req) == 0
      ensures best.Some? ==> InView(agents, Static(), best.value) && ScoreOf(best.value, req) > 0
      ensures best.Some? ==> forall e :: InView(agents, Static(), e) ==>
                ScoreOf(e, req) < ScoreOf(best.value, req)
                || (ScoreOf(e, req) == ScoreOf(best.value, req) && AtMost(best.value.card.name, e.card.name))
    {
      var all := All();
      best := Registries.RouteByScore(all, req);
      forall e
        ensures e in all <==> InView(agents, Static(), e)
      {
        MergedIsInView(all, agents, Static(), e);
      }
      if best.Some? {
        ghost var i: nat :| FirstBest(all, req, i) && all[i] == best.value;
        forall e | e in all
          ensures ScoreOf(e, req) < ScoreOf(all[i], req)
                  || (ScoreOf(e, req) == ScoreOf(all[i], req) && AtMost(all[i].card.name, e.card.name))
        {
          FirstBestIsLeast(all, req, i, e);
        }
      }
    }
  }
}
