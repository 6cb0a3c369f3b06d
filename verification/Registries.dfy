/** The static agent registry: validation, lookups, scoring and routing
    (internal/registry/registry.go, internal/registry/scorer.go). Scores are
    counted in tenths.
 */
module Registries {
  import opened Strings
  import opened Options

  datatype Skill = Skill(id: string, name: string, tags: seq<string>)

  datatype Card = Card(name: string, description: string, version: string, skills: seq<Skill>)

  datatype Entry = Entry(card: Card, queueSubject: string, runtime: string, acpPort: int)

  datatype Request = Request(skillID: string, tags: seq<string>, preferredRuntime: string)

  function NameOf(e: Entry): string {
    e.card.name
  }

  // ------------------------------------------------------------- validation

  ghost predicate Complete(e: Entry) {
    && e.card.name != "" && e.card.description != "" && e.card.version != ""
    && e.queueSubject != "" && e.runtime != "" && e.acpPort > 0 && |e.card.skills| > 0
    && forall j :: 0 <= j < |e.card.skills| ==> e.card.skills[j].id != "" && e.card.skills[j].name != ""
  }

  ghost predicate ValidEntries(entries: seq<Entry>) {
    && (forall i :: 0 <= i < |entries| ==> Complete(entries[i]))
    && (forall i, j :: 0 <= i < j < |entries| ==> entries[i].card.name != entries[j].card.name)
    && (forall i, j :: 0 <= i < j < |entries| ==> entries[i].queueSubject != entries[j].queueSubject)
  }

  datatype Fault =
    | NoName | NoDescription | NoVersion | NoQueueSubject | NoRuntime | BadPort | NoSkills
    | NoSkillID(skill: nat) | NoSkillName(skill: nat)
    | DuplicateName | DuplicateSubject

  datatype Refusal = Refusal(agent: nat, fault: Fault)

  /** What a refusal says about the entry it names. */
  ghost predicate IsFaultOf(entries: seq<Entry>, r: Refusal) {
    r.agent < |entries|
    && var e := entries[r.agent];
       match r.fault
       case NoName => e.card.name == ""
       case NoDescription => e.card.description == ""
       case NoVersion => e.card.version == ""
       case NoQueueSubject => e.queueSubject == ""
       case NoRuntime => e.runtime == ""
       case BadPort => e.acpPort <= 0
       case NoSkills => e.card.skills == []
       case NoSkillID(j) => j < |e.card.skills| && e.card.skills[j].id == ""
       case NoSkillName(j) => j < |e.card.skills| && e.card.skills[j].name == ""
       case DuplicateName => exists i :: 0 <= i < r.agent && entries[i].card.name == e.card.name
       case DuplicateSubject => exists i :: 0 <= i < r.agent && entries[i].queueSubject == e.queueSubject
  }

  /** The fields of one entry, in the order they are checked. */
  method CheckEntry(e: Entry) returns (fault: Option<Fault>)
    ensures fault.None? <==>
              && e.card.name != "" && e.card.description != "" && e.card.version != ""
              && e.queueSubject != "" && e.runtime != "" && e.acpPort > 0 && e.card.skills != []
              && forall j :: 0 <= j < |e.card.skills| ==> e.card.skills[j].id != "" && e.card.skills[j].name != ""
    ensures fault.Some? ==> IsFaultOf([e], Refusal(0, fault.value))
  {
    if e.card.name == "" {
      return Some(NoName);
    }
    if e.card.description == "" {
      return Some(NoDescription);
    }
    if e.card.version == "" {
      return Some(NoVersion);
    }
    if e.queueSubject == "" {
      return Some(NoQueueSubject);
    }
    if e.runtime == "" {
      return Some(NoRuntime);
    }
    if e.acpPort <= 0 {
      return Some(BadPort);
    }
    if |e.card.skills| == 0 {
      return Some(NoSkills);
    }
    for j := 0 to |e.card.skills|
      invariant forall k :: 0 <= k < j ==> e.card.skills[k].id != "" && e.card.skills[k].name != ""
    {
      if e.card.skills[j].id == "" {
        return Some(NoSkillID(j));
      }
      if e.card.skills[j].name == "" {
        return Some(NoSkillName(j));
      }
    }
    fault := None;
  }

  method Validate(entries: seq<Entry>) returns (err: Option<Refusal>)
    ensures err.None? <==> ValidEntries(entries)
    ensures err.Some? ==> IsFaultOf(entries, err.value)
  {
    var names: set<string>, subjects: set<string> := {}, {};
    for i := 0 to |entries|
      invariant ValidEntries(entries[..i])
      invariant names == set k | 0 <= k < i :: entries[k].card.name
      invariant subjects == set k | 0 <= k < i :: entries[k].queueSubject
    {
      var e := entries[i];
      var fault := CheckEntry(e);
      if fault.Some? {
        assert fault.value !in {DuplicateName, DuplicateSubject};
        return Some(Refusal(i, fault.value));
      }
      if e.card.name in names {
        return Some(Refusal(i, DuplicateName));
      }
      names := names + {e.card.name};
      if e.queueSubject in subjects {
        return Some(Refusal(i, DuplicateSubject));
      }
      subjects := subjects + {e.queueSubject};
      assert entries[..i + 1] == entries[..i] + [e];
    }
    assert entries[..|entries|] == entries;
    err := None;
  }

  // ---------------------------------------------------------------- scoring

  ghost predicate HasSkill(e: Entry, id: string) {
    exists i :: 0 <= i < |e.card.skills| && e.card.skills[i].id == id
  }

  ghost function TagsOf(skills: seq<Skill>): set<string> {
    set i, j | 0 <= i < |skills| && 0 <= j < |skills[i].tags| :: skills[i].tags[j]
  }

  /** The requested tags the agent has, one count for each request. */
  function CountTags(tags: seq<string>, agentTags: set<string>): nat {
    if tags == [] then 0 else
      CountTags(tags[..|tags| - 1], agentTags) + if tags[|tags| - 1] in agentTags then 1 else 0
  }

  ghost function ScoreOf(e: Entry, req: Request): nat {
    (if req.skillID != "" && HasSkill(e, req.skillID) then 10 else 0)
    + 5 * CountTags(req.tags, TagsOf(e.card.skills))
    + (if req.preferredRuntime != "" && e.runtime == req.preferredRuntime then 1 else 0)
  }

  method CollectTags(skills: seq<Skill>) returns (tags: set<string>)
    ensures tags == TagsOf(skills)
  {
    tags := {};
    for i := 0 to |skills|
      invariant tags == TagsOf(skills[..i])
    {
      ghost var before := tags;
      for j := 0 to |skills[i].tags|
        invariant tags == before + set k | 0 <= k < j :: skills[i].tags[k]
      {
        tags := tags + {skills[i].tags[j]};
      }
      assert skills[..i + 1] == skills[..i] + [skills[i]];
      forall t
        ensures t in tags <==> t in TagsOf(skills[..i + 1])
      {
      }
    }
    assert skills[..|skills|] == skills;
  }

  method Score(e: Entry, req: Request) returns (score: nat)
    ensures score == ScoreOf(e, req)
  {
    score := 0;
    var found := false;
    for i := 0 to |e.card.skills|
      invariant !found && score == 0
      invariant req.skillID != "" ==> forall k :: 0 <= k < i ==> e.card.skills[k].id != req.skillID
    {
      if req.skillID != "" && e.card.skills[i].id == req.skillID {
        score := score + 10;
        found := true;
        break;
      }
    }
    if |req.tags| > 0 {
      var agentTags := CollectTags(e.card.skills);
      ghost var base := score;
      for i := 0 to |req.tags|
        invariant score == base + 5 * CountTags(req.tags[..i], agentTags)
      {
        assert req.tags[..i + 1][..i] == req.tags[..i];
        if req.tags[i] in agentTags {
          score := score + 5;
        }
      }
      assert req.tags[..|req.tags|] == req.tags;
    }
    if req.preferredRuntime != "" && e.runtime == req.preferredRuntime {
      score := score + 1;
    }
  }

  ghost predicate RepeatsNone(tags: seq<string>, agentTags: set<string>) {
    forall i, j :: 0 <= i < j < |tags| && tags[i] == tags[j] ==> tags[i] !in agentTags
  }

  lemma RepeatsNoneStep(tags: seq<string>, agentTags: set<string>)
    requires tags != []
    ensures var n := |tags| - 1;
            RepeatsNone(tags, agentTags)
            <==> RepeatsNone(tags[..n], agentTags) && !(tags[n] in agentTags && tags[n] in tags[..n])
  {
    var n := |tags| - 1;
    if tags[n] in agentTags && tags[n] in tags[..n] {
      var i :| 0 <= i < n && tags[..n][i] == tags[n];
      assert tags[i] == tags[n];
    } else if RepeatsNone(tags[..n], agentTags) {
      forall i, j | 0 <= i < j < |tags| && tags[i] == tags[j]
        ensures tags[i] !in agentTags
      {
        assert tags[..n][i] == tags[i];
        assert j < n ==> tags[..n][j] == tags[j];
      }
    } else {
      var i, j :| 0 <= i < j < n && tags[..n][i] == tags[..n][j] && tags[..n][i] in agentTags;
      assert tags[i] == tags[j];
    }
  }

  /** The code counts matching tags once each exactly when the request repeats none of them. */
  lemma {:induction false} CountsUniqueTagsIff(tags: seq<string>, agentTags: set<string>)
    ensures CountTags(tags, agentTags) >= |Elems(tags) * agentTags|
    ensures CountTags(tags, agentTags) == |Elems(tags) * agentTags| <==> RepeatsNone(tags, agentTags)
  {
    if tags != [] {
      var n := |tags| - 1;
      var init, t := tags[..n], tags[n];
      CountsUniqueTagsIff(init, agentTags);
      RepeatsNoneStep(tags, agentTags);
      assert tags == init + [t];
      ElemsStep(init, t, agentTags);
    }
  }

  lemma ElemsStep(init: seq<string>, t: string, agentTags: set<string>)
    ensures |Elems(init + [t]) * agentTags|
            == |Elems(init) * agentTags| + if t in agentTags && t !in init then 1 else 0
  {
    var was := Elems(init) * agentTags;
    assert Elems(init + [t]) * agentTags == was + if t in agentTags then {t} else {};
    assert t in agentTags && t in init ==> was + {t} == was;
  }

  /** The score as documented: a tag counts once however often it is requested. */
  ghost function DocumentedScore(e: Entry, req: Request): nat {
    (if req.skillID != "" && HasSkill(e, req.skillID) then 10 else 0)
    + 5 * |Elems(req.tags) * TagsOf(e.card.skills)|
    + (if req.preferredRuntime != "" && e.runtime == req.preferredRuntime then 1 else 0)
  }

  lemma ScoreIsAsDocumentedIff(e: Entry, req: Request)
    ensures ScoreOf(e, req) >= DocumentedScore(e, req)
    ensures ScoreOf(e, req) == DocumentedScore(e, req)
            <==> RepeatsNone(req.tags, TagsOf(e.card.skills))
  {
    CountsUniqueTagsIff(req.tags, TagsOf(e.card.skills));
  }

  /** Asked for one tag twice, an agent that has it scores for both. */
  lemma RepeatedTagCountsTwice(e: Entry, tag: string)
    requires tag in TagsOf(e.card.skills)
    ensures var req := Request("", [tag, tag], "");
            ScoreOf(e, req) == 10 && DocumentedScore(e, req) == 5
  {
    var tags, has := [tag, tag], TagsOf(e.card.skills);
    assert tags[..1] == [tag] && tags[..1][..0] == [];
    assert CountTags(tags[..1], has) == 1;
    assert Elems(tags) * has == {tag};
  }

  // ---------------------------------------------------------------- routing

  /** e is the first entry of the list with the highest score, and it is positive. */
  ghost predicate FirstBest(all: seq<Entry>, req: Request, i: nat) {
    && i < |all| && ScoreOf(all[i], req) > 0
    && (forall j :: 0 <= j < |all| ==> ScoreOf(all[j], req) <= ScoreOf(all[i], req))
    && (forall j :: 0 <= j < i ==> ScoreOf(all[j], req) < ScoreOf(all[i], req))
  }

  method RouteByScore(all: seq<Entry>, req: Request) returns (best: Option<Entry>)
    ensures best.None? <==> forall i :: 0 <= i < |all| ==> ScoreOf(all[i], req) == 0
    ensures best.Some? ==> exists i: nat :: FirstBest(all, req, i) && all[i] == best.value
  {
    best := None;
    var bestScore := 0;
    ghost var at := 0;
    for i := 0 to |all|
      invariant best.None? ==> bestScore == 0
      invariant best.Some? ==> at < i && best.value == all[at] && bestScore == ScoreOf(all[at], req) > 0
      invariant forall j :: 0 <= j < i ==> ScoreOf(all[j], req) <= bestScore
      invariant best.Some? ==> forall j :: 0 <= j < at ==> ScoreOf(all[j], req) < bestScore
    {
      var s := Score(all[i], req);
      if s > bestScore {
        bestScore := s;
        best := Some(all[i]);
        at := i;
      }
    }
    assert best.Some? ==> FirstBest(all, req, at);
  }

  // ---------------------------------------------------------- name lookup

  ghost function FirstNamed(entries: seq<Entry>, name: string): Option<Entry> {
    if entries == [] then None
    else if entries[0].card.name == name then Some(entries[0])
    else FirstNamed(entries[1..], name)
  }

  method FindByName(entries: seq<Entry>, name: string) returns (r: Option<Entry>)
    ensures r == FirstNamed(entries, name)
  {
    for i := 0 to |entries|
      invariant FirstNamed(entries, name) == FirstNamed(entries[i..], name)
    {
      if entries[i].card.name == name {
        return Some(entries[i]);
      }
    }
    r := None;
  }

  lemma {:induction false} FirstNamedIsFirst(entries: seq<Entry>, name: string)
    ensures FirstNamed(entries, name).None? <==> forall i :: 0 <= i < |entries| ==> entries[i].card.name != name
    ensures FirstNamed(entries, name).Some? ==>
              exists i :: 0 <= i < |entries| && entries[i] == FirstNamed(entries, name).value
                          && entries[i].card.name == name
                          && forall j :: 0 <= j < i ==> entries[j].card.name != name
  {
    if entries != [] && entries[0].card.name != name {
      var rest := entries[1..];
      FirstNamedIsFirst(rest, name);
      assert forall i :: 0 < i < |entries| ==> entries[i] == rest[i - 1];
      if FirstNamed(rest, name).Some? {
        var i :| 0 <= i < |rest| && rest[i] == FirstNamed(rest, name).value
                 && rest[i].card.name == name
                 && forall j :: 0 <= j < i ==> rest[j].card.name != name;
        assert entries[i + 1] == rest[i];
      } else {
        assert forall i :: 0 <= i < |rest| ==> rest[i] == entries[i + 1];
      }
    }
  }

  // ---------------------------------------------------------- skill lookup

  ghost function WithSkill(entries: seq<Entry>, id: string): seq<Entry> {
    if entries == [] then []
    else
      var last := entries[|entries| - 1];
      WithSkill(entries[..|entries| - 1], id) + if HasSkill(last, id) then [last] else []
  }

  /** found are the entries that declare the skill, each once and in list order;
      idx says where. */
  ghost predicate ListsSkill(entries: seq<Entry>, id: string, found: seq<Entry>, idx: seq<nat>) {
    && |idx| == |found| && Ascending(idx)
    && (forall i: nat :: i in idx <==> i < |entries| && HasSkill(entries[i], id))
    && (forall n :: 0 <= n < |idx| ==> idx[n] < |entries| && found[n] == entries[idx[n]])
  }

  lemma {:induction false} WithSkillIsListed(entries: seq<Entry>, id: string) returns (idx: seq<nat>)
    ensures ListsSkill(entries, id, WithSkill(entries, id), idx)
  {
    idx := [];
    if entries != [] {
      var n := |entries| - 1;
      idx := WithSkillIsListed(entries[..n], id);
      ListsSkillGrows(entries, id, WithSkill(entries[..n], id), idx);
      if HasSkill(entries[n], id) {
        idx := idx + [n];
      } else {
        assert WithSkill(entries, id) == WithSkill(entries[..n], id) + [];
      }
    }
  }

  lemma ListsSkillGrows(entries: seq<Entry>, id: string, found: seq<Entry>, idx: seq<nat>)
    requires entries != [] && ListsSkill(entries[..|entries| - 1], id, found, idx)
    ensures var n := |entries| - 1;
            if HasSkill(entries[n], id) then ListsSkill(entries, id, found + [entries[n]], idx + [n])
            else ListsSkill(entries, id, found, idx)
  {
    var n := |entries| - 1;
    assert forall i :: 0 <= i < n ==> entries[..n][i] == entries[i];
    assert forall i :: i in idx ==> i < n;
  }

  method FindBySkill(entries: seq<Entry>, id: string) returns (r: seq<Entry>)
    ensures exists idx :: ListsSkill(entries, id, r, idx)
    ensures r == WithSkill(entries, id)
  {
    ghost var idx := WithSkillIsListed(entries, id);
    r := [];
    for i := 0 to |entries|
      invariant r == WithSkill(entries[..i], id)
    {
      assert entries[..i + 1][..i] == entries[..i];
      var found := DeclaresSkill(entries[i], id);
      if found {
        r := r + [entries[i]];
      }
    }
    assert entries[..|entries|] == entries;
  }

  method DeclaresSkill(e: Entry, id: string) returns (found: bool)
    ensures found <==> HasSkill(e, id)
  {
    found := false;
    for i := 0 to |e.card.skills|
      invariant !found && forall k :: 0 <= k < i ==> e.card.skills[k].id != id
    {
      if e.card.skills[i].id == id {
        found := true;
        break;
      }
    }
  }

  /** The matches are the entries with the skill, as often as listed. */
  lemma {:induction false} WithSkillSelects(entries: seq<Entry>, id: string)
    ensures forall e :: multiset(WithSkill(entries, id))[e] == if HasSkill(e, id) then multiset(entries)[e] else 0
  {
    if entries != [] {
      var n := |entries| - 1;
      assert entries == entries[..n] + [entries[n]];
      WithSkillSelects(entries[..n], id);
    }
  }

  lemma {:induction false} WithSkillKeepsOrder(entries: seq<Entry>, id: string)
    requires SortedByKey(NameOf, entries)
    ensures SortedByKey(NameOf, WithSkill(entries, id))
    ensures forall e :: e in WithSkill(entries, id) ==> e in entries
  {
    if entries != [] {
      var n := |entries| - 1;
      var init := entries[..n];
      WithSkillKeepsOrder(init, id);
      forall e | e in init
        ensures AtMost(NameOf(e), NameOf(entries[n]))
      {
        var i :| 0 <= i < n && entries[i] == e;
      }
    }
  }
}
