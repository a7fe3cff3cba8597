/** What export and import do to the order in which an agent has its skills. */
module BundleOrder {
  import opened Prelude
  import opened SkillBindings
  import opened Bundle

  /** The repository answers with the skills of the agent ordered by name. */
  ghost predicate ListedByName(source: Source) {
    && SkillsMatch(source)
    && forall i, j :: 0 <= i < j < |source.skills| ==> source.skills[i].name <= source.skills[j].name
  }

  /** The original IDs of the skills that were created, in bundle order. */
  function Origins(skills: seq<BundleSkill>, fates: seq<Option<nat>>): seq<nat>
    requires |skills| == |fates|
  {
    if skills == [] then []
    else Origins(Front(skills), Front(fates)) + if Last(fates).Some? then [Last(skills).originalId] else []
  }

  function Selected(ids: seq<nat>, chosen: set<nat>): seq<nat> {
    if ids == [] then [] else Selected(Front(ids), chosen) + if Last(ids) in chosen then [Last(ids)] else []
  }

  function Elements(ids: seq<nat>): (elements: set<nat>)
    ensures forall id :: id in elements <==> id in ids
  {
    set id | id in ids
  }

  /** The skills that were created, in the order in which the agent had them. */
  function CreatedInOrder(skillIds: seq<nat>, skills: seq<BundleSkill>, fates: seq<Option<nat>>): seq<nat>
    requires |skills| == |fates|
  {
    Selected(skillIds, Elements(Origins(skills, fates)))
  }

  function NameIn(skills: seq<BundleSkill>, id: nat): nat {
    if skills == [] then 0 else if Last(skills).originalId == id then Last(skills).name else NameIn(Front(skills), id)
  }

  /** The names of the skills ascend along a list of IDs. */
  ghost predicate Ascends(ids: seq<nat>, skills: seq<BundleSkill>) {
    forall i, j :: 0 <= i < j < |ids| ==> NameIn(skills, ids[i]) <= NameIn(skills, ids[j])
  }

  ghost predicate DistinctNames(ids: seq<nat>, skills: seq<BundleSkill>) {
    forall i, j :: 0 <= i < j < |ids| ==> NameIn(skills, ids[i]) != NameIn(skills, ids[j])
  }

  ghost predicate DistinctOriginals(skills: seq<BundleSkill>) {
    forall i, j :: 0 <= i < j < |skills| ==> skills[i].originalId != skills[j].originalId
  }

  ghost predicate NamesAscend(skills: seq<BundleSkill>) {
    forall i, j :: 0 <= i < j < |skills| ==> skills[i].name <= skills[j].name
  }

  // ---------------------------------------------------------------- which skills were created

  /** Skill number i of the bundle was created, under this new ID. */
  ghost predicate CreatedAs(skills: seq<BundleSkill>, fates: seq<Option<nat>>, original: nat, id: nat)
    requires |skills| == |fates|
  {
    exists i :: 0 <= i < |skills| && skills[i].originalId == original && fates[i] == Some(id)
  }

  lemma CreatedSnoc(skills: seq<BundleSkill>, fates: seq<Option<nat>>, original: nat, id: nat)
    requires |skills| == |fates| && skills != []
    ensures CreatedAs(skills, fates, original, id) <==>
            CreatedAs(Front(skills), Front(fates), original, id)
            || (Last(skills).originalId == original && Last(fates) == Some(id))
  {
    var front, frontFates := Front(skills), Front(fates);
    if i :| 0 <= i < |front| && front[i].originalId == original && frontFates[i] == Some(id) {
      assert skills[i].originalId == original && fates[i] == Some(id);
    }
    if i :| 0 <= i < |skills| && skills[i].originalId == original && fates[i] == Some(id) {
      if i < |front| { assert front[i].originalId == original && frontFates[i] == Some(id); }
    }
    if Last(skills).originalId == original && Last(fates) == Some(id) {
      assert skills[|front|].originalId == original && fates[|front|] == Some(id);
    }
  }

  /** The new IDs stand for those originals, place by place. */
  lemma {:induction false} GivenStandForOrigins(skills: seq<BundleSkill>, fates: seq<Option<nat>>, k: nat)
    requires |skills| == |fates| && k < |Given(fates)|
    ensures |Given(fates)| == |Origins(skills, fates)|
    ensures CreatedAs(skills, fates, Origins(skills, fates)[k], Given(fates)[k])
  {
    SameLength(skills, fates);
    SameLength(Front(skills), Front(fates));
    CreatedSnoc(skills, fates, Origins(skills, fates)[k], Given(fates)[k]);
    if k < |Given(Front(fates))| { GivenStandForOrigins(Front(skills), Front(fates), k); }
  }

  lemma {:induction false} SameLength(skills: seq<BundleSkill>, fates: seq<Option<nat>>)
    requires |skills| == |fates|
    ensures |Given(fates)| == |Origins(skills, fates)|
  {
    if skills != [] { SameLength(Front(skills), Front(fates)); }
  }

  lemma {:induction false} OriginFound(skills: seq<BundleSkill>, fates: seq<Option<nat>>, id: nat) returns (i: nat)
    requires |skills| == |fates| && id in Origins(skills, fates)
    ensures i < |skills| && skills[i].originalId == id && fates[i].Some?
  {
    var front, frontFates := Front(skills), Front(fates);
    if id in Origins(front, frontFates) {
      i := OriginFound(front, frontFates, id);
    } else {
      i := |front|;
    }
  }

  // ---------------------------------------------------------------- both lists hold each created skill once

  lemma {:induction false} NameOfSkill(skills: seq<BundleSkill>, i: nat)
    requires i < |skills| && DistinctOriginals(skills)
    ensures NameIn(skills, skills[i].originalId) == skills[i].name
  {
    if i < |skills| - 1 { NameOfSkill(Front(skills), i); }
  }

  ghost predicate Named(skills: seq<BundleSkill>, all: seq<BundleSkill>) {
    forall i :: 0 <= i < |skills| ==> NameIn(all, skills[i].originalId) == skills[i].name
  }

  /** The created skills of a bundle are distinct and ordered by name. */
  lemma {:induction false} OriginsAscend(skills: seq<BundleSkill>, fates: seq<Option<nat>>, all: seq<BundleSkill>)
    requires |skills| == |fates| && DistinctOriginals(skills) && NamesAscend(skills) && Named(skills, all)
    ensures Distinct(Origins(skills, fates)) && Ascends(Origins(skills, fates), all)
  {
    if skills != [] {
      var front, frontFates := Front(skills), Front(fates);
      OriginsAscend(front, frontFates, all);
      var ids := Origins(front, frontFates);
      forall k | 0 <= k < |ids|
        ensures ids[k] != Last(skills).originalId && NameIn(all, ids[k]) <= NameIn(all, Last(skills).originalId)
      {
        var i := OriginFound(front, frontFates, ids[k]);
        assert skills[i] == front[i];
      }
      SnocAscends(ids, Last(skills).originalId, all);
    }
  }

  lemma SnocAscends(ids: seq<nat>, id: nat, all: seq<BundleSkill>)
    requires Distinct(ids) && Ascends(ids, all)
    requires forall k :: 0 <= k < |ids| ==> ids[k] != id && NameIn(all, ids[k]) <= NameIn(all, id)
    ensures Distinct(ids + [id]) && Ascends(ids + [id], all) && ids + [] == ids
  {
  }

  lemma {:induction false} SelectedMembers(ids: seq<nat>, chosen: set<nat>, id: nat)
    ensures id in Selected(ids, chosen) <==> id in ids && id in chosen
  {
    if ids != [] {
      SelectedMembers(Front(ids), chosen, id);
      assert ids == Front(ids) + [Last(ids)];
    }
  }

  lemma {:induction false} SelectedDistinct(ids: seq<nat>, chosen: set<nat>)
    requires Distinct(ids)
    ensures Distinct(Selected(ids, chosen))
  {
    if ids != [] {
      SelectedDistinct(Front(ids), chosen);
      var front := Selected(Front(ids), chosen);
      forall k | 0 <= k < |front| ensures front[k] != Last(ids) {
        SelectedMembers(Front(ids), chosen, front[k]);
      }
    }
  }

  lemma ExportedByName(source: Source)
    requires ListedByName(source)
    ensures DistinctOriginals(Exported(source).skills) && NamesAscend(Exported(source).skills)
    ensures forall i :: 0 <= i < |Exported(source).skills| ==> Exported(source).skills[i].originalId in source.skillIds
  {
    ExportedSkills(source);
  }

  lemma SameSkillsCreated(source: Source, skills: seq<BundleSkill>, fates: seq<Option<nat>>)
    requires ListedByName(source) && Distinct(source.skillIds) && skills == Exported(source).skills
    requires |fates| == |skills|
    ensures var listed, ordered := Origins(skills, fates), CreatedInOrder(source.skillIds, skills, fates);
            && Distinct(listed) && Distinct(ordered) && Ascends(listed, skills)
            && forall id :: id in listed <==> id in ordered
  {
    ExportedByName(source);
    forall i | 0 <= i < |skills| ensures NameIn(skills, skills[i].originalId) == skills[i].name {
      NameOfSkill(skills, i);
    }
    OriginsAscend(skills, fates, skills);
    var chosen := Elements(Origins(skills, fates));
    SelectedDistinct(source.skillIds, chosen);
    forall id ensures id in Origins(skills, fates) <==> id in Selected(source.skillIds, chosen) {
      SelectedMembers(source.skillIds, chosen, id);
      if id in Origins(skills, fates) { var i := OriginFound(skills, fates, id); }
    }
  }

  // ---------------------------------------------------------------- two lists that ascend

  lemma FrontMembers(s: seq<nat>)
    requires s != [] && Distinct(s)
    ensures Distinct(Front(s)) && forall id :: id in Front(s) <==> id in s && id != Last(s)
  {
    forall id | id in s && id != Last(s) ensures id in Front(s) {
      var i :| 0 <= i < |s| && s[i] == id;
      assert Front(s)[i] == id;
    }
  }

  lemma LastIsGreatest(s: seq<nat>, skills: seq<BundleSkill>, id: nat)
    requires s != [] && Ascends(s, skills) && id in s
    ensures NameIn(skills, id) <= NameIn(skills, Last(s))
    ensures DistinctNames(s, skills) && NameIn(skills, id) == NameIn(skills, Last(s)) ==> id == Last(s)
  {
    var i :| 0 <= i < |s| && s[i] == id;
    if i < |s| - 1 { assert NameIn(skills, s[i]) <= NameIn(skills, s[|s| - 1]); }
  }

  lemma BothEmpty(s: seq<nat>, t: seq<nat>)
    requires forall id :: id in s <==> id in t
    ensures s == [] <==> t == []
  {
    if s != [] { assert s[0] in t; }
    if t != [] { assert t[0] in s; }
  }

  /** Two lists of the same IDs that both ascend by name are equal, if no two names are. */
  lemma {:induction false} AscendingIsUnique(s: seq<nat>, t: seq<nat>, skills: seq<BundleSkill>)
    requires Distinct(s) && Distinct(t) && forall id :: id in s <==> id in t
    requires Ascends(s, skills) && Ascends(t, skills) && DistinctNames(s, skills)
    ensures s == t
  {
    BothEmpty(s, t);
    if s != [] {
      LastIsGreatest(s, skills, Last(t));
      LastIsGreatest(t, skills, Last(s));
      FrontMembers(s);
      FrontMembers(t);
      AscendingIsUnique(Front(s), Front(t), skills);
      assert s == Front(s) + [Last(s)] && t == Front(t) + [Last(t)];
    }
  }

  // ---------------------------------------------------------------- main results

  /**
   * Is the order of priority kept?  The imported agent lists its new skills in bundle order, which is by name.  If that
   * is the order in which the original agent had the created skills, their names ascend along it; and if no two of
   * them have the same name, this is exactly the condition.
   */
  lemma OrderIsKept(source: Source, skills: seq<BundleSkill>, fates: seq<Option<nat>>)
    requires ListedByName(source) && Distinct(source.skillIds) && skills == Exported(source).skills
    requires |fates| == |skills| && DistinctFates(fates)
    ensures Listing(Synced(Given(fates))) == Given(fates)
    ensures var listed, ordered := Origins(skills, fates), CreatedInOrder(source.skillIds, skills, fates);
            && (listed == ordered ==> Ascends(ordered, skills))
            && (DistinctNames(ordered, skills) ==> (listed == ordered <==> Ascends(ordered, skills)))
  {
    ImportListsInBundleOrder(fates);
    SameSkillsCreated(source, skills, fates);
    var listed, ordered := Origins(skills, fates), CreatedInOrder(source.skillIds, skills, fates);
    if DistinctNames(ordered, skills) && Ascends(ordered, skills) { AscendingIsUnique(ordered, listed, skills); }
  }

  const FIRST := Skill(1, 1, "a", "")
  const SECOND := Skill(2, 0, "b", "")

  /** An agent with two skills whose names run against their priority. */
  const REVERSED := Source("agent", [1, 2], [SECOND, FIRST], map[])

  lemma TwoOrigins(skills: seq<BundleSkill>, fates: seq<Option<nat>>)
    requires |skills| == |fates| == 2 && fates[0].Some? && fates[1].Some?
    ensures Origins(skills, fates) == [skills[0].originalId, skills[1].originalId]
    ensures Given(fates) == [fates[0].value, fates[1].value]
  {
    var one, oneFate := Front(skills), Front(fates);
    assert Front(one) == [] && Front(oneFate) == [];
    assert Origins(one, oneFate) == [] + [one[0].originalId];
    assert Given(oneFate) == [] + [oneFate[0].value];
  }

  lemma TwoSelected(a: nat, b: nat, chosen: set<nat>)
    requires a in chosen && b in chosen
    ensures Selected([a, b], chosen) == [a, b]
  {
    assert Front([a, b]) == [a] && Front([a]) == [];
    assert Selected([a], chosen) == [] + [a];
  }

  /** After export and import it has them the other way round. */
  lemma OrderCanBeLost()
    ensures ListedByName(REVERSED) && |Exported(REVERSED).skills| == 2
    ensures var skills, fates := Exported(REVERSED).skills, [Some(10), Some(11)];
            && Listing(Synced(Given(fates))) == [10, 11]
            && Origins(skills, fates) == [2, 1]
            && CreatedInOrder(REVERSED.skillIds, skills, fates) == [1, 2]
  {
    var fates: seq<Option<nat>> := [Some(10), Some(11)];
    assert REVERSED.skills[0].id == 2 && REVERSED.skills[1].id == 1;
    assert REVERSED.skillIds == [1, 2];
    var skills := BundleSkills([SECOND, FIRST]);
    TwoOrigins(skills, fates);
    ImportListsInBundleOrder(fates);
    TwoSelected(1, 2, Elements(Origins(skills, fates)));
  }
}
