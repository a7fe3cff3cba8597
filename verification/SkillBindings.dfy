/** The agent_skill join table: replacing an agent's skills in one transaction, and listing them in priority order. */
module SkillBindings {
  import opened Prelude

  /** A row of one agent; rows are kept in the order they were created. */
  datatype Binding = Binding(skill: nat, priority: nat)

  // ---------------------------------------------------------------- the listing

  /** The rows of one priority, oldest first. */
  function AtPriority(rows: seq<Binding>, p: nat): seq<Binding> {
    if rows == [] then []
    else AtPriority(Front(rows), p) + (if Last(rows).priority == p then [Last(rows)] else [])
  }

  /** The rows with a priority below n: ORDER BY priority, created_at. */
  function Sorted(rows: seq<Binding>, n: nat): seq<Binding> {
    if n == 0 then [] else Sorted(rows, n - 1) + AtPriority(rows, n - 1)
  }

  function Bound(rows: seq<Binding>): (n: nat)
    ensures Below(rows, n)
  {
    if rows == [] then 0
    else
      var rest := Bound(Front(rows));
      if Last(rows).priority >= rest then Last(rows).priority + 1 else rest
  }

  predicate Below(rows: seq<Binding>, bound: nat) {
    forall i :: 0 <= i < |rows| ==> rows[i].priority < bound
  }

  function Skills(rows: seq<Binding>): (ids: seq<nat>)
    ensures |ids| == |rows|
  {
    seq(|rows|, i requires 0 <= i < |rows| => rows[i].skill)
  }

  function Listing(rows: seq<Binding>): seq<nat> {
    Skills(Sorted(rows, Bound(rows)))
  }

  // ---------------------------------------------------------------- the sync

  function IndexOf(rows: seq<Binding>, skill: nat): (k: nat)
    ensures k <= |rows| && (k < |rows| ==> rows[k].skill == skill)
    ensures k == |rows| ==> forall i :: 0 <= i < |rows| ==> rows[i].skill != skill
  {
    if rows == [] || rows[0].skill == skill then 0 else 1 + IndexOf(rows[1..], skill)
  }

  /** INSERT ... ON CONFLICT DO UPDATE SET priority. */
  function Upsert(rows: seq<Binding>, skill: nat, priority: nat): seq<Binding> {
    var k := IndexOf(rows, skill);
    if k < |rows| then rows[k := Binding(skill, priority)] else rows + [Binding(skill, priority)]
  }

  /** The rows after a delete and one upsert for each ID, its index as priority. */
  function Synced(ids: seq<nat>): seq<Binding> {
    if ids == [] then [] else Upsert(Synced(Front(ids)), Last(ids), |ids| - 1)
  }

  /** The IDs without repetitions; of a repeated one the last place counts. */
  function LastPlaces(ids: seq<nat>): seq<nat> {
    if ids == [] then []
    else (if ids[0] in ids[1..] then [] else [ids[0]]) + LastPlaces(ids[1..])
  }

  // ---------------------------------------------------------------- proofs

  ghost predicate OneRowPerSkill(rows: seq<Binding>) {
    forall i, j :: 0 <= i < j < |rows| ==> rows[i].skill != rows[j].skill
  }

  ghost predicate InOrder(rows: seq<Binding>) {
    forall i, j :: 0 <= i < j < |rows| ==> rows[i].priority <= rows[j].priority
  }

  lemma {:induction false} PriorityMembers(rows: seq<Binding>, p: nat, x: Binding)
    ensures x in AtPriority(rows, p) <==> x in rows && x.priority == p
  {
    if rows != [] {
      var front, last := Front(rows), Last(rows);
      PriorityMembers(front, p, x);
      ConcatMembers(AtPriority(front, p), if last.priority == p then [last] else [], x);
      ConcatMembers(front, [last], x);
      assert rows == front + [last];
    }
  }

  lemma ConcatInOrder(low: seq<Binding>, high: seq<Binding>, p: nat)
    requires InOrder(low) && forall i :: 0 <= i < |low| ==> low[i].priority < p
    requires forall i :: 0 <= i < |high| ==> high[i].priority == p
    ensures InOrder(low + high)
  {
  }

  lemma ConcatMembers(low: seq<Binding>, high: seq<Binding>, x: Binding)
    ensures x in low + high <==> x in low || x in high
  {
  }

  lemma {:induction false} SortedMembers(rows: seq<Binding>, n: nat, x: Binding)
    ensures x in Sorted(rows, n) <==> x in rows && x.priority < n
  {
    if n > 0 {
      var low, high := Sorted(rows, n - 1), AtPriority(rows, n - 1);
      SortedMembers(rows, n - 1, x);
      PriorityMembers(rows, n - 1, x);
      ConcatMembers(low, high, x);
      assert Sorted(rows, n) == low + high;
    }
  }

  lemma PrioritiesBelow(rows: seq<Binding>, n: nat)
    ensures Below(Sorted(rows, n), n)
    ensures forall i :: 0 <= i < |AtPriority(rows, n)| ==> AtPriority(rows, n)[i].priority == n
  {
    var low, high := Sorted(rows, n), AtPriority(rows, n);
    forall i | 0 <= i < |low| ensures low[i].priority < n { SortedMembers(rows, n, low[i]); }
    forall i | 0 <= i < |high| ensures high[i].priority == n { PriorityMembers(rows, n, high[i]); }
  }

  lemma {:induction false} SortedAscends(rows: seq<Binding>, n: nat)
    ensures InOrder(Sorted(rows, n))
  {
    if n > 0 {
      SortedAscends(rows, n - 1);
      PrioritiesBelow(rows, n - 1);
      ConcatInOrder(Sorted(rows, n - 1), AtPriority(rows, n - 1), n - 1);
    }
  }

  /** The listing holds exactly the rows, in the order of priority. */
  lemma SortedIsInOrder(rows: seq<Binding>)
    ensures InOrder(Sorted(rows, Bound(rows)))
    ensures forall x :: x in Sorted(rows, Bound(rows)) <==> x in rows
  {
    SortedAscends(rows, Bound(rows));
    forall x ensures x in Sorted(rows, Bound(rows)) <==> x in rows { SortedMembers(rows, Bound(rows), x); }
  }

  function Without(rows: seq<Binding>, skill: nat): seq<Binding> {
    if rows == [] then []
    else Without(Front(rows), skill) + (if Last(rows).skill == skill then [] else [Last(rows)])
  }

  lemma {:induction false} WithoutConcat(s: seq<Binding>, t: seq<Binding>, skill: nat)
    ensures Without(s + t, skill) == Without(s, skill) + Without(t, skill)
  {
    if t == [] {
      assert s + t == s;
    } else {
      WithoutConcat(s, Front(t), skill);
      assert Front(s + t) == s + Front(t);
    }
  }

  lemma {:induction false} WithoutAbsent(rows: seq<Binding>, skill: nat)
    requires forall i :: 0 <= i < |rows| ==> rows[i].skill != skill
    ensures Without(rows, skill) == rows
  {
    if rows != [] {
      var front, last := Front(rows), Last(rows);
      assert front + [last] == rows && last == rows[|rows| - 1];
      WithoutAbsent(front, skill);
    }
  }

  lemma AbsentAtPriority(rows: seq<Binding>, p: nat, skill: nat)
    requires forall i :: 0 <= i < |rows| ==> rows[i].skill != skill
    ensures Without(AtPriority(rows, p), skill) == AtPriority(rows, p)
  {
    var at := AtPriority(rows, p);
    forall i | 0 <= i < |at| ensures at[i].skill != skill { PriorityMembers(rows, p, at[i]); }
    WithoutAbsent(at, skill);
  }

  /** Moving a row to a higher priority takes it out of the lower ones. */
  lemma {:induction false} RaisedAtPriority(rows: seq<Binding>, k: nat, top: Binding, p: nat)
    requires OneRowPerSkill(rows) && k < |rows| && rows[k].skill == top.skill && p < top.priority
    ensures AtPriority(rows[k := top], p) == Without(AtPriority(rows, p), top.skill)
  {
    var front, last, next := Front(rows), Last(rows), rows[k := top];
    var here := if last.priority == p then [last] else [];
    WithoutConcat(AtPriority(front, p), here, top.skill);
    if k == |rows| - 1 {
      assert Front(next) == front;
      AbsentAtPriority(front, p, top.skill);
    } else {
      assert Front(next) == front[k := top] && last.skill != top.skill;
      RaisedAtPriority(front, k, top, p);
    }
  }

  lemma UpsertAtPriority(rows: seq<Binding>, next: seq<Binding>, skill: nat, priority: nat, p: nat)
    requires OneRowPerSkill(rows) && p < priority && next == Upsert(rows, skill, priority)
    ensures AtPriority(next, p) == Without(AtPriority(rows, p), skill)
  {
    var k, top := IndexOf(rows, skill), Binding(skill, priority);
    if k < |rows| {
      RaisedAtPriority(rows, k, top, p);
    } else {
      assert Front(rows + [top]) == rows;
      AbsentAtPriority(rows, p, skill);
    }
  }

  lemma {:induction false} UpsertSorted(rows: seq<Binding>, next: seq<Binding>, skill: nat, n: nat)
    requires forall p: nat :: p < n ==> AtPriority(next, p) == Without(AtPriority(rows, p), skill)
    ensures Sorted(next, n) == Without(Sorted(rows, n), skill)
  {
    if n > 0 {
      UpsertSorted(rows, next, skill, n - 1);
      WithoutConcat(Sorted(rows, n - 1), AtPriority(rows, n - 1), skill);
    }
  }

  lemma {:induction false} NoneAtPriority(rows: seq<Binding>, p: nat)
    requires Below(rows, p)
    ensures AtPriority(rows, p) == []
  {
    if rows != [] { NoneAtPriority(Front(rows), p); }
  }

  /** The row just written is alone at the greatest priority. */
  lemma {:induction false} TopAtPriority(rows: seq<Binding>, k: nat, top: Binding)
    requires Below(rows, top.priority) && k < |rows|
    ensures AtPriority(rows[k := top], top.priority) == [top]
  {
    var next := rows[k := top];
    if k == |rows| - 1 {
      assert Front(next) == Front(rows);
      NoneAtPriority(Front(rows), top.priority);
    } else {
      assert Front(next) == Front(rows)[k := top];
      TopAtPriority(Front(rows), k, top);
    }
  }

  lemma UpsertTop(rows: seq<Binding>, skill: nat, priority: nat)
    requires Below(rows, priority)
    ensures AtPriority(Upsert(rows, skill, priority), priority) == [Binding(skill, priority)]
  {
    var k, top := IndexOf(rows, skill), Binding(skill, priority);
    if k < |rows| {
      TopAtPriority(rows, k, top);
    } else {
      assert Front(rows + [top]) == rows;
      NoneAtPriority(rows, priority);
    }
  }

  lemma {:induction false} BoundIsLeast(rows: seq<Binding>, i: nat, n: nat)
    requires i < |rows| && Below(rows, n) && rows[i].priority == n - 1
    ensures Bound(rows) == n
  {
    var front := Front(rows);
    if i < |rows| - 1 {
      BoundIsLeast(front, i, n);
    } else {
      BoundAtMost(front, n);
    }
  }

  lemma {:induction false} BoundAtMost(rows: seq<Binding>, n: nat)
    requires Below(rows, n)
    ensures Bound(rows) <= n
  {
    if rows != [] { BoundAtMost(Front(rows), n); }
  }

  function WithoutId(ids: seq<nat>, id: nat): seq<nat> {
    if ids == [] then [] else WithoutId(Front(ids), id) + (if Last(ids) == id then [] else [Last(ids)])
  }

  lemma {:induction false} SkillsWithout(rows: seq<Binding>, skill: nat)
    ensures Skills(Without(rows, skill)) == WithoutId(Skills(rows), skill)
  {
    if rows != [] {
      SkillsWithout(Front(rows), skill);
      assert Front(Skills(rows)) == Skills(Front(rows));
    }
  }

  lemma SkillsSnoc(rows: seq<Binding>, b: Binding)
    ensures Skills(rows + [b]) == Skills(rows) + [b.skill]
  {
  }

  lemma {:induction false} WithoutIdConcat(s: seq<nat>, t: seq<nat>, id: nat)
    ensures WithoutId(s + t, id) == WithoutId(s, id) + WithoutId(t, id)
  {
    if t == [] {
      assert s + t == s;
    } else {
      WithoutIdConcat(s, Front(t), id);
      assert Front(s + t) == s + Front(t);
    }
  }

  function FirstPlace(ids: seq<nat>): seq<nat>
    requires ids != []
  {
    if ids[0] in ids[1..] then [] else [ids[0]]
  }

  lemma LastPlacesStep(ids: seq<nat>, rest: seq<nat>)
    requires ids != [] && rest == ids[1..]
    ensures LastPlaces(ids) == FirstPlace(ids) + LastPlaces(rest)
  {
  }

  /** Appending an ID takes it out of the first place, if it stood there. */
  lemma FirstPlaceSnoc(ids: seq<nat>, id: nat, all: seq<nat>)
    requires ids != [] && all == ids + [id]
    ensures FirstPlace(all) == WithoutId(FirstPlace(ids), id)
  {
    assert all[1..] == ids[1..] + [id];
    assert Front([ids[0]]) == [] && WithoutId([], id) == [];
  }

  lemma {:induction false} LastPlacesSnoc(ids: seq<nat>, id: nat, all: seq<nat>)
    requires all == ids + [id]
    ensures LastPlaces(all) == WithoutId(LastPlaces(ids), id) + [id]
  {
    if ids == [] {
      assert all[1..] == [] && LastPlaces(all[1..]) == [];
    } else {
      var rest := ids[1..];
      assert all[1..] == rest + [id];
      LastPlacesSnoc(rest, id, all[1..]);
      LastPlacesStep(ids, rest);
      LastPlacesStep(all, all[1..]);
      FirstPlaceSnoc(ids, id, all);
      WithoutIdConcat(FirstPlace(ids), LastPlaces(rest), id);
      Associate(WithoutId(FirstPlace(ids), id), WithoutId(LastPlaces(rest), id), [id]);
    }
  }

  lemma UpsertKeepsShape(rows: seq<Binding>, skill: nat, priority: nat)
    requires OneRowPerSkill(rows) && Below(rows, priority)
    ensures OneRowPerSkill(Upsert(rows, skill, priority)) && Below(Upsert(rows, skill, priority), priority + 1)
  {
  }

  /** Writing a row with a new greatest priority moves its skill to the end of the order. */
  lemma UpsertMovesToEnd(rows: seq<Binding>, skill: nat, priority: nat)
    requires OneRowPerSkill(rows) && Below(rows, priority)
    ensures Skills(Sorted(Upsert(rows, skill, priority), priority + 1))
         == WithoutId(Skills(Sorted(rows, priority)), skill) + [skill]
  {
    var next := Upsert(rows, skill, priority);
    forall p: nat | p < priority ensures AtPriority(next, p) == Without(AtPriority(rows, p), skill) {
      UpsertAtPriority(rows, next, skill, priority, p);
    }
    UpsertSorted(rows, next, skill, priority);
    UpsertTop(rows, skill, priority);
    SkillsWithout(Sorted(rows, priority), skill);
    SkillsSnoc(Without(Sorted(rows, priority), skill), Binding(skill, priority));
  }

  lemma {:induction false} SyncedInOrder(ids: seq<nat>)
    ensures Skills(Sorted(Synced(ids), |ids|)) == LastPlaces(ids)
    ensures OneRowPerSkill(Synced(ids)) && Below(Synced(ids), |ids|)
  {
    if ids != [] {
      var front, last := Front(ids), Last(ids);
      SyncedInOrder(front);
      UpsertKeepsShape(Synced(front), last, |front|);
      UpsertMovesToEnd(Synced(front), last, |front|);
      assert ids == front + [last];
      LastPlacesSnoc(front, last, ids);
    }
  }

  lemma SyncedBound(ids: seq<nat>)
    ensures Bound(Synced(ids)) == |ids|
  {
    SyncedInOrder(ids);
    if ids != [] {
      var before := Synced(Front(ids));
      var k := IndexOf(before, Last(ids));
      assert Synced(ids)[k] == Binding(Last(ids), |ids| - 1);
      BoundIsLeast(Synced(ids), k, |ids|);
    }
  }

  /** What a sync leaves is listed in the caller's order, a repeated ID at its last place. */
  lemma SyncedListsInOrder(ids: seq<nat>)
    ensures Listing(Synced(ids)) == LastPlaces(ids)
  {
    SyncedInOrder(ids);
    SyncedBound(ids);
  }

  /** Only repetitions are ever dropped. */
  lemma {:induction false} LastPlacesOfDistinct(ids: seq<nat>)
    ensures LastPlaces(ids) == ids <==> Distinct(ids)
    ensures |LastPlaces(ids)| <= |ids|
  {
    if ids != [] {
      LastPlacesOfDistinct(ids[1..]);
      DistinctStep(ids);
      if ids[0] !in ids[1..] {
        assert ids == [ids[0]] + ids[1..];
        if LastPlaces(ids) == ids { assert LastPlaces(ids[1..]) == LastPlaces(ids)[1..]; }
      }
    }
  }

  lemma DistinctStep(ids: seq<nat>)
    requires ids != []
    ensures Distinct(ids) <==> ids[0] !in ids[1..] && Distinct(ids[1..])
  {
    var rest := ids[1..];
    assert forall i :: 0 <= i < |rest| ==> rest[i] == ids[i + 1];
    if Distinct(ids) {
      forall i, j | 0 <= i < j < |rest| ensures rest[i] != rest[j] { assert ids[i + 1] != ids[j + 1]; }
    }
    if ids[0] !in rest && Distinct(rest) {
      forall i, j | 0 <= i < j < |ids| ensures ids[i] != ids[j] { assert ids[j] == rest[j - 1]; }
    }
  }

  // ---------------------------------------------------------------- the repository

  datatype SyncOutcome = Committed | UnknownSkill(id: nat) | Broken

  class Repository {
    /** The skill table's keys. */
    var skills: set<nat>
    var agentSkill: map<nat, seq<Binding>>

    constructor ()
      ensures skills == {} && agentSkill == map[]
    {
      skills, agentSkill := {}, map[];
    }

    /** Whether the whole list can be written: nothing breaks, and every skill exists. */
    method SyncSkills(agent: nat, ids: seq<nat>, storeUp: bool) returns (outcome: SyncOutcome)
      modifies this`agentSkill
      ensures outcome == Committed <==> storeUp && forall i :: 0 <= i < |ids| ==> ids[i] in skills
      ensures outcome == Committed ==> agentSkill == old(agentSkill)[agent := Synced(ids)]
      ensures outcome != Committed ==> agentSkill == old(agentSkill)
      ensures outcome.UnknownSkill? ==> outcome.id in ids && outcome.id !in skills
    {
      if !storeUp {
        return Broken;
      }
      var rows: seq<Binding> := [];
      for i := 0 to |ids|
        invariant rows == Synced(ids[..i])
        invariant forall k :: 0 <= k < i ==> ids[k] in skills
      {
        if ids[i] !in skills {
          return UnknownSkill(ids[i]);
        }
        assert Front(ids[..i + 1]) == ids[..i];
        rows := Upsert(rows, ids[i], i);
      }
      assert ids[..|ids|] == ids;
      agentSkill := agentSkill[agent := rows];
      outcome := Committed;
    }

    method ListSkillIDs(agent: nat) returns (ids: seq<nat>)
      ensures ids == if agent in agentSkill then Listing(agentSkill[agent]) else []
      ensures forall synced :: agent in agentSkill && agentSkill[agent] == Synced(synced) ==> ids == LastPlaces(synced)
    {
      ids := if agent in agentSkill then Listing(agentSkill[agent]) else [];
      forall synced | agent in agentSkill && agentSkill[agent] == Synced(synced) ensures ids == LastPlaces(synced) {
        SyncedListsInOrder(synced);
      }
    }
  }
}
