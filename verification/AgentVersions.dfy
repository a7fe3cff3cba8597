/**
 * Agent versions: drafts, publishing, rollback, and the agent's pointer to its current version.  A service call is one
 * atomic action on the two tables.  A version row is identified by its position in the table, since every new row
 * gets a fresh UUID and rows are not deleted.
 */
module AgentVersions {
  import opened Prelude
  import opened Decimal

  datatype VersionStatus = Draft | Published

  /** A definition document: the system prompt it carries, if any, and everything else in it. */
  datatype Definition = Definition(prompt: Option<string>, rest: string)

  /** A version row; an absent document is None or the empty string. */
  datatype Version = Version(
    agent: nat, number: nat, status: VersionStatus, description: string, definition: Option<Definition>, config: string)

  datatype AgentStatus = InDraft | Live | Archived

  /** The columns of an agent that versions read or write; an absent model configuration is the empty string. */
  datatype Agent = Agent(status: AgentStatus, currentVersion: nat, prompt: Option<string>, modelConfig: string)

  datatype Db = Db(agents: map<nat, Agent>, rows: seq<Version>)

  datatype Error =
    | AgentNotFound | VersionNotFound | DraftAlreadyExists | VersionImmutable | NotPublished | RollbackBlockedByDraft

  datatype Outcome = Done(id: nat) | Refused(error: Error)

  const EMPTY_OBJECT := "{}"
  const EMPTY_DEFINITION := Definition(None, "")

  // ---------------------------------------------------------------- the tables

  predicate HasDraft(rows: seq<Version>, a: nat) {
    exists i :: 0 <= i < |rows| && rows[i].agent == a && rows[i].status.Draft?
  }

  /** The version numbers of an agent, in the order its rows were written. */
  function Numbers(rows: seq<Version>, a: nat): seq<nat> {
    if rows == [] then []
    else Numbers(Front(rows), a) + (if Last(rows).agent == a then [Last(rows).number] else [])
  }

  function Max(s: seq<nat>): nat {
    if s == [] then 0 else if Last(s) > Max(Front(s)) then Last(s) else Max(Front(s))
  }

  function NextVersionNumber(rows: seq<Version>, a: nat): nat {
    Max(Numbers(rows, a)) + 1
  }

  /** The row an insert or update writes: absent documents become empty objects. */
  function Stored(v: Version): (s: Version)
    ensures s.definition.Some? && s.config != ""
  {
    v.(definition := if v.definition.None? then Some(EMPTY_DEFINITION) else v.definition,
       config := if v.config == "" then EMPTY_OBJECT else v.config)
  }

  function Insert(db: Db, v: Version): Db {
    db.(rows := db.rows + [Stored(v)])
  }

  /** Flip a row to published and move its agent's pointer, in one transaction. */
  function PublishRow(db: Db, id: nat): Db
    requires id < |db.rows|
  {
    var v := db.rows[id];
    Db(if v.agent in db.agents
       then db.agents[v.agent := db.agents[v.agent].(currentVersion := v.number, status := Live)]
       else db.agents,
       db.rows[id := v.(status := Published)])
  }

  // ---------------------------------------------------------------- the service calls

  function DefinitionSnapshot(agent: Agent, requested: Option<Definition>): Option<Definition> {
    if requested.Some? then requested else Some(Definition(agent.prompt, ""))
  }

  function ConfigSnapshot(agent: Agent, requested: string): string {
    if requested != "" then requested
    else if agent.modelConfig == "" then EMPTY_OBJECT
    else agent.modelConfig
  }

  function CreateDraft(db: Db, a: nat, description: string, definition: Option<Definition>, config: string)
    : (Db, Outcome)
  {
    if a !in db.agents then (db, Refused(AgentNotFound))
    else if HasDraft(db.rows, a) then (db, Refused(DraftAlreadyExists))
    else
      var current := db.agents[a];
      var v := Version(a, NextVersionNumber(db.rows, a), Draft, description, DefinitionSnapshot(current, definition),
                       ConfigSnapshot(current, config));
      (Insert(db, v), Done(|db.rows|))
  }

  function Edited(v: Version, description: Option<string>, definition: Option<Definition>, config: string): Version {
    v.(description := if description.Some? then description.value else v.description,
       definition := if definition.Some? then definition else v.definition,
       config := if config != "" then config else v.config)
  }

  function UpdateDraft(db: Db, id: nat, description: Option<string>, definition: Option<Definition>, config: string)
    : (Db, Outcome)
  {
    if id >= |db.rows| then (db, Refused(VersionNotFound))
    else if !db.rows[id].status.Draft? then (db, Refused(VersionImmutable))
    else (db.(rows := db.rows[id := Stored(Edited(db.rows[id], description, definition, config))]), Done(id))
  }

  function Publish(db: Db, id: nat): (Db, Outcome) {
    if id >= |db.rows| then (db, Refused(VersionNotFound))
    else if !db.rows[id].status.Draft? then (db, Refused(VersionImmutable))
    else (PublishRow(db, id), Done(id))
  }

  /** The agent after a version's snapshot was applied to it. */
  function Applied(agent: Agent, target: Version): Agent {
    agent.(prompt := if target.definition.Some? && target.definition.value.prompt.Some?
                     then target.definition.value.prompt else agent.prompt,
           modelConfig := if target.config != "" then target.config else agent.modelConfig)
  }

  function RollbackEntry(db: Db, a: nat, target: Version): Version {
    Version(a, NextVersionNumber(db.rows, a), Published, "Rollback to version " + Itoa(target.number),
            target.definition, target.config)
  }

  function ShouldUpdateAgent(target: Version): bool {
    (target.definition.Some? && target.definition.value.prompt.Some?) || target.config != ""
  }

  function Rollback(db: Db, a: nat, id: nat): (Db, Outcome) {
    if id >= |db.rows| || db.rows[id].agent != a then (db, Refused(VersionNotFound))
    else if !db.rows[id].status.Published? then (db, Refused(NotPublished))
    else if HasDraft(db.rows, a) then (db, Refused(RollbackBlockedByDraft))
    else
      var target := db.rows[id];
      var next := PublishRow(Insert(db, RollbackEntry(db, a, target)), |db.rows|);
      if !ShouldUpdateAgent(target) then (next, Done(|db.rows|))
      else if a !in next.agents then (next, Refused(AgentNotFound))
      else (next.(agents := next.agents[a := Applied(next.agents[a], target)]), Done(|db.rows|))
  }

  // ---------------------------------------------------------------- runs

  datatype Action =
    | CreateDraftCall(agent: nat, description: string, definition: Option<Definition>, config: string)
    | UpdateDraftCall(id: nat, change: Option<string>, definition: Option<Definition>, config: string)
    | PublishCall(id: nat)
    | RollbackCall(agent: nat, id: nat)
    | NewAgent(agent: nat, prompt: Option<string>, modelConfig: string)
    | EditAgent(agent: nat, status: AgentStatus, prompt: Option<string>, modelConfig: string)   // any other update

  function Next(db: Db, action: Action): Db {
    match action
    case CreateDraftCall(a, description, definition, config) => CreateDraft(db, a, description, definition, config).0
    case UpdateDraftCall(id, change, definition, config) => UpdateDraft(db, id, change, definition, config).0
    case PublishCall(id) => Publish(db, id).0
    case RollbackCall(a, id) => Rollback(db, a, id).0
    case NewAgent(a, prompt, modelConfig) =>
      if a in db.agents then db else db.(agents := db.agents[a := Agent(InDraft, 1, prompt, modelConfig)])
    case EditAgent(a, status, prompt, modelConfig) =>
      if a !in db.agents then db
      else db.(agents := db.agents[a := Agent(status, db.agents[a].currentVersion, prompt, modelConfig)])
  }

  function Execute(db: Db, actions: seq<Action>): Db {
    if actions == [] then db else Next(Execute(db, Front(actions)), Last(actions))
  }

  const EMPTY := Db(map[], [])

  // ---------------------------------------------------------------- the invariant

  function UpTo(n: nat): (s: seq<nat>)
    ensures |s| == n
  {
    seq(n, i requires 0 <= i < n => i + 1)
  }

  /** Only the newest row of an agent can be a draft. */
  ghost predicate DraftIsNewest(rows: seq<Version>) {
    forall i, j :: 0 <= i < j < |rows| && rows[i].agent == rows[j].agent ==> rows[i].status.Published?
  }

  ghost predicate WellNumbered(rows: seq<Version>) {
    forall a: nat :: Numbers(rows, a) == UpTo(|Numbers(rows, a)|)
  }

  ghost predicate Filled(rows: seq<Version>) {
    forall i :: 0 <= i < |rows| ==> rows[i].definition.Some? && rows[i].config != ""
  }

  /** Row `i` is the one the pointer of its agent names, and nothing newer is published. */
  ghost predicate IsCurrent(db: Db, i: nat) {
    && i < |db.rows| && db.rows[i].status.Published? && db.rows[i].agent in db.agents
    && db.agents[db.rows[i].agent].currentVersion == db.rows[i].number
    && forall j :: 0 <= j < |db.rows| && db.rows[j].agent == db.rows[i].agent && db.rows[j].status.Published? ==>
                     db.rows[j].number <= db.rows[i].number
  }

  ghost predicate PointerIsRight(db: Db, a: nat) {
    (exists i :: 0 <= i < |db.rows| && db.rows[i].agent == a && db.rows[i].status.Published?) ==>
      exists i: nat :: IsCurrent(db, i) && db.rows[i].agent == a
  }

  ghost predicate Invariant(db: Db) {
    && WellNumbered(db.rows)
    && DraftIsNewest(db.rows)
    && Filled(db.rows)
    && (forall i :: 0 <= i < |db.rows| ==> db.rows[i].agent in db.agents)
    && (forall a: nat :: PointerIsRight(db, a))
  }

  lemma {:induction false} MaxUpTo(n: nat)
    ensures Max(UpTo(n)) == n
  {
    if n > 0 {
      MaxUpTo(n - 1);
      assert Front(UpTo(n)) == UpTo(n - 1);
    }
  }

  lemma NumbersAppend(rows: seq<Version>, v: Version, a: nat)
    ensures Numbers(rows + [v], a) == Numbers(rows, a) + (if v.agent == a then [v.number] else [])
  {
    assert Front(rows + [v]) == rows;
  }

  lemma {:induction false} NumbersUpdate(rows: seq<Version>, id: nat, v: Version, a: nat)
    requires id < |rows| && v.agent == rows[id].agent && v.number == rows[id].number
    ensures Numbers(rows[id := v], a) == Numbers(rows, a)
  {
    var after := rows[id := v];
    if id == |rows| - 1 {
      assert Front(after) == Front(rows);
    } else {
      NumbersUpdate(Front(rows), id, v, a);
      assert Front(after) == Front(rows)[id := v];
    }
  }

  /** The newest row of an agent carries the last of its numbers. */
  lemma {:induction false} NewestNumber(rows: seq<Version>, id: nat)
    requires id < |rows| && forall j :: id < j < |rows| ==> rows[j].agent != rows[id].agent
    ensures var numbers := Numbers(rows, rows[id].agent);
            numbers != [] && Last(numbers) == rows[id].number
  {
    if id < |rows| - 1 { NewestNumber(Front(rows), id); }
  }

  lemma {:induction false} NumberListed(rows: seq<Version>, i: nat)
    requires i < |rows|
    ensures rows[i].number in Numbers(rows, rows[i].agent)
  {
    if i < |rows| - 1 { NumberListed(Front(rows), i); }
  }

  lemma NumberBounded(rows: seq<Version>, i: nat)
    requires i < |rows| && WellNumbered(rows)
    ensures 1 <= rows[i].number <= |Numbers(rows, rows[i].agent)|
  {
    NumberListed(rows, i);
    assert Numbers(rows, rows[i].agent) == UpTo(|Numbers(rows, rows[i].agent)|);
  }

  lemma NextIsFresh(rows: seq<Version>, a: nat)
    requires WellNumbered(rows)
    ensures NextVersionNumber(rows, a) == |Numbers(rows, a)| + 1
  {
    MaxUpTo(|Numbers(rows, a)|);
    assert Numbers(rows, a) == UpTo(|Numbers(rows, a)|);
  }

  lemma AppendNumbered(rows: seq<Version>, v: Version)
    requires WellNumbered(rows) && v.number == NextVersionNumber(rows, v.agent)
    ensures WellNumbered(rows + [v])
  {
    forall a: nat ensures Numbers(rows + [v], a) == UpTo(|Numbers(rows + [v], a)|) {
      NumbersAppend(rows, v, a);
      assert Numbers(rows, a) == UpTo(|Numbers(rows, a)|);
      NextIsFresh(rows, a);
    }
  }

  lemma UpdateNumbered(rows: seq<Version>, id: nat, v: Version)
    requires id < |rows| && v.agent == rows[id].agent && v.number == rows[id].number && WellNumbered(rows)
    ensures WellNumbered(rows[id := v])
  {
    var after := rows[id := v];
    forall a: nat ensures Numbers(after, a) == UpTo(|Numbers(after, a)|) {
      NumbersUpdate(rows, id, v, a);
    }
  }

  /** Appending a row keeps the newest-draft rule when its agent has no draft. */
  lemma AppendNewest(rows: seq<Version>, v: Version)
    requires DraftIsNewest(rows) && !HasDraft(rows, v.agent)
    ensures DraftIsNewest(rows + [v])
  {
  }

  lemma PointerKept(db: Db, next: Db, a: nat)
    requires PointerIsRight(db, a)
    requires a in db.agents ==> a in next.agents && next.agents[a].currentVersion == db.agents[a].currentVersion
    requires forall i :: 0 <= i < |db.rows| && db.rows[i].agent == a && db.rows[i].status.Published? ==>
                           i < |next.rows| && next.rows[i] == db.rows[i]
    requires forall i :: 0 <= i < |next.rows| && next.rows[i].agent == a && next.rows[i].status.Published? ==>
                           i < |db.rows| && next.rows[i] == db.rows[i]
    ensures PointerIsRight(next, a)
  {
    if i :| 0 <= i < |next.rows| && next.rows[i].agent == a && next.rows[i].status.Published? {
      assert db.rows[i].agent == a && db.rows[i].status.Published?;
      var c: nat :| IsCurrent(db, c) && db.rows[c].agent == a;
      assert IsCurrent(next, c);
    }
  }

  lemma InsertDraftKeeps(db: Db, v: Version)
    requires Invariant(db) && v.agent in db.agents && !HasDraft(db.rows, v.agent) && v.status.Draft?
    requires v.number == NextVersionNumber(db.rows, v.agent)
    ensures Invariant(Insert(db, v))
  {
    var next := Insert(db, v);
    AppendNumbered(db.rows, Stored(v));
    AppendNewest(db.rows, Stored(v));
    forall a: nat ensures PointerIsRight(next, a) { PointerKept(db, next, a); }
  }

  lemma ReplaceDraftKeeps(db: Db, id: nat, v: Version)
    requires Invariant(db) && id < |db.rows| && db.rows[id].status.Draft? && v.status.Draft?
    requires v.agent == db.rows[id].agent && v.number == db.rows[id].number && v.definition.Some? && v.config != ""
    ensures Invariant(db.(rows := db.rows[id := v]))
  {
    var next := db.(rows := db.rows[id := v]);
    UpdateNumbered(db.rows, id, v);
    forall a: nat ensures PointerIsRight(next, a) { PointerKept(db, next, a); }
  }

  /** Everything the invariant says about the rows, and the pointers of all agents but one. */
  ghost predicate InvariantBut(db: Db, except: nat) {
    && WellNumbered(db.rows)
    && DraftIsNewest(db.rows)
    && Filled(db.rows)
    && (forall i :: 0 <= i < |db.rows| ==> db.rows[i].agent in db.agents)
    && (forall a: nat :: a != except ==> PointerIsRight(db, a))
  }

  lemma PublishedOnTop(rows: seq<Version>, id: nat, j: nat)
    requires WellNumbered(rows) && id < |rows| && j < |rows| && rows[j].agent == rows[id].agent
    requires forall k :: id < k < |rows| ==> rows[k].agent != rows[id].agent
    ensures rows[j].number <= rows[id].number
  {
    NewestNumber(rows, id);
    NumberBounded(rows, j);
    assert Numbers(rows, rows[id].agent) == UpTo(|Numbers(rows, rows[id].agent)|);
  }

  /** Publishing the newest row of an agent makes its pointer right, whatever it was before. */
  lemma PublishRowKeeps(db: Db, id: nat)
    requires id < |db.rows| && InvariantBut(db, db.rows[id].agent)
    requires forall k :: id < k < |db.rows| ==> db.rows[k].agent != db.rows[id].agent
    ensures Invariant(PublishRow(db, id)) && IsCurrent(PublishRow(db, id), id)
  {
    var next, v := PublishRow(db, id), db.rows[id];
    UpdateNumbered(db.rows, id, v.(status := Published));
    forall j | 0 <= j < |next.rows| && next.rows[j].agent == v.agent ensures next.rows[j].number <= v.number {
      PublishedOnTop(db.rows, id, j);
    }
    assert IsCurrent(next, id);
    forall a: nat ensures PointerIsRight(next, a) {
      if a != v.agent { PointerKept(db, next, a); }
    }
  }

  lemma PublishKeeps(db: Db, id: nat)
    requires Invariant(db)
    ensures Invariant(Publish(db, id).0)
  {
    if id < |db.rows| && db.rows[id].status.Draft? { PublishRowKeeps(db, id); }
  }

  lemma InsertPublished(db: Db, v: Version)
    requires Invariant(db) && v.agent in db.agents && !HasDraft(db.rows, v.agent) && v.status.Published?
    requires v.number == NextVersionNumber(db.rows, v.agent)
    ensures InvariantBut(Insert(db, v), v.agent)
  {
    var next := Insert(db, v);
    AppendNumbered(db.rows, Stored(v));
    AppendNewest(db.rows, Stored(v));
    forall a: nat | a != v.agent ensures PointerIsRight(next, a) { PointerKept(db, next, a); }
  }

  lemma AgentFieldsKeep(db: Db, a: nat, agent: Agent)
    requires Invariant(db)
    requires a in db.agents ==> agent.currentVersion == db.agents[a].currentVersion
    requires a !in db.agents ==> forall i :: 0 <= i < |db.rows| ==> db.rows[i].agent != a
    ensures Invariant(db.(agents := db.agents[a := agent]))
  {
    var next := db.(agents := db.agents[a := agent]);
    forall b: nat ensures PointerIsRight(next, b) { PointerKept(db, next, b); }
  }

  lemma RollbackKeeps(db: Db, a: nat, id: nat)
    requires Invariant(db)
    ensures Invariant(Rollback(db, a, id).0)
  {
    if Rollback(db, a, id).1.Done? {
      var entry := RollbackEntry(db, a, db.rows[id]);
      InsertPublished(db, entry);
      PublishRowKeeps(Insert(db, entry), |db.rows|);
      var next := PublishRow(Insert(db, entry), |db.rows|);
      if ShouldUpdateAgent(db.rows[id]) { AgentFieldsKeep(next, a, Applied(next.agents[a], db.rows[id])); }
    }
  }

  lemma NextKeeps(db: Db, action: Action)
    requires Invariant(db)
    ensures Invariant(Next(db, action))
  {
    match action
    case CreateDraftCall(a, description, definition, config) =>
      if a in db.agents && !HasDraft(db.rows, a) {
        var v := Version(a, NextVersionNumber(db.rows, a), Draft, description,
                         DefinitionSnapshot(db.agents[a], definition), ConfigSnapshot(db.agents[a], config));
        InsertDraftKeeps(db, v);
      }
    case UpdateDraftCall(id, change, definition, config) =>
      if id < |db.rows| && db.rows[id].status.Draft? {
        ReplaceDraftKeeps(db, id, Stored(Edited(db.rows[id], change, definition, config)));
      }
    case PublishCall(id) => PublishKeeps(db, id);
    case RollbackCall(a, id) => RollbackKeeps(db, a, id);
    case NewAgent(a, prompt, modelConfig) =>
      if a !in db.agents { AgentFieldsKeep(db, a, Agent(InDraft, 1, prompt, modelConfig)); }
    case EditAgent(a, status, prompt, modelConfig) =>
      if a in db.agents {
        AgentFieldsKeep(db, a, Agent(status, db.agents[a].currentVersion, prompt, modelConfig));
      }
  }

  lemma {:induction false} ExecuteKeeps(db: Db, actions: seq<Action>)
    requires Invariant(db)
    ensures Invariant(Execute(db, actions))
  {
    if actions != [] {
      ExecuteKeeps(db, Front(actions));
      NextKeeps(Execute(db, Front(actions)), Last(actions));
    }
  }

  // ---------------------------------------------------------------- main results

  /**
   * In every reachable state an agent's version numbers are 1, 2, ..., n in the order of writing, with no draft except
   * possibly number n, and once anything is published current_version is the greatest published number.
   */
  lemma VersionsAreOrdered(actions: seq<Action>, a: nat)
    ensures var db := Execute(EMPTY, actions);
            var n := |Numbers(db.rows, a)|;
            && Numbers(db.rows, a) == UpTo(n)
            && (forall i :: 0 <= i < |db.rows| && db.rows[i].agent == a && db.rows[i].status.Draft? ==>
                              db.rows[i].number == n)
            && PointerIsRight(db, a)
  {
    var db := Execute(EMPTY, actions);
    ExecuteKeeps(EMPTY, actions);
    forall i | 0 <= i < |db.rows| && db.rows[i].agent == a && db.rows[i].status.Draft?
      ensures db.rows[i].number == |Numbers(db.rows, a)|
    {
      NewestNumber(db.rows, i);
    }
  }

  /** No two rows of an agent share a number, so at most one of them is its draft. */
  lemma NumbersAreUnique(actions: seq<Action>, i: nat, j: nat)
    requires var rows := Execute(EMPTY, actions).rows;
             i < |rows| && j < |rows| && rows[i].agent == rows[j].agent
    requires var rows := Execute(EMPTY, actions).rows;
             rows[i].number == rows[j].number || (rows[i].status.Draft? && rows[j].status.Draft?)
    ensures i == j
  {
    var rows := Execute(EMPTY, actions).rows;
    ExecuteKeeps(EMPTY, actions);
    if i < j { LaterIsGreater(rows, i, j); }
    if j < i { LaterIsGreater(rows, j, i); }
  }

  lemma {:induction false} LaterIsGreater(rows: seq<Version>, i: nat, j: nat)
    requires i < j < |rows| && rows[i].agent == rows[j].agent && WellNumbered(rows)
    ensures rows[i].number < rows[j].number
  {
    if j < |rows| - 1 {
      FrontNumbered(rows);
      LaterIsGreater(Front(rows), i, j);
    } else {
      FrontNumbered(rows);
      NumberBounded(Front(rows), i);
      NewestNumber(rows, j);
      assert Numbers(rows, rows[j].agent) == UpTo(|Numbers(rows, rows[j].agent)|);
    }
  }

  lemma FrontNumbered(rows: seq<Version>)
    requires rows != [] && WellNumbered(rows)
    ensures WellNumbered(Front(rows))
  {
    forall a: nat ensures Numbers(Front(rows), a) == UpTo(|Numbers(Front(rows), a)|) {
      PrefixNumbered(Numbers(Front(rows), a), Numbers(rows, a));
    }
  }

  lemma PrefixNumbered(s: seq<nat>, t: seq<nat>)
    requires s <= t && t == UpTo(|t|)
    ensures s == UpTo(|s|)
  {
    assert s == t[..|s|] && UpTo(|t|)[..|s|] == UpTo(|s|);
  }

  /** What one action can do to a row: nothing once it is published, and no change of contents except by UpdateDraft. */
  lemma RowKept(db: Db, next: Db, action: Action, id: nat)
    requires id < |db.rows| && next == Next(db, action)
    ensures id < |next.rows|
    ensures db.rows[id].status.Published? ==> next.rows[id] == db.rows[id]
    ensures !Edits(action, id) ==> next.rows[id].(status := Draft) == db.rows[id].(status := Draft)
  {
  }

  /** A published row is never changed again, whatever calls follow. */
  lemma {:induction false} PublishedIsFrozen(db: Db, actions: seq<Action>, id: nat)
    requires id < |db.rows| && db.rows[id].status.Published?
    ensures id < |Execute(db, actions).rows| && Execute(db, actions).rows[id] == db.rows[id]
  {
    if actions != [] {
      PublishedIsFrozen(db, Front(actions), id);
      RowKept(Execute(db, Front(actions)), Execute(db, actions), Last(actions), id);
    }
  }

  /** The contents of a row change only through UpdateDraft on it. */
  lemma {:induction false} ContentsKept(db: Db, actions: seq<Action>, id: nat)
    requires id < |db.rows| && forall k :: 0 <= k < |actions| ==> !Edits(actions[k], id)
    ensures var after := Execute(db, actions);
            id < |after.rows| && after.rows[id].(status := Draft) == db.rows[id].(status := Draft)
  {
    if actions != [] {
      ContentsKept(db, Front(actions), id);
      RowKept(Execute(db, Front(actions)), Execute(db, actions), Last(actions), id);
    }
  }

  /** Whether an action edits the draft in row `id`. */
  predicate Edits(action: Action, id: nat) {
    action.UpdateDraftCall? && action.id == id
  }

  /** What rolling back to a published row does to the agent, given that the service accepts it. */
  lemma RollbackApplies(db: Db, a: nat, id: nat)
    requires Invariant(db) && id < |db.rows| && db.rows[id].agent == a && db.rows[id].status.Published?
    requires !HasDraft(db.rows, a)
    ensures var (after, outcome) := Rollback(db, a, id);
            && outcome == Done(|db.rows|)
            && a in after.agents && after.agents[a].modelConfig == db.rows[id].config
            && after.agents[a].prompt == (if db.rows[id].definition.value.prompt.Some?
                                          then db.rows[id].definition.value.prompt else db.agents[a].prompt)
            && |after.rows| == |db.rows| + 1
            && after.rows[|db.rows|].agent == a && after.rows[|db.rows|].status.Published?
            && after.rows[|db.rows|].definition == db.rows[id].definition
            && after.rows[|db.rows|].config == db.rows[id].config
            && after.agents[a].currentVersion == after.rows[|db.rows|].number == |Numbers(db.rows, a)| + 1
            && after.rows[|db.rows|].description == "Rollback to version " + Itoa(db.rows[id].number)
            && after.agents[a].status == Live && after.agents.Keys == db.agents.Keys
            && (forall i :: 0 <= i < |db.rows| ==> after.rows[i] == db.rows[i])
            && (forall b :: b in db.agents && b != a ==> after.agents[b] == db.agents[b])
  {
    NextIsFresh(db.rows, a);
  }

  /**
   * Draft an agent's state without overrides, then let any calls follow that do not edit that draft.  Once its row is
   * published and the agent has no draft, rolling back to it succeeds, and it restores the prompt and the model
   * configuration the agent had when drafted if and only if the configuration was set then, and the prompt was set
   * then or is unset at the rollback.
   */
  lemma RollbackRestores(start: seq<Action>, a: nat, description: string, between: seq<Action>)
    requires a in Execute(EMPTY, start).agents && !HasDraft(Execute(EMPTY, start).rows, a)
    requires forall k :: 0 <= k < |between| ==> !Edits(between[k], |Execute(EMPTY, start).rows|)
    requires var drafted := CreateDraft(Execute(EMPTY, start), a, description, None, "").0;
             var id, now := |Execute(EMPTY, start).rows|, Execute(drafted, between);
             id < |now.rows| && now.rows[id].status.Published? && !HasDraft(now.rows, a)
    ensures var before := Execute(EMPTY, start);
            var now := Execute(CreateDraft(before, a, description, None, "").0, between);
            var (after, outcome) := Rollback(now, a, |before.rows|);
            && outcome.Done? && a in now.agents && a in after.agents
            && var was, restored := before.agents[a], after.agents[a];
               (restored.prompt == was.prompt && restored.modelConfig == was.modelConfig <==>
                was.modelConfig != "" && (was.prompt.Some? || now.agents[a].prompt.None?))
  {
    var before := Execute(EMPTY, start);
    var drafted := CreateDraft(before, a, description, None, "").0;
    ExecuteKeeps(EMPTY, start);
    NextKeeps(before, CreateDraftCall(a, description, None, ""));
    ExecuteKeeps(drafted, between);
    ContentsKept(drafted, between, |before.rows|);
    RollbackApplies(Execute(drafted, between), a, |before.rows|);
  }

  // ---------------------------------------------------------------- what the calls write

  /** One of the rows is a draft of the agent. */
  ghost predicate OwnsDraft(rows: seq<Version>, a: nat) {
    exists number, description, definition, config ::
      Version(a, number, Draft, description, definition, config) in rows
  }

  lemma OwnsDraftExactly(rows: seq<Version>, a: nat)
    ensures OwnsDraft(rows, a) <==> HasDraft(rows, a)
  {
    if i :| 0 <= i < |rows| && rows[i].agent == a && rows[i].status.Draft? {
      assert rows[i] == Version(a, rows[i].number, Draft, rows[i].description, rows[i].definition, rows[i].config);
    }
  }

  /** A draft holds what the request gives, and for what it leaves out the state of the agent. */
  lemma DraftHolds(db: Db, a: nat, description: string, definition: Option<Definition>, config: string)
    requires Invariant(db)
    ensures var (next, outcome) := CreateDraft(db, a, description, definition, config);
            && (outcome == Refused(AgentNotFound) <==> a !in db.agents)
            && (outcome == Refused(DraftAlreadyExists) <==> a in db.agents && OwnsDraft(db.rows, a))
            && (outcome.Refused? ==> next == db && (a !in db.agents || OwnsDraft(db.rows, a)))
            && (outcome.Done? ==>
                  && outcome.id == |db.rows| && next.agents == db.agents && |next.rows| == |db.rows| + 1
                  && (forall i :: 0 <= i < |db.rows| ==> next.rows[i] == db.rows[i])
                  && var row, agent := next.rows[|db.rows|], db.agents[a];
                     && row.agent == a && row.status == Draft && row.description == description
                     && row.number == |Numbers(db.rows, a)| + 1
                     && (definition.Some? ==> row.definition == definition)
                     && (definition.None? ==> row.definition == Some(Definition(agent.prompt, "")))
                     && (config != "" ==> row.config == config)
                     && (config == "" && agent.modelConfig != "" ==> row.config == agent.modelConfig)
                     && (config == "" && agent.modelConfig == "" ==> row.config == "{}"))
  {
    NextIsFresh(db.rows, a);
    OwnsDraftExactly(db.rows, a);
  }

  /** An update writes to its draft what the request gives, and nothing else anywhere. */
  lemma UpdateHolds(db: Db, id: nat, change: Option<string>, definition: Option<Definition>, config: string)
    requires Invariant(db)
    ensures var (next, outcome) := UpdateDraft(db, id, change, definition, config);
            && (outcome == Refused(VersionNotFound) <==> id >= |db.rows|)
            && (outcome == Refused(VersionImmutable) <==> id < |db.rows| && db.rows[id].status.Published?)
            && (outcome.Refused? ==> next == db && (id >= |db.rows| || db.rows[id].status.Published?))
            && (outcome.Done? ==>
                  && outcome.id == id < |next.rows| == |db.rows| && next.agents == db.agents
                  && (forall i :: 0 <= i < |db.rows| && i != id ==> next.rows[i] == db.rows[i])
                  && var row, was := next.rows[id], db.rows[id];
                     && row.agent == was.agent && row.number == was.number && row.status == was.status
                     && (change.Some? ==> row.description == change.value)
                     && (change.None? ==> row.description == was.description)
                     && (definition.Some? ==> row.definition == definition)
                     && (definition.None? ==> row.definition == was.definition)
                     && (config != "" ==> row.config == config)
                     && (config == "" ==> row.config == was.config))
  {
  }

  /** Publishing changes the status of its row, and the pointer and status of its agent, and nothing else. */
  lemma PublishHolds(db: Db, id: nat)
    requires Invariant(db)
    ensures var (next, outcome) := Publish(db, id);
            && (outcome == Refused(VersionNotFound) <==> id >= |db.rows|)
            && (outcome == Refused(VersionImmutable) <==> id < |db.rows| && db.rows[id].status.Published?)
            && (outcome.Refused? ==> next == db && (id >= |db.rows| || db.rows[id].status.Published?))
            && (outcome.Done? ==>
                  && outcome.id == id < |next.rows| == |db.rows|
                  && next.rows[id] == db.rows[id].(status := Published)
                  && (forall i :: 0 <= i < |db.rows| && i != id ==> next.rows[i] == db.rows[i])
                  && next.agents.Keys == db.agents.Keys
                  && var a := db.rows[id].agent;
                     && (forall b :: b in db.agents && b != a ==> next.agents[b] == db.agents[b])
                     && a in db.agents && next.agents[a].status == Live
                     && next.agents[a].currentVersion == db.rows[id].number
                     && next.agents[a].prompt == db.agents[a].prompt
                     && next.agents[a].modelConfig == db.agents[a].modelConfig)
  {
  }

  /** A rollback is refused for a row that is missing or not the agent's, for a draft, and while the agent has one. */
  lemma RollbackRefused(db: Db, a: nat, id: nat)
    requires Invariant(db)
    ensures var (next, outcome) := Rollback(db, a, id);
            var found := id < |db.rows| && db.rows[id].agent == a;
            && (outcome == Refused(VersionNotFound) <==> !found)
            && (outcome == Refused(NotPublished) <==> found && db.rows[id].status.Draft?)
            && (outcome == Refused(RollbackBlockedByDraft) <==>
                found && db.rows[id].status.Published? && OwnsDraft(db.rows, a))
            && (outcome.Refused? ==> next == db && outcome.error != AgentNotFound)
  {
    OwnsDraftExactly(db.rows, a);
  }

  /** Rolling back to a published row gives the agent its prompt and its configuration, whatever calls came between. */
  lemma PublishedRowRestores(db: Db, id: nat, a: nat, between: seq<Action>)
    requires Invariant(db) && id < |db.rows| && db.rows[id].agent == a && db.rows[id].status.Published?
    requires !HasDraft(Execute(db, between).rows, a)
    ensures var (after, outcome) := Rollback(Execute(db, between), a, id);
            && outcome.Done? && a in after.agents && after.agents[a].modelConfig == db.rows[id].config
            && db.rows[id].definition.Some?
            && (db.rows[id].definition.value.prompt.Some? ==>
                  after.agents[a].prompt == db.rows[id].definition.value.prompt)
  {
    ExecuteKeeps(db, between);
    PublishedIsFrozen(db, between, id);
    RollbackApplies(Execute(db, between), a, id);
  }

  /** A prompt and a configuration that an update put into a draft are what a later rollback to it restores. */
  lemma EditedDraftRestores(start: seq<Action>, id: nat, change: Option<string>, prompt: string, rest: string,
                            config: string, between: seq<Action>)
    requires var rows := Execute(EMPTY, start).rows; id < |rows| && rows[id].status.Draft?
    requires config != ""
    requires var edited := UpdateDraft(Execute(EMPTY, start), id, change, Some(Definition(Some(prompt), rest)), config);
             !HasDraft(Execute(Publish(edited.0, id).0, between).rows, Execute(EMPTY, start).rows[id].agent)
    ensures var before := Execute(EMPTY, start);
            var edited := UpdateDraft(before, id, change, Some(Definition(Some(prompt), rest)), config).0;
            var now, a := Execute(Publish(edited, id).0, between), before.rows[id].agent;
            var (after, outcome) := Rollback(now, a, id);
            && outcome.Done? && a in after.agents
            && after.agents[a].prompt == Some(prompt) && after.agents[a].modelConfig == config
  {
    var before, definition := Execute(EMPTY, start), Some(Definition(Some(prompt), rest));
    var edited := UpdateDraft(before, id, change, definition, config).0;
    ExecuteKeeps(EMPTY, start);
    NextKeeps(before, UpdateDraftCall(id, change, definition, config));
    UpdateHolds(before, id, change, definition, config);
    PublishKeeps(edited, id);
    PublishHolds(edited, id);
    PublishedRowRestores(Publish(edited, id).0, id, before.rows[id].agent, between);
  }

  /** So are those that a draft was created with. */
  lemma DraftedOverridesRestore(start: seq<Action>, a: nat, description: string, prompt: string, rest: string,
                                config: string, between: seq<Action>)
    requires a in Execute(EMPTY, start).agents && !HasDraft(Execute(EMPTY, start).rows, a) && config != ""
    requires var drafted := CreateDraft(Execute(EMPTY, start), a, description, Some(Definition(Some(prompt), rest)),
                                        config).0;
             !HasDraft(Execute(Publish(drafted, |Execute(EMPTY, start).rows|).0, between).rows, a)
    ensures var before := Execute(EMPTY, start);
            var drafted := CreateDraft(before, a, description, Some(Definition(Some(prompt), rest)), config).0;
            var now := Execute(Publish(drafted, |before.rows|).0, between);
            var (after, outcome) := Rollback(now, a, |before.rows|);
            && outcome.Done? && a in after.agents
            && after.agents[a].prompt == Some(prompt) && after.agents[a].modelConfig == config
  {
    var before, definition := Execute(EMPTY, start), Some(Definition(Some(prompt), rest));
    var drafted := CreateDraft(before, a, description, definition, config).0;
    ExecuteKeeps(EMPTY, start);
    NextKeeps(before, CreateDraftCall(a, description, definition, config));
    DraftHolds(before, a, description, definition, config);
    PublishKeeps(drafted, |before.rows|);
    PublishHolds(drafted, |before.rows|);
    PublishedRowRestores(Publish(drafted, |before.rows|).0, |before.rows|, a, between);
  }

  /** Rolling back later to the entry of a rollback does to the agent what rolling back to its target would do. */
  lemma RollbackTwice(start: seq<Action>, a: nat, id: nat, between: seq<Action>)
    requires Rollback(Execute(EMPTY, start), a, id).1.Done?
    requires !HasDraft(Execute(Rollback(Execute(EMPTY, start), a, id).0, between).rows, a)
    ensures var before := Execute(EMPTY, start);
            var now := Execute(Rollback(before, a, id).0, between);
            var first, again := Rollback(now, a, id), Rollback(now, a, |before.rows|);
            && first.1.Done? && again.1.Done? && a in first.0.agents
            && first.0.agents == again.0.agents
  {
    var before := Execute(EMPTY, start);
    var rolled := Rollback(before, a, id).0;
    ExecuteKeeps(EMPTY, start);
    RollbackKeeps(before, a, id);
    RollbackApplies(before, a, id);
    ExecuteKeeps(rolled, between);
    PublishedIsFrozen(rolled, between, id);
    PublishedIsFrozen(rolled, between, |before.rows|);
  }

  /** The tables after an agent was created, drafted and published. */
  function FirstPublished(prompt: Option<string>, modelConfig: string): Db {
    var created := Next(EMPTY, NewAgent(1, prompt, modelConfig));
    Publish(CreateDraft(created, 1, "", None, "").0, 0).0
  }

  lemma FirstVersion(prompt: Option<string>, modelConfig: string)
    ensures var config := if modelConfig == "" then EMPTY_OBJECT else modelConfig;
            FirstPublished(prompt, modelConfig)
              == Db(map[1 := Agent(Live, 1, prompt, modelConfig)],
                    [Version(1, 1, Published, "", Some(Definition(prompt, "")), config)])
  {
    assert Numbers([], 1) == [] && Max([]) == 0;
  }

  lemma RollbackToOnly(db: Db, agent: Agent, v: Version)
    requires db == Db(map[1 := agent], [v]) && v.agent == 1 && v.status.Published?
    ensures var (after, outcome) := Rollback(db, 1, 0);
            && outcome.Done? && 1 in after.agents
            && after.agents[1].prompt == Applied(agent, v).prompt
            && after.agents[1].modelConfig == Applied(agent, v).modelConfig
  {
  }

  /** An empty model configuration comes back as an empty object. */
  lemma EmptyConfigIsNotRestored()
    ensures var db := FirstPublished(Some("prompt"), "");
            var (after, outcome) := Rollback(db, 1, 0);
            && outcome.Done? && 1 in db.agents && 1 in after.agents
            && db.agents[1].modelConfig == "" && after.agents[1].modelConfig == EMPTY_OBJECT
  {
    FirstVersion(Some("prompt"), "");
    var db := FirstPublished(Some("prompt"), "");
    RollbackToOnly(db, db.agents[1], db.rows[0]);
  }

  /** A prompt set after the draft survives a rollback to a version drafted without one. */
  lemma LaterPromptIsKept(db: Db)
    requires db == Next(FirstPublished(None, "config"), EditAgent(1, Live, Some("later"), "config"))
    ensures var (after, outcome) := Rollback(db, 1, 0);
            && outcome.Done? && 1 in after.agents && |db.rows| == 1
            && db.rows[0].definition == Some(Definition(None, "")) && after.agents[1].prompt == Some("later")
  {
    FirstVersion(None, "config");
    RollbackToOnly(db, Agent(Live, 1, Some("later"), "config"), db.rows[0]);
  }
}
