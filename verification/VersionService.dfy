/** The version service over its two tables, which its methods change in place through the repository calls. */
module VersionService {
  import opened Prelude
  import opened Decimal
  import opened AgentVersions

  class Service {
    var agents: map<nat, Agent>
    var rows: seq<Version>

    function Tables(): Db
      reads this
    {
      Db(agents, rows)
    }

    constructor ()
      ensures Tables() == EMPTY
    {
      agents, rows := map[], [];
    }

    // -------------------------------------------------------------- repository calls

    method FindVersion(id: nat) returns (v: Option<Version>)
      ensures v == if id < |rows| then Some(rows[id]) else None
    {
      if id < |rows| { return Some(rows[id]); }
      v := None;
    }

    method InsertVersion(v: Version) returns (id: nat)
      modifies this`rows
      ensures id == |old(rows)| && Tables() == Insert(old(Tables()), v)
    {
      id := |rows|;
      rows := rows + [Stored(v)];
    }

    method UpdateVersion(id: nat, v: Version)
      requires id < |rows|
      modifies this`rows
      ensures rows == old(rows)[id := Stored(v)]
    {
      rows := rows[id := Stored(v)];
    }

    method PublishVersion(id: nat)
      requires id < |rows|
      modifies this
      ensures Tables() == PublishRow(old(Tables()), id)
    {
      var v := rows[id].(status := Published);
      rows := rows[id := v];
      if v.agent in agents {
        agents := agents[v.agent := agents[v.agent].(currentVersion := v.number, status := Live)];
      }
    }

    method UpdateAgent(a: nat, agent: Agent)
      requires a in agents && agent.currentVersion == agents[a].currentVersion && agent.status == agents[a].status
      modifies this`agents
      ensures agents == old(agents)[a := agent]
    {
      agents := agents[a := agent];
    }

    // -------------------------------------------------------------- service calls

    method DraftVersion(a: nat, description: string, definition: Option<Definition>, config: string)
      returns (outcome: Outcome)
      modifies this
      ensures (Tables(), outcome) == CreateDraft(old(Tables()), a, description, definition, config)
    {
      if a !in agents {
        return Refused(AgentNotFound);
      }
      var current := agents[a];
      if HasDraft(rows, a) {
        return Refused(DraftAlreadyExists);
      }
      var number := NextVersionNumber(rows, a);
      var v := Version(a, number, Draft, description, DefinitionSnapshot(current, definition),
                       ConfigSnapshot(current, config));
      var id := InsertVersion(v);
      outcome := Done(id);
    }

    method EditDraft(id: nat, description: Option<string>, definition: Option<Definition>, config: string)
      returns (outcome: Outcome)
      modifies this
      ensures (Tables(), outcome) == UpdateDraft(old(Tables()), id, description, definition, config)
    {
      var found := FindVersion(id);
      if found.None? {
        return Refused(VersionNotFound);
      }
      var v := found.value;
      if v.status != Draft {
        return Refused(VersionImmutable);
      }
      if description.Some? { v := v.(description := description.value); }
      if definition.Some? { v := v.(definition := definition); }
      if config != "" { v := v.(config := config); }
      UpdateVersion(id, v);
      outcome := Done(id);
    }

    method PublishDraft(id: nat) returns (outcome: Outcome)
      modifies this
      ensures (Tables(), outcome) == Publish(old(Tables()), id)
    {
      var found := FindVersion(id);
      if found.None? {
        return Refused(VersionNotFound);
      }
      if found.value.status != Draft {
        return Refused(VersionImmutable);
      }
      PublishVersion(id);
      outcome := Done(id);
    }

    method RollBack(a: nat, id: nat) returns (outcome: Outcome)
      modifies this
      ensures (Tables(), outcome) == Rollback(old(Tables()), a, id)
    {
      var found := FindVersion(id);
      if found.None? {
        return Refused(VersionNotFound);
      }
      var target := found.value;
      if target.agent != a {
        return Refused(VersionNotFound);
      }
      if target.status != Published {
        return Refused(NotPublished);
      }
      if HasDraft(rows, a) {
        return Refused(RollbackBlockedByDraft);
      }
      var number := NextVersionNumber(rows, a);
      var entry := Version(a, number, Published, "Rollback to version " + Itoa(target.number), target.definition,
                           target.config);
      var created := InsertVersion(entry);
      PublishVersion(created);
      var prompt := if target.definition.Some? then target.definition.value.prompt else None;
      if prompt.Some? || target.config != "" {
        if a !in agents {
          return Refused(AgentNotFound);
        }
        var current := agents[a];
        if prompt.Some? { current := current.(prompt := prompt); }
        if target.config != "" { current := current.(modelConfig := target.config); }
        UpdateAgent(a, current);
      }
      outcome := Done(created);
    }
  }
}
