/**
 * Agent bundles: an agent's skills and tools flattened into lists that refer to each other by slug, and rebuilt from
 * them in another tenant.
 */
module Bundle {
  import opened Prelude
  import opened SkillBindings

  /**
   * `spec` is everything else about a skill or tool that travels in the bundle.  A skill's name is seen through its
   * place in the database's collation order, which is all the listing uses.
   */
  datatype Skill = Skill(id: nat, name: nat, slug: string, spec: string)
  datatype Tool = Tool(id: nat, slug: string, spec: string)

  datatype BundleSkill = BundleSkill(originalId: nat, name: nat, slug: string, spec: string)
  datatype BundleTool = BundleTool(originalId: nat, slug: string, spec: string, skillSlugs: seq<string>)
  datatype AgentBundle = AgentBundle(agent: string, skills: seq<BundleSkill>, tools: seq<BundleTool>)

  /** What the repositories answer about an agent: its skill IDs, those skills, and the tools of each skill. */
  datatype Source = Source(agent: string, skillIds: seq<nat>, skills: seq<Skill>, tools: map<nat, seq<Tool>>)

  // ---------------------------------------------------------------- flattening

  function SlugIn(skills: seq<Skill>, id: nat): string {
    if skills == [] then "" else if Last(skills).id == id then Last(skills).slug else SlugIn(Front(skills), id)
  }

  function ToolsOf(source: Source, skillId: nat): seq<Tool> {
    if skillId in source.tools then source.tools[skillId] else []
  }

  /** A tool met while going through the skills, and the slug of the skill it was met at. */
  datatype Meeting = Meeting(tool: Tool, slug: string)

  function MeetingsAt(tools: seq<Tool>, slug: string): (meetings: seq<Meeting>)
    ensures |meetings| == |tools|
  {
    seq(|tools|, i requires 0 <= i < |tools| => Meeting(tools[i], slug))
  }

  /** The meetings at the first n skills. */
  function Meetings(source: Source, n: nat): seq<Meeting>
    requires n <= |source.skillIds|
  {
    if n == 0 then []
    else
      var id := source.skillIds[n - 1];
      Meetings(source, n - 1) + MeetingsAt(ToolsOf(source, id), SlugIn(source.skills, id))
  }

  function Position(tools: seq<BundleTool>, id: nat): (k: nat)
    ensures k <= |tools| && (k < |tools| ==> tools[k].originalId == id)
    ensures k == |tools| ==> forall i :: 0 <= i < |tools| ==> tools[i].originalId != id
  {
    if tools == [] || tools[0].originalId == id then 0 else 1 + Position(tools[1..], id)
  }

  function AddTool(tools: seq<BundleTool>, m: Meeting): seq<BundleTool> {
    var k := Position(tools, m.tool.id);
    if k < |tools| then tools[k := tools[k].(skillSlugs := tools[k].skillSlugs + [m.slug])]
    else tools + [BundleTool(m.tool.id, m.tool.slug, m.tool.spec, [m.slug])]
  }

  function Collect(meetings: seq<Meeting>): seq<BundleTool> {
    if meetings == [] then [] else AddTool(Collect(Front(meetings)), Last(meetings))
  }

  function BundleSkills(skills: seq<Skill>): (bundled: seq<BundleSkill>)
    ensures |bundled| == |skills|
  {
    seq(|skills|, i requires 0 <= i < |skills| =>
          BundleSkill(skills[i].id, skills[i].name, skills[i].slug, skills[i].spec))
  }

  function Exported(source: Source): AgentBundle {
    AgentBundle(source.agent, if source.skillIds == [] then [] else BundleSkills(source.skills),
                Collect(Meetings(source, |source.skillIds|)))
  }

  /** The slugs of the skills at which a tool was met, in order. */
  function SlugsMet(meetings: seq<Meeting>, id: nat): seq<string> {
    if meetings == [] then []
    else SlugsMet(Front(meetings), id) + (if Last(meetings).tool.id == id then [Last(meetings).slug] else [])
  }

  ghost predicate OncePerTool(tools: seq<BundleTool>) {
    forall i, j :: 0 <= i < j < |tools| ==> tools[i].originalId != tools[j].originalId
  }

  predicate Describes(entry: BundleTool, tool: Tool) {
    entry.originalId == tool.id && entry.slug == tool.slug && entry.spec == tool.spec
  }

  predicate Listed(tools: seq<BundleTool>, id: nat) {
    Position(tools, id) < |tools|
  }

  ghost predicate Described(entry: BundleTool, meetings: seq<Meeting>) {
    exists i :: 0 <= i < |meetings| && Describes(entry, meetings[i].tool)
  }

  ghost predicate SlugsExact(tools: seq<BundleTool>, meetings: seq<Meeting>) {
    forall k :: 0 <= k < |tools| ==> tools[k].skillSlugs == SlugsMet(meetings, tools[k].originalId)
  }

  ghost predicate AllDescribed(tools: seq<BundleTool>, meetings: seq<Meeting>) {
    forall k :: 0 <= k < |tools| ==> Described(tools[k], meetings)
  }

  ghost predicate AllListed(tools: seq<BundleTool>, meetings: seq<Meeting>) {
    forall i :: 0 <= i < |meetings| ==> Listed(tools, meetings[i].tool.id)
  }

  /** Each tool that was met is listed once, with the slugs of exactly the skills where it was met. */
  ghost predicate ListsExactly(tools: seq<BundleTool>, meetings: seq<Meeting>) {
    OncePerTool(tools) && SlugsExact(tools, meetings) && AllDescribed(tools, meetings) && AllListed(tools, meetings)
  }

  lemma PositionIsIndex(tools: seq<BundleTool>, k: nat)
    requires OncePerTool(tools) && k < |tools|
    ensures Position(tools, tools[k].originalId) == k
  {
    var p := Position(tools, tools[k].originalId);
  }

  lemma PositionFound(tools: seq<BundleTool>, k: nat, id: nat)
    requires k < |tools| && tools[k].originalId == id
    ensures Position(tools, id) < |tools|
  {
  }

  lemma {:induction false} NeverMet(tools: seq<BundleTool>, meetings: seq<Meeting>, id: nat)
    requires AllListed(tools, meetings) && !Listed(tools, id)
    ensures SlugsMet(meetings, id) == []
  {
    if meetings != [] { NeverMet(tools, Front(meetings), id); }
  }

  lemma AddToolListed(tools: seq<BundleTool>, m: Meeting, after: seq<BundleTool>, id: nat)
    requires after == AddTool(tools, m) && (Listed(tools, id) || id == m.tool.id)
    ensures Listed(after, id)
  {
    var k, p := Position(tools, m.tool.id), Position(tools, id);
    PositionFound(after, if p < |tools| then p else k, id);
  }

  lemma AddToolSlugs(tools: seq<BundleTool>, meetings: seq<Meeting>, m: Meeting, after: seq<BundleTool>)
    requires ListsExactly(tools, meetings) && after == AddTool(tools, m)
    ensures SlugsExact(after, meetings + [m])
  {
    assert Front(meetings + [m]) == meetings;
    forall k | 0 <= k < |after| ensures after[k].skillSlugs == SlugsMet(meetings + [m], after[k].originalId) {
      if k < |tools| {
        PositionIsIndex(tools, k);
      } else {
        NeverMet(tools, meetings, m.tool.id);
      }
    }
  }

  lemma StillDescribed(entry: BundleTool, slugs: seq<string>, meetings: seq<Meeting>, m: Meeting)
    requires Described(entry, meetings)
    ensures Described(entry.(skillSlugs := slugs), meetings + [m])
  {
    var i :| 0 <= i < |meetings| && Describes(entry, meetings[i].tool);
    assert (meetings + [m])[i] == meetings[i];
  }

  lemma AddToolDescribes(tools: seq<BundleTool>, meetings: seq<Meeting>, m: Meeting, after: seq<BundleTool>)
    requires AllDescribed(tools, meetings) && after == AddTool(tools, m)
    ensures AllDescribed(after, meetings + [m])
  {
    forall k | 0 <= k < |after| ensures Described(after[k], meetings + [m]) {
      if k < |tools| {
        StillDescribed(tools[k], after[k].skillSlugs, meetings, m);
      } else {
        assert (meetings + [m])[|meetings|] == m;
      }
    }
  }

  lemma AddToolKeeps(tools: seq<BundleTool>, meetings: seq<Meeting>, m: Meeting, after: seq<BundleTool>)
    requires ListsExactly(tools, meetings) && after == AddTool(tools, m)
    ensures ListsExactly(after, meetings + [m])
  {
    AddToolSlugs(tools, meetings, m, after);
    AddToolDescribes(tools, meetings, m, after);
    AddToolListsAll(tools, meetings, m, after);
    AddToolOnce(tools, m, after);
  }

  lemma AddToolListsAll(tools: seq<BundleTool>, meetings: seq<Meeting>, m: Meeting, after: seq<BundleTool>)
    requires AllListed(tools, meetings) && after == AddTool(tools, m)
    ensures AllListed(after, meetings + [m])
  {
    var all := meetings + [m];
    forall i | 0 <= i < |all| ensures Listed(after, all[i].tool.id) {
      if i < |meetings| { assert all[i] == meetings[i]; }
      AddToolListed(tools, m, after, all[i].tool.id);
    }
  }

  lemma AddToolOnce(tools: seq<BundleTool>, m: Meeting, after: seq<BundleTool>)
    requires OncePerTool(tools) && after == AddTool(tools, m)
    ensures OncePerTool(after)
  {
  }

  /** Whatever the order of the meetings, collecting them lists each tool once with exactly its slugs. */
  lemma {:induction false} CollectListsExactly(meetings: seq<Meeting>)
    ensures ListsExactly(Collect(meetings), meetings)
  {
    if meetings != [] {
      CollectListsExactly(Front(meetings));
      AddToolKeeps(Collect(Front(meetings)), Front(meetings), Last(meetings), Collect(meetings));
      assert meetings == Front(meetings) + [Last(meetings)];
    }
  }

  // ---------------------------------------------------------------- what a meeting says about the source

  ghost predicate Holds(tools: seq<Tool>, id: nat) {
    exists k :: 0 <= k < |tools| && tools[k].id == id
  }

  /** The skill has the tool. */
  ghost predicate Bound(source: Source, skill: nat, id: nat) {
    skill in source.tools && Holds(source.tools[skill], id)
  }

  /** No skill has a tool bound twice. */
  ghost predicate BoundOnce(source: Source) {
    forall skill :: skill in source.tools ==> DistinctTools(source.tools[skill])
  }

  ghost predicate DistinctTools(tools: seq<Tool>) {
    forall i, j :: 0 <= i < j < |tools| ==> tools[i].id != tools[j].id
  }

  /** The slugs of those among the first n skills that have the tool. */
  ghost function BoundSlugs(source: Source, n: nat, id: nat): seq<string>
    requires n <= |source.skillIds|
  {
    if n == 0 then []
    else
      var skill := source.skillIds[n - 1];
      BoundSlugs(source, n - 1, id)
      + (if Bound(source, skill, id) then [SlugIn(source.skills, skill)] else [])
  }

  lemma {:induction false} SlugsMetConcat(s: seq<Meeting>, t: seq<Meeting>, id: nat)
    ensures SlugsMet(s + t, id) == SlugsMet(s, id) + SlugsMet(t, id)
  {
    if t == [] {
      assert s + t == s && SlugsMet(s, id) + [] == SlugsMet(s, id);
    } else {
      SlugsMetConcat(s, Front(t), id);
      assert Front(s + t) == s + Front(t) && Last(s + t) == Last(t);
      Associate(SlugsMet(s, id), SlugsMet(Front(t), id), if Last(t).tool.id == id then [Last(t).slug] else []);
    }
  }

  lemma {:induction false} SlugsMetAt(tools: seq<Tool>, slug: string, id: nat)
    requires DistinctTools(tools)
    ensures SlugsMet(MeetingsAt(tools, slug), id) == if Holds(tools, id) then [slug] else []
  {
    if tools != [] {
      var front, last := Front(tools), Last(tools);
      assert Front(MeetingsAt(tools, slug)) == MeetingsAt(front, slug);
      SlugsMetAt(front, slug, id);
      if Holds(front, id) {
        var k :| 0 <= k < |front| && front[k].id == id;
        assert tools[k].id == id;
      } else if Holds(tools, id) {
        assert last.id == id;
      }
    }
  }

  lemma SlugsMetStep(before: seq<Meeting>, tools: seq<Tool>, slug: string, id: nat)
    requires DistinctTools(tools)
    ensures SlugsMet(before + MeetingsAt(tools, slug), id)
         == SlugsMet(before, id) + (if Holds(tools, id) then [slug] else [])
  {
    SlugsMetConcat(before, MeetingsAt(tools, slug), id);
    SlugsMetAt(tools, slug, id);
  }

  lemma {:induction false} MeetingsAreBindings(source: Source, n: nat, id: nat)
    requires n <= |source.skillIds| && BoundOnce(source)
    ensures SlugsMet(Meetings(source, n), id) == BoundSlugs(source, n, id)
  {
    if n > 0 {
      var skill, before := source.skillIds[n - 1], Meetings(source, n - 1);
      MeetingsAreBindings(source, n - 1, id);
      var tools, slug := ToolsOf(source, skill), SlugIn(source.skills, skill);
      assert Meetings(source, n) == before + MeetingsAt(tools, slug);
      SlugsMetStep(before, tools, slug, id);
    }
  }

  /** One of the first n skills has the tool. */
  ghost predicate HasTool(source: Source, n: nat, tool: Tool)
    requires n <= |source.skillIds|
  {
    exists s :: 0 <= s < n && source.skillIds[s] in source.tools && tool in source.tools[source.skillIds[s]]
  }

  ghost predicate Met(meetings: seq<Meeting>, tool: Tool) {
    exists i :: 0 <= i < |meetings| && meetings[i].tool == tool
  }

  lemma MetConcat(s: seq<Meeting>, t: seq<Meeting>, tool: Tool)
    ensures Met(s + t, tool) <==> Met(s, tool) || Met(t, tool)
  {
    if i :| 0 <= i < |s| && s[i].tool == tool { assert (s + t)[i].tool == tool; }
    if i :| 0 <= i < |t| && t[i].tool == tool { assert (s + t)[|s| + i].tool == tool; }
    if i :| 0 <= i < |s + t| && (s + t)[i].tool == tool {
      assert if i < |s| then s[i].tool == tool else t[i - |s|].tool == tool;
    }
  }

  lemma MetAt(tools: seq<Tool>, slug: string, tool: Tool)
    ensures Met(MeetingsAt(tools, slug), tool) <==> tool in tools
  {
    if i :| 0 <= i < |tools| && tools[i] == tool { assert MeetingsAt(tools, slug)[i].tool == tool; }
  }

  lemma {:induction false} MeetingsCoverSkills(source: Source, n: nat, tool: Tool)
    requires n <= |source.skillIds|
    ensures Met(Meetings(source, n), tool) <==> HasTool(source, n, tool)
  {
    if n > 0 {
      var skill := source.skillIds[n - 1];
      var tools, slug := ToolsOf(source, skill), SlugIn(source.skills, skill);
      MeetingsCoverSkills(source, n - 1, tool);
      MetConcat(Meetings(source, n - 1), MeetingsAt(tools, slug), tool);
      MetAt(tools, slug, tool);
    }
  }

  /** An entry of the bundle's tool list: a tool of one of the skills, with the slugs of the skills that have it. */
  ghost predicate EntryIsExact(source: Source, entry: BundleTool) {
    && entry.skillSlugs == BoundSlugs(source, |source.skillIds|, entry.originalId)
    && exists t :: HasTool(source, |source.skillIds|, t)
                   && entry.originalId == t.id && entry.slug == t.slug && entry.spec == t.spec
  }

  /**
   * The bundle lists every tool bound to one of the agent's skills exactly once, with the slugs of exactly the skills
   * that have it, in the order of the agent's skills.
   */
  lemma ExportIsExact(source: Source)
    requires BoundOnce(source)
    ensures var tools := Exported(source).tools;
            && OncePerTool(tools)
            && (forall k :: 0 <= k < |tools| ==> EntryIsExact(source, tools[k]))
            && (forall t :: HasTool(source, |source.skillIds|, t) ==> Listed(tools, t.id))
  {
    var n := |source.skillIds|;
    var meetings := Meetings(source, n);
    CollectListsExactly(meetings);
    forall k | 0 <= k < |Collect(meetings)| ensures EntryIsExact(source, Collect(meetings)[k]) {
      EntryOfMeetings(source, meetings, Collect(meetings)[k]);
    }
    forall t | HasTool(source, n, t) ensures Listed(Collect(meetings), t.id) {
      MeetingsCoverSkills(source, n, t);
    }
  }

  lemma EntryOfMeetings(source: Source, meetings: seq<Meeting>, entry: BundleTool)
    requires BoundOnce(source) && meetings == Meetings(source, |source.skillIds|)
    requires entry.skillSlugs == SlugsMet(meetings, entry.originalId) && Described(entry, meetings)
    ensures EntryIsExact(source, entry)
  {
    MeetingsAreBindings(source, |source.skillIds|, entry.originalId);
    var i :| 0 <= i < |meetings| && Describes(entry, meetings[i].tool);
    assert Met(meetings, meetings[i].tool);
    MeetingsCoverSkills(source, |source.skillIds|, meetings[i].tool);
  }

  // ---------------------------------------------------------------- the exporter

  ghost predicate SeenIsIndex(seen: map<nat, nat>, tools: seq<BundleTool>) {
    && (forall id :: id in seen ==> seen[id] < |tools| && tools[seen[id]].originalId == id)
    && (forall k :: 0 <= k < |tools| ==> tools[k].originalId in seen && seen[tools[k].originalId] == k)
  }

  method MeetTool(tools: seq<BundleTool>, seen: map<nat, nat>, t: Tool, slug: string)
    returns (tools': seq<BundleTool>, seen': map<nat, nat>)
    requires SeenIsIndex(seen, tools)
    ensures tools' == AddTool(tools, Meeting(t, slug)) && SeenIsIndex(seen', tools')
  {
    if t.id in seen {
      var k := seen[t.id];
      PositionIsIndex(tools, k);
      return tools[k := tools[k].(skillSlugs := tools[k].skillSlugs + [slug])], seen;
    }
    seen' := seen[t.id := |tools|];
    tools' := tools + [BundleTool(t.id, t.slug, t.spec, [slug])];
    assert forall i :: 0 <= i < |tools| ==> tools[i].originalId in seen;
  }

  /** A Go map answers the empty string for a missing key. */
  function Lookup(slugs: map<nat, string>, id: nat): string {
    if id in slugs then slugs[id] else ""
  }

  method ExportSkills(skills: seq<Skill>) returns (bundleSkills: seq<BundleSkill>, skillIDToSlug: map<nat, string>)
    ensures bundleSkills == BundleSkills(skills)
    ensures forall id :: Lookup(skillIDToSlug, id) == SlugIn(skills, id)
  {
    bundleSkills, skillIDToSlug := [], map[];
    for i := 0 to |skills|
      invariant bundleSkills == BundleSkills(skills[..i])
      invariant forall id :: Lookup(skillIDToSlug, id) == SlugIn(skills[..i], id)
    {
      var s := skills[i];
      assert Front(skills[..i + 1]) == skills[..i];
      bundleSkills := bundleSkills + [BundleSkill(s.id, s.name, s.slug, s.spec)];
      skillIDToSlug := skillIDToSlug[s.id := s.slug];
    }
    assert skills[..|skills|] == skills;
  }

  method MeetTools(tools: seq<BundleTool>, seen: map<nat, nat>, bound: seq<Tool>, slug: string,
                   ghost before: seq<Meeting>)
    returns (tools': seq<BundleTool>, seen': map<nat, nat>)
    requires tools == Collect(before) && SeenIsIndex(seen, tools)
    ensures tools' == Collect(before + MeetingsAt(bound, slug)) && SeenIsIndex(seen', tools')
  {
    tools', seen' := tools, seen;
    assert before + MeetingsAt(bound[..0], slug) == before;
    for k := 0 to |bound|
      invariant tools' == Collect(before + MeetingsAt(bound[..k], slug)) && SeenIsIndex(seen', tools')
    {
      CollectOneMore(before, bound, slug, k);
      tools', seen' := MeetTool(tools', seen', bound[k], slug);
    }
    assert bound[..|bound|] == bound;
  }

  lemma NextMeetings(source: Source, n: nat, slug: string)
    requires n < |source.skillIds| && slug == SlugIn(source.skills, source.skillIds[n])
    ensures Meetings(source, n + 1) == Meetings(source, n) + MeetingsAt(ToolsOf(source, source.skillIds[n]), slug)
  {
  }

  /** The tools of one skill of the agent. */
  method ExportSkillTools(source: Source, n: nat, slug: string, tools: seq<BundleTool>, seen: map<nat, nat>)
    returns (tools': seq<BundleTool>, seen': map<nat, nat>)
    requires n < |source.skillIds| && slug == SlugIn(source.skills, source.skillIds[n])
    requires tools == Collect(Meetings(source, n)) && SeenIsIndex(seen, tools)
    ensures tools' == Collect(Meetings(source, n + 1)) && SeenIsIndex(seen', tools')
  {
    tools', seen' := MeetTools(tools, seen, ToolsOf(source, source.skillIds[n]), slug, Meetings(source, n));
    NextMeetings(source, n, slug);
  }

  method ExportTools(source: Source, skillIDToSlug: map<nat, string>) returns (tools: seq<BundleTool>)
    requires forall n :: 0 <= n < |source.skillIds| ==>
               Lookup(skillIDToSlug, source.skillIds[n]) == SlugIn(source.skills, source.skillIds[n])
    ensures tools == Collect(Meetings(source, |source.skillIds|))
  {
    tools := [];
    var seen: map<nat, nat> := map[];
    for n := 0 to |source.skillIds|
      invariant tools == Collect(Meetings(source, n)) && SeenIsIndex(seen, tools)
    {
      var id := source.skillIds[n];
      var slug := Lookup(skillIDToSlug, id);
      tools, seen := ExportSkillTools(source, n, slug, tools, seen);
    }
  }

  method Export(source: Source) returns (bundle: AgentBundle)
    ensures bundle == Exported(source)
  {
    var bundleSkills: seq<BundleSkill> := [];
    var skillIDToSlug: map<nat, string> := map[];
    if source.skillIds != [] {
      bundleSkills, skillIDToSlug := ExportSkills(source.skills);
    }
    var tools := ExportTools(source, skillIDToSlug);
    bundle := AgentBundle(source.agent, bundleSkills, tools);
  }

  lemma CollectOneMore(before: seq<Meeting>, bound: seq<Tool>, slug: string, k: nat)
    requires k < |bound|
    ensures Collect(before + MeetingsAt(bound[..k + 1], slug))
         == AddTool(Collect(before + MeetingsAt(bound[..k], slug)), Meeting(bound[k], slug))
  {
    var all := before + MeetingsAt(bound[..k + 1], slug);
    assert Front(all) == before + MeetingsAt(bound[..k], slug) && Last(all) == Meeting(bound[k], slug);
  }

  // ---------------------------------------------------------------- rebuilding

  /** The IDs that were given out, of those asked for. */
  function Given(fates: seq<Option<nat>>): seq<nat> {
    if fates == [] then [] else Given(Front(fates)) + (if Last(fates).Some? then [Last(fates).value] else [])
  }

  /** New IDs by slug, after the first n skills. */
  function IdsBySlug(skills: seq<BundleSkill>, fates: seq<Option<nat>>, n: nat): map<string, nat>
    requires n <= |skills| == |fates|
  {
    if n == 0 then map[]
    else
      var before := IdsBySlug(skills, fates, n - 1);
      if fates[n - 1].Some? then before[skills[n - 1].slug := fates[n - 1].value] else before
  }

  /** The bindings made for one tool; `binds` says which attempts to bind succeed. */
  function ToolLinks(slugs: seq<string>, ids: map<string, nat>, tool: nat, binds: (nat, nat) -> bool)
    : set<(nat, nat)>
  {
    if slugs == [] then {}
    else
      var slug := Last(slugs);
      ToolLinks(Front(slugs), ids, tool, binds)
      + (if slug in ids && binds(ids[slug], tool) then {(ids[slug], tool)} else {})
  }

  function Links(tools: seq<BundleTool>, fates: seq<Option<nat>>, ids: map<string, nat>, binds: (nat, nat) -> bool)
    : set<(nat, nat)>
    requires |tools| == |fates|
  {
    if tools == [] then {}
    else
      Links(Front(tools), Front(fates), ids, binds)
      + (if Last(fates).Some? then ToolLinks(Last(tools).skillSlugs, ids, Last(fates).value, binds) else {})
  }

  /** The slugs of the tools that could not be created. */
  function Skipped(tools: seq<BundleTool>, fates: seq<Option<nat>>): seq<string>
    requires |tools| == |fates|
  {
    if tools == [] then []
    else Skipped(Front(tools), Front(fates)) + (if Last(fates).None? then [Last(tools).slug] else [])
  }

  /** The rows written for the skills that could be created, by their new IDs. */
  function SkillRows(skills: seq<BundleSkill>, fates: seq<Option<nat>>): map<nat, Skill>
    requires |skills| == |fates|
  {
    if skills == [] then map[]
    else
      var before, s := SkillRows(Front(skills), Front(fates)), Last(skills);
      match Last(fates)
      case None => before
      case Some(id) => before[id := Skill(id, s.name, s.slug, s.spec)]
  }

  function ToolRows(tools: seq<BundleTool>, fates: seq<Option<nat>>): map<nat, Tool>
    requires |tools| == |fates|
  {
    if tools == [] then map[]
    else
      var before, t := ToolRows(Front(tools), Front(fates)), Last(tools);
      match Last(fates)
      case None => before
      case Some(id) => before[id := Tool(id, t.slug, t.spec)]
  }

  lemma MapUpdated<K, V>(base: map<K, V>, rows: map<K, V>, more: map<K, V>, k: K, v: V)
    requires more == rows[k := v]
    ensures base + more == (base + rows)[k := v]
  {
  }

  datatype ImportResult =
    | Imported(agent: nat, skillsImported: nat, toolsImported: nat, skippedTools: seq<string>)
    | AgentRefused

  class Tenant {
    const bindings: Repository
    /** The skill_tool table: pairs of a skill and a tool. */
    var skillTool: set<(nat, nat)>
    var skills: map<nat, Skill>
    var tools: map<nat, Tool>
    var agents: map<nat, string>

    constructor (bindings: Repository)
      ensures this.bindings == bindings && skillTool == {} && skills == map[] && tools == map[] && agents == map[]
    {
      this.bindings := bindings;
      skillTool, skills, tools, agents := {}, map[], map[], map[];
    }

    method CreateSkills(bundled: seq<BundleSkill>, fates: seq<Option<nat>>)
      returns (newSkillIDs: seq<nat>, skillSlugToID: map<string, nat>)
      requires |bundled| == |fates|
      modifies this`skills, bindings`skills
      ensures newSkillIDs == Given(fates) && skillSlugToID == IdsBySlug(bundled, fates, |bundled|)
      ensures skills == old(skills) + SkillRows(bundled, fates)
      ensures bindings.skills == old(bindings.skills) + (set id | id in Given(fates))
    {
      newSkillIDs, skillSlugToID := [], map[];
      for i := 0 to |bundled|
        invariant newSkillIDs == Given(fates[..i]) && skillSlugToID == IdsBySlug(bundled, fates, i)
        invariant skills == old(skills) + SkillRows(bundled[..i], fates[..i])
        invariant bindings.skills == old(bindings.skills) + (set id | id in Given(fates[..i]))
      {
        assert Front(fates[..i + 1]) == fates[..i] && Front(bundled[..i + 1]) == bundled[..i];
        ghost var rows, more := SkillRows(bundled[..i], fates[..i]), SkillRows(bundled[..i + 1], fates[..i + 1]);
        if fates[i].None? { continue; }
        var created := fates[i].value;
        bindings.skills := bindings.skills + {created};
        var row := Skill(created, bundled[i].name, bundled[i].slug, bundled[i].spec);
        MapUpdated(old(skills), rows, more, created, row);
        skills := skills[created := row];
        newSkillIDs := newSkillIDs + [created];
        skillSlugToID := skillSlugToID[bundled[i].slug := created];
      }
      assert fates[..|bundled|] == fates && bundled[..|bundled|] == bundled;
    }

    method BindTool(slugs: seq<string>, ids: map<string, nat>, tool: nat, binds: (nat, nat) -> bool)
      modifies this`skillTool
      ensures skillTool == old(skillTool) + ToolLinks(slugs, ids, tool, binds)
    {
      for k := 0 to |slugs|
        invariant skillTool == old(skillTool) + ToolLinks(slugs[..k], ids, tool, binds)
      {
        assert Front(slugs[..k + 1]) == slugs[..k];
        if slugs[k] !in ids { continue; }
        var skill := ids[slugs[k]];
        if binds(skill, tool) {
          skillTool := skillTool + {(skill, tool)};
        }
      }
      assert slugs[..|slugs|] == slugs;
    }

    method CreateTools(bundled: seq<BundleTool>, fates: seq<Option<nat>>, ids: map<string, nat>,
                       binds: (nat, nat) -> bool)
      returns (toolsImported: nat, skippedTools: seq<string>)
      requires |bundled| == |fates|
      modifies this`skillTool, this`tools
      ensures skillTool == old(skillTool) + Links(bundled, fates, ids, binds)
      ensures tools == old(tools) + ToolRows(bundled, fates)
      ensures toolsImported == |Given(fates)| && skippedTools == Skipped(bundled, fates)
    {
      toolsImported, skippedTools := 0, [];
      for j := 0 to |bundled|
        invariant skillTool == old(skillTool) + Links(bundled[..j], fates[..j], ids, binds)
        invariant tools == old(tools) + ToolRows(bundled[..j], fates[..j])
        invariant toolsImported == |Given(fates[..j])| && skippedTools == Skipped(bundled[..j], fates[..j])
      {
        assert Front(bundled[..j + 1]) == bundled[..j] && Front(fates[..j + 1]) == fates[..j];
        ghost var rows, more := ToolRows(bundled[..j], fates[..j]), ToolRows(bundled[..j + 1], fates[..j + 1]);
        if fates[j].None? {
          skippedTools := skippedTools + [bundled[j].slug];
          continue;
        }
        toolsImported := toolsImported + 1;
        var row := Tool(fates[j].value, bundled[j].slug, bundled[j].spec);
        MapUpdated(old(tools), rows, more, fates[j].value, row);
        tools := tools[fates[j].value := row];
        BindTool(bundled[j].skillSlugs, ids, fates[j].value, binds);
      }
      assert bundled[..|bundled|] == bundled && fates[..|bundled|] == fates;
    }

    /** The fates say which creations succeed, and with which new ID; `syncUp`, whether the skill sync is written. */
    method Import(bundle: AgentBundle, skillFates: seq<Option<nat>>, agentFate: Option<nat>, syncUp: bool,
                  toolFates: seq<Option<nat>>, binds: (nat, nat) -> bool)
      returns (result: ImportResult)
      requires |skillFates| == |bundle.skills| && |toolFates| == |bundle.tools|
      modifies this, bindings
      ensures skills == old(skills) + SkillRows(bundle.skills, skillFates)
      ensures agentFate.None? ==>
                && result == AgentRefused && skillTool == old(skillTool) && tools == old(tools)
                && agents == old(agents) && bindings.agentSkill == old(bindings.agentSkill)
      ensures agentFate.Some? ==>
                && result == Imported(agentFate.value, |Given(skillFates)|, |Given(toolFates)|,
                                      Skipped(bundle.tools, toolFates))
                && agents == old(agents)[agentFate.value := bundle.agent]
                && tools == old(tools) + ToolRows(bundle.tools, toolFates)
                && skillTool == old(skillTool) + NewLinks(bundle, skillFates, toolFates, binds)
                && bindings.agentSkill == if syncUp && Given(skillFates) != []
                                          then old(bindings.agentSkill)[agentFate.value := Synced(Given(skillFates))]
                                          else old(bindings.agentSkill)
    {
      var newSkillIDs, skillSlugToID := CreateSkills(bundle.skills, skillFates);
      if agentFate.None? {
        return AgentRefused;
      }
      agents := agents[agentFate.value := bundle.agent];
      if |newSkillIDs| > 0 {
        assert forall i :: 0 <= i < |newSkillIDs| ==> newSkillIDs[i] in bindings.skills;
        var ignored := bindings.SyncSkills(agentFate.value, newSkillIDs, syncUp);
      }
      var toolsImported, skippedTools := CreateTools(bundle.tools, toolFates, skillSlugToID, binds);
      result := Imported(agentFate.value, |newSkillIDs|, toolsImported, skippedTools);
    }
  }

  // ---------------------------------------------------------------- the round trip

  ghost predicate DistinctFates(fates: seq<Option<nat>>) {
    forall i, j :: 0 <= i < j < |fates| && fates[i].Some? ==> fates[i] != fates[j]
  }

  ghost predicate DistinctSlugs(skills: seq<BundleSkill>) {
    forall i, j :: 0 <= i < j < |skills| ==> skills[i].slug != skills[j].slug
  }

  lemma {:induction false} SlugFinds(skills: seq<BundleSkill>, fates: seq<Option<nat>>, n: nat, i: nat)
    requires i < n <= |skills| == |fates| && DistinctSlugs(skills)
    ensures var ids := IdsBySlug(skills, fates, n);
            if fates[i].Some? then skills[i].slug in ids && ids[skills[i].slug] == fates[i].value
            else skills[i].slug !in ids
  {
    if i < n - 1 {
      SlugFinds(skills, fates, n - 1, i);
    } else {
      SlugUnknown(skills, fates, n - 1, skills[i].slug);
    }
  }

  lemma {:induction false} SlugUnknown(skills: seq<BundleSkill>, fates: seq<Option<nat>>, n: nat, slug: string)
    requires n <= |skills| == |fates| && forall i :: 0 <= i < n ==> skills[i].slug != slug
    ensures slug !in IdsBySlug(skills, fates, n)
  {
    if n > 0 { SlugUnknown(skills, fates, n - 1, slug); }
  }

  /** Every entry of the slug table comes from a skill that was created. */
  lemma {:induction false} SlugComesFrom(skills: seq<BundleSkill>, fates: seq<Option<nat>>, n: nat, slug: string)
    requires n <= |skills| == |fates| && slug in IdsBySlug(skills, fates, n)
    ensures exists i :: 0 <= i < n && skills[i].slug == slug && fates[i] == Some(IdsBySlug(skills, fates, n)[slug])
  {
    if !(fates[n - 1].Some? && skills[n - 1].slug == slug) { SlugComesFrom(skills, fates, n - 1, slug); }
  }

  lemma {:induction false} ToolLinksExactly(slugs: seq<string>, ids: map<string, nat>, tool: nat,
                                            binds: (nat, nat) -> bool, link: (nat, nat))
    ensures link in ToolLinks(slugs, ids, tool, binds) <==>
            && link.1 == tool && binds(link.0, tool)
            && exists k :: 0 <= k < |slugs| && slugs[k] in ids && ids[slugs[k]] == link.0
  {
    if slugs != [] {
      var front := Front(slugs);
      ToolLinksExactly(front, ids, tool, binds, link);
      if k :| 0 <= k < |front| && front[k] in ids && ids[front[k]] == link.0 { assert slugs[k] == front[k]; }
      if k :| 0 <= k < |slugs| && slugs[k] in ids && ids[slugs[k]] == link.0 {
        if k < |front| { assert front[k] == slugs[k]; }
      }
    }
  }

  lemma {:induction false} LinksExactly(tools: seq<BundleTool>, fates: seq<Option<nat>>, ids: map<string, nat>,
                                        binds: (nat, nat) -> bool, link: (nat, nat))
    requires |tools| == |fates|
    ensures link in Links(tools, fates, ids, binds) <==>
            exists j :: 0 <= j < |tools| && fates[j].Some?
                        && link in ToolLinks(tools[j].skillSlugs, ids, fates[j].value, binds)
  {
    if tools != [] {
      var front, frontFates := Front(tools), Front(fates);
      LinksExactly(front, frontFates, ids, binds, link);
      if j :| 0 <= j < |front| && frontFates[j].Some?
              && link in ToolLinks(front[j].skillSlugs, ids, frontFates[j].value, binds) {
        assert tools[j] == front[j] && fates[j] == frontFates[j];
      }
      if j :| 0 <= j < |tools| && fates[j].Some?
              && link in ToolLinks(tools[j].skillSlugs, ids, fates[j].value, binds) {
        if j < |front| { assert tools[j] == front[j] && fates[j] == frontFates[j]; }
      }
    }
  }

  /** The skills of the source are those of the agent, under different IDs and slugs. */
  ghost predicate SkillsMatch(source: Source) {
    && (forall i, j :: 0 <= i < j < |source.skills| ==>
          source.skills[i].id != source.skills[j].id && source.skills[i].slug != source.skills[j].slug)
    && (forall id :: id in source.skillIds <==> exists i :: 0 <= i < |source.skills| && source.skills[i].id == id)
  }

  lemma {:induction false} SlugOfSkill(skills: seq<Skill>, i: nat)
    requires i < |skills| && forall a, b :: 0 <= a < b < |skills| ==> skills[a].id != skills[b].id
    ensures SlugIn(skills, skills[i].id) == skills[i].slug
  {
    if i < |skills| - 1 { SlugOfSkill(Front(skills), i); }
  }

  lemma {:induction false} BoundSlugsMembers(source: Source, n: nat, id: nat, slug: string)
    requires n <= |source.skillIds|
    ensures slug in BoundSlugs(source, n, id) <==>
            exists s :: 0 <= s < n && Bound(source, source.skillIds[s], id)
                        && SlugIn(source.skills, source.skillIds[s]) == slug
  {
    if n > 0 { BoundSlugsMembers(source, n - 1, id, slug); }
  }

  /** A tool's entry carries the slug of a skill exactly if that skill has the tool. */
  lemma EntryNamesSkill(source: Source, i: nat, k: nat)
    requires BoundOnce(source) && SkillsMatch(source)
    requires i < |source.skills| && k < |Exported(source).tools|
    ensures var entry := Exported(source).tools[k];
            source.skills[i].slug in entry.skillSlugs <==>
            Bound(source, source.skills[i].id, entry.originalId)
  {
    var skill, entry, n := source.skills[i], Exported(source).tools[k], |source.skillIds|;
    ExportIsExact(source);
    BoundSlugsMembers(source, n, entry.originalId, skill.slug);
    SlugOfSkill(source.skills, i);
    if s :| 0 <= s < n && Bound(source, source.skillIds[s], entry.originalId)
            && SlugIn(source.skills, source.skillIds[s]) == skill.slug {
      assert source.skillIds[s] in source.skillIds;
      var j :| 0 <= j < |source.skills| && source.skills[j].id == source.skillIds[s];
      SlugOfSkill(source.skills, j);
      assert j == i;
    }
    if Bound(source, skill.id, entry.originalId) {
      assert skill.id in source.skillIds;
      var s :| 0 <= s < n && source.skillIds[s] == skill.id;
    }
  }

  /** The bindings an import of the bundle makes. */
  function NewLinks(bundle: AgentBundle, skillFates: seq<Option<nat>>, toolFates: seq<Option<nat>>,
                    binds: (nat, nat) -> bool): set<(nat, nat)>
    requires |skillFates| == |bundle.skills| && |toolFates| == |bundle.tools|
  {
    Links(bundle.tools, toolFates, IdsBySlug(bundle.skills, skillFates, |bundle.skills|), binds)
  }

  lemma LinkMade(bundle: AgentBundle, skillFates: seq<Option<nat>>, toolFates: seq<Option<nat>>,
                 binds: (nat, nat) -> bool, i: nat, j: nat)
    requires |skillFates| == |bundle.skills| && |toolFates| == |bundle.tools| && i < |skillFates| && j < |toolFates|
    requires DistinctSlugs(bundle.skills) && DistinctFates(skillFates) && DistinctFates(toolFates)
    requires skillFates[i].Some? && toolFates[j].Some?
    ensures (skillFates[i].value, toolFates[j].value) in NewLinks(bundle, skillFates, toolFates, binds) <==>
            binds(skillFates[i].value, toolFates[j].value) && bundle.skills[i].slug in bundle.tools[j].skillSlugs
  {
    var ids := IdsBySlug(bundle.skills, skillFates, |bundle.skills|);
    var link, slugs := (skillFates[i].value, toolFates[j].value), bundle.tools[j].skillSlugs;
    LinksExactly(bundle.tools, toolFates, ids, binds, link);
    forall k | 0 <= k < |bundle.tools| && toolFates[k].Some?
      ensures link in ToolLinks(bundle.tools[k].skillSlugs, ids, toolFates[k].value, binds) ==> k == j
    {
      ToolLinksExactly(bundle.tools[k].skillSlugs, ids, toolFates[k].value, binds, link);
    }
    ToolLinksExactly(slugs, ids, toolFates[j].value, binds, link);
    SlugFinds(bundle.skills, skillFates, |bundle.skills|, i);
    forall k | 0 <= k < |slugs| && slugs[k] in ids && ids[slugs[k]] == link.0
      ensures slugs[k] == bundle.skills[i].slug
    {
      SlugComesFrom(bundle.skills, skillFates, |bundle.skills|, slugs[k]);
    }
  }

  lemma LinkComesFrom(bundle: AgentBundle, skillFates: seq<Option<nat>>, toolFates: seq<Option<nat>>,
                      binds: (nat, nat) -> bool, link: (nat, nat))
    requires |skillFates| == |bundle.skills| && |toolFates| == |bundle.tools|
    requires link in NewLinks(bundle, skillFates, toolFates, binds)
    ensures Some(link.0) in skillFates && Some(link.1) in toolFates
  {
    var ids := IdsBySlug(bundle.skills, skillFates, |bundle.skills|);
    LinksExactly(bundle.tools, toolFates, ids, binds, link);
    var j :| 0 <= j < |bundle.tools| && toolFates[j].Some?
             && link in ToolLinks(bundle.tools[j].skillSlugs, ids, toolFates[j].value, binds);
    ToolLinksExactly(bundle.tools[j].skillSlugs, ids, toolFates[j].value, binds, link);
    var k :| 0 <= k < |bundle.tools[j].skillSlugs| && bundle.tools[j].skillSlugs[k] in ids
             && ids[bundle.tools[j].skillSlugs[k]] == link.0;
    SlugComesFrom(bundle.skills, skillFates, |bundle.skills|, bundle.tools[j].skillSlugs[k]);
  }

  /** Whether skill i of the bundle has tool j in the source. */
  ghost predicate BoundInSource(source: Source, bundle: AgentBundle, i: nat, j: nat)
    requires i < |bundle.skills| && j < |bundle.tools|
  {
    Bound(source, bundle.skills[i].originalId, bundle.tools[j].originalId)
  }

  lemma ExportedSkills(source: Source)
    requires SkillsMatch(source)
    ensures DistinctSlugs(Exported(source).skills) && |Exported(source).skills| == |source.skills|
    ensures forall i :: 0 <= i < |source.skills| ==>
              Exported(source).skills[i].slug == source.skills[i].slug
              && Exported(source).skills[i].originalId == source.skills[i].id
  {
    if source.skills != [] { assert source.skills[0].id in source.skillIds; }
  }

  lemma LinkIsBinding(source: Source, bundle: AgentBundle, skillFates: seq<Option<nat>>,
                      toolFates: seq<Option<nat>>, binds: (nat, nat) -> bool, i: nat, j: nat)
    requires BoundOnce(source) && SkillsMatch(source) && bundle == Exported(source)
    requires |skillFates| == |bundle.skills| && |toolFates| == |bundle.tools| && i < |skillFates| && j < |toolFates|
    requires DistinctFates(skillFates) && DistinctFates(toolFates)
    requires skillFates[i].Some? && toolFates[j].Some?
    ensures (skillFates[i].value, toolFates[j].value) in NewLinks(bundle, skillFates, toolFates, binds) <==>
            binds(skillFates[i].value, toolFates[j].value) && BoundInSource(source, bundle, i, j)
  {
    ExportedSkills(source);
    LinkMade(bundle, skillFates, toolFates, binds, i, j);
    EntryNamesSkill(source, i, j);
  }

  /**
   * Export, then import: the new skill-tool relation is the old one restricted to the skills and tools that could be
   * created (and to the bindings that could be written).  Skill i and tool j of the bundle, both created, are bound in
   * the new tenant exactly if their originals were; and nothing else is bound.
   */
  lemma RoundTrip(source: Source, bundle: AgentBundle, skillFates: seq<Option<nat>>, toolFates: seq<Option<nat>>,
                  binds: (nat, nat) -> bool)
    requires BoundOnce(source) && SkillsMatch(source) && bundle == Exported(source)
    requires |skillFates| == |bundle.skills| && |toolFates| == |bundle.tools|
    requires DistinctFates(skillFates) && DistinctFates(toolFates)
    ensures forall i, j :: 0 <= i < |skillFates| && 0 <= j < |toolFates|
                           && skillFates[i].Some? && toolFates[j].Some? ==>
              ((skillFates[i].value, toolFates[j].value) in NewLinks(bundle, skillFates, toolFates, binds) <==>
               binds(skillFates[i].value, toolFates[j].value) && BoundInSource(source, bundle, i, j))
    ensures forall link :: link in NewLinks(bundle, skillFates, toolFates, binds) ==>
              Some(link.0) in skillFates && Some(link.1) in toolFates
  {
    forall i, j | 0 <= i < |skillFates| && 0 <= j < |toolFates| && skillFates[i].Some? && toolFates[j].Some?
      ensures (skillFates[i].value, toolFates[j].value) in NewLinks(bundle, skillFates, toolFates, binds) <==>
              binds(skillFates[i].value, toolFates[j].value) && BoundInSource(source, bundle, i, j)
    {
      LinkIsBinding(source, bundle, skillFates, toolFates, binds, i, j);
    }
    forall link | link in NewLinks(bundle, skillFates, toolFates, binds)
      ensures Some(link.0) in skillFates && Some(link.1) in toolFates
    {
      LinkComesFrom(bundle, skillFates, toolFates, binds, link);
    }
  }

  // ---------------------------------------------------------------- what the entities carry

  /** The bundle carries the agent, and the skills of the source one by one with their names, slugs and contents. */
  lemma ExportCarries(source: Source)
    ensures var bundle := Exported(source);
            && bundle.agent == source.agent
            && (source.skillIds == [] ==> bundle.skills == [] && bundle.tools == [])
            && (source.skillIds != [] ==>
                  && |bundle.skills| == |source.skills|
                  && forall i :: 0 <= i < |source.skills| ==>
                       var entry, skill := bundle.skills[i], source.skills[i];
                       entry.originalId == skill.id && entry.name == skill.name && entry.slug == skill.slug
                       && entry.spec == skill.spec)
  {
  }

  lemma {:induction false} SkillRowAt(skills: seq<BundleSkill>, fates: seq<Option<nat>>, i: nat)
    requires |skills| == |fates| && DistinctFates(fates) && i < |fates| && fates[i].Some?
    ensures var id, rows := fates[i].value, SkillRows(skills, fates);
            id in rows && rows[id] == Skill(id, skills[i].name, skills[i].slug, skills[i].spec)
  {
    if i < |skills| - 1 { SkillRowAt(Front(skills), Front(fates), i); }
  }

  lemma {:induction false} ToolRowAt(tools: seq<BundleTool>, fates: seq<Option<nat>>, j: nat)
    requires |tools| == |fates| && DistinctFates(fates) && j < |fates| && fates[j].Some?
    ensures var id, rows := fates[j].value, ToolRows(tools, fates);
            id in rows && rows[id] == Tool(id, tools[j].slug, tools[j].spec)
  {
    if j < |tools| - 1 { ToolRowAt(Front(tools), Front(fates), j); }
  }

  lemma {:induction false} RowsAreGiven(skills: seq<BundleSkill>, tools: seq<BundleTool>, skillFates: seq<Option<nat>>,
                                        toolFates: seq<Option<nat>>)
    requires |skills| == |skillFates| && |tools| == |toolFates|
    ensures forall id :: id in SkillRows(skills, skillFates) ==> Some(id) in skillFates
    ensures forall id :: id in ToolRows(tools, toolFates) ==> Some(id) in toolFates
    decreases |skills| + |tools|
  {
    if skills != [] {
      RowsAreGiven(Front(skills), tools, Front(skillFates), toolFates);
      assert skillFates == Front(skillFates) + [Last(skillFates)];
    } else if tools != [] {
      RowsAreGiven(skills, Front(tools), skillFates, Front(toolFates));
      assert toolFates == Front(toolFates) + [Last(toolFates)];
    }
  }

  /**
   * Export, then import: every skill that could be created is the original one under its new ID, every tool that could
   * be created is a tool of one of the agent's skills under its new ID, and nothing else is created.
   */
  lemma ContentsTravel(source: Source, bundle: AgentBundle, skillFates: seq<Option<nat>>, toolFates: seq<Option<nat>>)
    requires BoundOnce(source) && SkillsMatch(source) && bundle == Exported(source)
    requires |skillFates| == |bundle.skills| && |toolFates| == |bundle.tools|
    requires DistinctFates(skillFates) && DistinctFates(toolFates)
    ensures |bundle.skills| == |source.skills|
    ensures var rows := SkillRows(bundle.skills, skillFates);
            && (forall i :: 0 <= i < |skillFates| && skillFates[i].Some? ==>
                  var id := skillFates[i].value; id in rows && rows[id] == source.skills[i].(id := id))
            && (forall id :: id in rows ==> Some(id) in skillFates)
    ensures var rows := ToolRows(bundle.tools, toolFates);
            && (forall j :: 0 <= j < |toolFates| && toolFates[j].Some? ==>
                  toolFates[j].value in rows && ComesFrom(source, bundle.tools[j].originalId, rows[toolFates[j].value]))
            && (forall id :: id in rows ==> Some(id) in toolFates)
  {
    ExportedSkills(source);
    ExportCarries(source);
    ExportIsExact(source);
    RowsAreGiven(bundle.skills, bundle.tools, skillFates, toolFates);
    forall i | 0 <= i < |skillFates| && skillFates[i].Some?
      ensures var id, rows := skillFates[i].value, SkillRows(bundle.skills, skillFates);
              id in rows && rows[id] == source.skills[i].(id := id)
    {
      SkillRowAt(bundle.skills, skillFates, i);
    }
    forall j | 0 <= j < |toolFates| && toolFates[j].Some?
      ensures var id, rows := toolFates[j].value, ToolRows(bundle.tools, toolFates);
              id in rows && ComesFrom(source, bundle.tools[j].originalId, rows[id])
    {
      ToolRowAt(bundle.tools, toolFates, j);
      assert EntryIsExact(source, bundle.tools[j]);
    }
  }

  /** The row holds what the original tool held. */
  ghost predicate ComesFrom(source: Source, originalId: nat, row: Tool) {
    exists t :: HasTool(source, |source.skillIds|, t) && t.id == originalId && row == t.(id := row.id)
  }

  lemma {:induction false} GivenDistinct(fates: seq<Option<nat>>)
    requires DistinctFates(fates)
    ensures Distinct(Given(fates)) && forall id :: id in Given(fates) ==> Some(id) in fates
  {
    if fates != [] {
      GivenDistinct(Front(fates));
      assert forall f :: f in Front(fates) ==> f in fates;
      if Last(fates).Some? {
        var given := Given(Front(fates));
        forall i | 0 <= i < |given| ensures given[i] != Last(fates).value {
          assert given[i] in given && Some(given[i]) in Front(fates);
        }
      }
    }
  }

  /** After a successful sync the new agent's skills are listed in bundle order. */
  lemma ImportListsInBundleOrder(fates: seq<Option<nat>>)
    requires DistinctFates(fates)
    ensures Listing(Synced(Given(fates))) == Given(fates)
  {
    GivenDistinct(fates);
    SyncedListsInOrder(Given(fates));
    LastPlacesOfDistinct(Given(fates));
  }

  ghost predicate FailedWith(tools: seq<BundleTool>, fates: seq<Option<nat>>, slug: string)
    requires |tools| == |fates|
  {
    exists j :: 0 <= j < |tools| && tools[j].slug == slug && fates[j].None?
  }

  lemma FailedSnoc(tools: seq<BundleTool>, fates: seq<Option<nat>>, slug: string)
    requires |tools| == |fates| && tools != []
    ensures FailedWith(tools, fates, slug) <==>
            FailedWith(Front(tools), Front(fates), slug) || (Last(tools).slug == slug && Last(fates).None?)
  {
    var front, frontFates := Front(tools), Front(fates);
    if j :| 0 <= j < |front| && front[j].slug == slug && frontFates[j].None? {
      assert tools[j].slug == slug && fates[j].None?;
    }
    if j :| 0 <= j < |tools| && tools[j].slug == slug && fates[j].None? {
      if j < |front| { assert front[j].slug == slug && frontFates[j].None?; }
    }
    if Last(tools).slug == slug && Last(fates).None? { assert tools[|front|].slug == slug && fates[|front|].None?; }
  }

  /** A tool is either created or reported as skipped, never both. */
  lemma {:induction false} SkippedAreTheRest(tools: seq<BundleTool>, fates: seq<Option<nat>>, slug: string)
    requires |tools| == |fates|
    ensures |Given(fates)| + |Skipped(tools, fates)| == |tools|
    ensures slug in Skipped(tools, fates) <==> FailedWith(tools, fates, slug)
  {
    if tools != [] {
      SkippedAreTheRest(Front(tools), Front(fates), slug);
      FailedSnoc(tools, fates, slug);
    }
  }
}
