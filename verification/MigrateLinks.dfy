/**
 The link migration's planner and executor (scripts/migrate-links.ts).

 A link's outward end is its implementer and its inward end its boss; an issue's own row shows
 the other end, labelled by the role that end has.
 */
module MigrateLinks {
  import opened Wrappers

  type Key = string
  type LinkId = string

  datatype Direction = Inward | Outward
  datatype LinkRow = LinkRow(id: LinkId, typ: string, direction: Direction, key: Key)

  datatype Ticket = Ticket(issuetype: string, statusCategory: string, parent: Option<Key>, summary: string)
  datatype Issue = Issue(key: Key, ticket: Ticket, issuelinks: seq<LinkRow>)

  datatype Action =
    | AddImplements(ticket: Key, otherEnd: Key)
    | DeleteRelates(ticket: Key, otherEnd: Key, linkId: LinkId)
    | DeleteBackwards(ticket: Key, otherEnd: Key, linkId: LinkId)

  datatype Plan = Plan(actions: seq<Action>, unresolved: seq<Key>)

  // ---------- lookups ----------

  predicate IsOpen(issue: Issue) { issue.ticket.statusCategory != "Done" }

  /** Epic > Story > Task; other types have no level. */
  function LevelOf(ticket: Ticket): Option<int> {
    if ticket.issuetype == "Epic" then Some(2)
    else if ticket.issuetype == "Story" then Some(1)
    else if ticket.issuetype == "Task" then Some(0)
    else None
  }

  /** Epics, stories and tasks rank, no other type does, and a task is below a story and both are below an epic. */
  lemma RanksExactly(low: Ticket, high: Ticket)
    ensures LevelOf(low).Some? <==> low.issuetype in {"Epic", "Story", "Task"}
    ensures LevelOf(low).Some? && LevelOf(high).Some? && LevelOf(low).value < LevelOf(high).value <==>
            (low.issuetype, high.issuetype) in {("Task", "Story"), ("Task", "Epic"), ("Story", "Epic")}
  {
  }

  /** The source's key map: for a repeated key the last issue wins. */
  function Lookup(issues: seq<Issue>, key: Key): Option<Issue> {
    if issues == [] then None
    else if issues[|issues| - 1].key == key then Some(issues[|issues| - 1])
    else Lookup(issues[..|issues| - 1], key)
  }

  function OpenOnes(issues: seq<Issue>): seq<Issue> {
    if issues == [] then []
    else OpenOnes(issues[..|issues| - 1]) + (if IsOpen(issues[|issues| - 1]) then [issues[|issues| - 1]] else [])
  }

  predicate ImplementsBoss(issue: Issue, boss: Key) {
    exists i :: 0 <= i < |issue.issuelinks| && issue.issuelinks[i].typ == "Implements"
      && issue.issuelinks[i].direction == Inward && issue.issuelinks[i].key == boss
  }

  function RelatesTo(rows: seq<LinkRow>, other: Key): Option<LinkRow> {
    if rows == [] then None
    else if rows[0].typ == "Relates" && rows[0].key == other then Some(rows[0])
    else RelatesTo(rows[1..], other)
  }

  predicate NamesStory(byKey: seq<Issue>, key: Key) {
    var found := Lookup(byKey, key);
    found.Some? && found.value.ticket.issuetype == "Story"
  }

  function FirstBossStory(rows: seq<LinkRow>, byKey: seq<Issue>): Option<Key> {
    if rows == [] then None
    else if rows[0].typ == "Implements" && rows[0].direction == Inward && NamesStory(byKey, rows[0].key) then Some(rows[0].key)
    else FirstBossStory(rows[1..], byKey)
  }

  function FirstRelatedStory(rows: seq<LinkRow>, byKey: seq<Issue>): Option<Key> {
    if rows == [] then None
    else if rows[0].typ == "Relates" && NamesStory(byKey, rows[0].key) then Some(rows[0].key)
    else FirstRelatedStory(rows[1..], byKey)
  }

  function DigitsFrom(s: string, i: nat): nat
    requires i <= |s|
    ensures i + DigitsFrom(s, i) <= |s|
    decreases |s| - i
  {
    if i < |s| && '0' <= s[i] <= '9' then 1 + DigitsFrom(s, i + 1) else 0
  }

  /** The `[KAN-nnn]` prefix of a summary. */
  function SummaryKey(summary: string): Option<Key> {
    if |summary| < 5 || summary[..5] != "[KAN-" then None
    else
      var n := DigitsFrom(summary, 5);
      if n > 0 && 5 + n < |summary| && summary[5 + n] == ']' then Some(summary[1..5 + n]) else None
  }

  /** Existing Implements, then Relates, then the summary prefix. `byKey` holds open issues only. */
  function ResolveOwningStory(task: Issue, byKey: seq<Issue>): Option<Key> {
    var boss := FirstBossStory(task.issuelinks, byKey);
    if boss.Some? then boss
    else
      var related := FirstRelatedStory(task.issuelinks, byKey);
      if related.Some? then related
      else
        var named := SummaryKey(task.ticket.summary);
        if named.Some? && NamesStory(byKey, named.value) then named else None
  }

  // ---------- the plan ----------

  function StoryActions(issue: Issue): seq<Action> {
    if issue.ticket.issuetype == "Story" && issue.ticket.parent.Some? && issue.ticket.parent.value != ""
       && !ImplementsBoss(issue, issue.ticket.parent.value)
    then [AddImplements(issue.key, issue.ticket.parent.value)] else []
  }

  function TaskActions(issue: Issue, byKey: seq<Issue>): seq<Action> {
    if issue.ticket.issuetype != "Task" then []
    else
      match ResolveOwningStory(issue, byKey)
      case None => []
      case Some(story) =>
        ReplaceRelates(issue.key, story, ImplementsBoss(issue, story), RelatesTo(issue.issuelinks, story))
  }

  /** Add the Implements link unless it is there already, and drop the Relates link it replaces. */
  function ReplaceRelates(task: Key, story: Key, already: bool, relates: Option<LinkRow>): seq<Action> {
    (if already then [] else [AddImplements(task, story)])
    + (if relates.Some? then [DeleteRelates(task, story, relates.value.id)] else [])
  }

  function AllStoryActions(issues: seq<Issue>): seq<Action> {
    if issues == [] then [] else AllStoryActions(issues[..|issues| - 1]) + StoryActions(issues[|issues| - 1])
  }

  function AllTaskActions(issues: seq<Issue>, byKey: seq<Issue>): seq<Action> {
    if issues == [] then []
    else AllTaskActions(issues[..|issues| - 1], byKey) + TaskActions(issues[|issues| - 1], byKey)
  }

  function UnresolvedTasks(issues: seq<Issue>, byKey: seq<Issue>): seq<Key> {
    if issues == [] then []
    else
      var last := issues[|issues| - 1];
      UnresolvedTasks(issues[..|issues| - 1], byKey)
      + (if last.ticket.issuetype == "Task" && ResolveOwningStory(last, byKey).None? then [last.key] else [])
  }

  /** What the backwards scan has found and which link ids it is done with. */
  datatype Scan = Scan(actions: seq<Action>, unresolved: seq<Key>, seen: set<LinkId>)

  function Implementer(owner: Issue, row: LinkRow): Key { if row.direction == Outward then row.key else owner.key }

  function Boss(owner: Issue, row: LinkRow): Key { if row.direction == Outward then owner.key else row.key }

  function KnownLevel(byKeyAll: seq<Issue>, key: Key): Option<int> {
    var found := Lookup(byKeyAll, key);
    if found.Some? then LevelOf(found.value.ticket) else None
  }

  function ScanRow(scan: Scan, owner: Issue, row: LinkRow, all: seq<Issue>): Scan {
    if row.typ != "Implements" || row.id in scan.seen then scan
    else
      var low, high := Implementer(owner, row), Boss(owner, row);
      var lowLevel, highLevel := KnownLevel(all, low), KnownLevel(all, high);
      if lowLevel.None? || highLevel.None? then
        scan.(unresolved := scan.unresolved + [owner.key], seen := scan.seen + {row.id})
      else if lowLevel.value < highLevel.value then scan
      else if !ImplementsBoss(Lookup(all, high).value, low) then
        scan.(unresolved := scan.unresolved + [owner.key], seen := scan.seen + {row.id})
      else
        scan.(actions := scan.actions + [DeleteBackwards(low, high, row.id)], seen := scan.seen + {row.id})
  }

  function ScanRows(scan: Scan, owner: Issue, rows: seq<LinkRow>, all: seq<Issue>): Scan {
    if rows == [] then scan
    else ScanRow(ScanRows(scan, owner, rows[..|rows| - 1], all), owner, rows[|rows| - 1], all)
  }

  function ScanOwners(owners: seq<Issue>, all: seq<Issue>): Scan {
    if owners == [] then Scan([], [], {})
    else
      var last := owners[|owners| - 1];
      ScanRows(ScanOwners(owners[..|owners| - 1], all), last, last.issuelinks, all)
  }

  function PlanOf(all: seq<Issue>): Plan {
    var open := OpenOnes(all);
    var scan := ScanOwners(all, all);
    Plan(AllStoryActions(open) + AllTaskActions(open, open) + scan.actions,
         UnresolvedTasks(open, open) + scan.unresolved)
  }

  /** `planBackwardsImplements`: every row of every issue, Done included. */
  method PlanBackwardsImplements(all: seq<Issue>) returns (actions: seq<Action>, unresolved: seq<Key>)
    ensures actions == ScanOwners(all, all).actions && unresolved == ScanOwners(all, all).unresolved
  {
    actions, unresolved := [], [];
    var seen: set<LinkId> := {};
    for o := 0 to |all|
      invariant Scan(actions, unresolved, seen) == ScanOwners(all[..o], all)
    {
      var owner := all[o];
      assert all[..o + 1][..o] == all[..o];
      ghost var before := Scan(actions, unresolved, seen);
      for i := 0 to |owner.issuelinks|
        invariant Scan(actions, unresolved, seen) == ScanRows(before, owner, owner.issuelinks[..i], all)
      {
        assert owner.issuelinks[..i + 1][..i] == owner.issuelinks[..i];
        var l := owner.issuelinks[i];
        if l.typ != "Implements" || l.id in seen { continue; }
        var implementer, boss := Implementer(owner, l), Boss(owner, l);
        var implementerLevel, bossLevel := KnownLevel(all, implementer), KnownLevel(all, boss);
        if implementerLevel.None? || bossLevel.None? {
          seen := seen + {l.id};
          unresolved := unresolved + [owner.key];
          continue;
        }
        if implementerLevel.value < bossLevel.value { continue; }
        seen := seen + {l.id};
        if !ImplementsBoss(Lookup(all, boss).value, implementer) {
          unresolved := unresolved + [owner.key];
          continue;
        }
        actions := actions + [DeleteBackwards(implementer, boss, l.id)];
      }
      assert owner.issuelinks[..|owner.issuelinks|] == owner.issuelinks;
    }
    assert all[..|all|] == all;
  }

  method PlanStories(open: seq<Issue>) returns (actions: seq<Action>)
    ensures actions == AllStoryActions(open)
  {
    actions := [];
    for i := 0 to |open|
      invariant actions == AllStoryActions(open[..i])
    {
      assert open[..i + 1][..i] == open[..i];
      var story := open[i];
      if story.ticket.issuetype != "Story" || story.ticket.parent.None? || story.ticket.parent.value == "" { continue; }
      if !ImplementsBoss(story, story.ticket.parent.value) {
        actions := actions + [AddImplements(story.key, story.ticket.parent.value)];
      }
    }
    assert open[..|open|] == open;
  }

  lemma TaskLists(open: seq<Issue>, i: nat)
    requires i < |open|
    ensures AllTaskActions(open[..i + 1], open) == AllTaskActions(open[..i], open) + TaskActions(open[i], open)
    ensures UnresolvedTasks(open[..i + 1], open) == UnresolvedTasks(open[..i], open)
      + (if open[i].ticket.issuetype == "Task" && ResolveOwningStory(open[i], open).None? then [open[i].key] else [])
  {
    assert open[..i + 1][..i] == open[..i];
  }

  method PlanTasks(open: seq<Issue>) returns (actions: seq<Action>, unresolved: seq<Key>)
    ensures actions == AllTaskActions(open, open) && unresolved == UnresolvedTasks(open, open)
  {
    actions, unresolved := [], [];
    assert AllTaskActions(open[..0], open) == [] && UnresolvedTasks(open[..0], open) == [];
    hide ResolveOwningStory, RelatesTo, ImplementsBoss, AllTaskActions, UnresolvedTasks;
    for i := 0 to |open|
      invariant actions == AllTaskActions(open[..i], open)
      invariant unresolved == UnresolvedTasks(open[..i], open)
    {
      TaskLists(open, i);
      var task := open[i];
      if task.ticket.issuetype != "Task" { continue; }
      var resolution := ResolveOwningStory(task, open);
      if resolution.None? {
        unresolved := unresolved + [task.key];
        continue;
      }
      if !ImplementsBoss(task, resolution.value) {
        actions := actions + [AddImplements(task.key, resolution.value)];
      }
      var relates := RelatesTo(task.issuelinks, resolution.value);
      if relates.Some? {
        actions := actions + [DeleteRelates(task.key, resolution.value, relates.value.id)];
      }
    }
    assert open[..|open|] == open;
  }

  method ComputePlan(all: seq<Issue>) returns (plan: Plan)
    ensures plan == PlanOf(all)
  {
    var open := OpenOnes(all);
    var stories := PlanStories(open);
    var tasks, unresolved := PlanTasks(open);
    var backwards, stuck := PlanBackwardsImplements(all);
    plan := Plan(stories + tasks + backwards, unresolved + stuck);
  }

  // ---------- applying a plan ----------

  datatype Link = Link(typ: string, outward: Key, inward: Key)
  type Links = map<LinkId, Link>

  /** What became of one API call: whether it took effect, and whether it reported success. A reply can
      be lost after the effect, but success is never reported without it. */
  datatype Reply = Reply(effect: bool, ok: bool)

  /** The replies to the calls a plan makes, and the id the server would give a link made by action i. */
  datatype Server = Server(reply: nat -> Reply, newId: nat -> LinkId)

  datatype Attempt = Attempt(action: Action, ok: bool)

  /** The state of an execution: the links now, the adds known to have failed, the attempts reported so
      far, and how many calls took effect. */
  datatype Progress = Progress(links: Links, failedAdds: set<string>, outcomes: seq<Attempt>, effects: nat)

  function PairKey(ticket: Key, otherEnd: Key): string { ticket + "->" + otherEnd }

  function TryAdd(p: Progress, a: Action, i: nat, server: Server): Progress {
    if !a.AddImplements? then p
    else
      var reply := server.reply(i);
      Progress(if reply.effect then p.links[server.newId(i) := Link("Implements", a.ticket, a.otherEnd)] else p.links,
               if reply.ok then p.failedAdds else p.failedAdds + {PairKey(a.ticket, a.otherEnd)},
               p.outcomes + [Attempt(a, reply.ok)],
               p.effects + if reply.effect then 1 else 0)
  }

  function TryDelete(p: Progress, a: Action, i: nat, server: Server): Progress {
    if a.AddImplements? then p
    else if a.DeleteRelates? && PairKey(a.ticket, a.otherEnd) in p.failedAdds then
      p.(outcomes := p.outcomes + [Attempt(a, false)])
    else
      var reply := server.reply(i);
      p.(links := if reply.effect then p.links - {a.linkId} else p.links,
         outcomes := p.outcomes + [Attempt(a, reply.ok)],
         effects := p.effects + if reply.effect then 1 else 0)
  }

  function AddPhase(links: Links, actions: seq<Action>, n: nat, server: Server): Progress
    requires n <= |actions|
  {
    if n == 0 then Progress(links, {}, [], 0)
    else TryAdd(AddPhase(links, actions, n - 1, server), actions[n - 1], n - 1, server)
  }

  function DeletePhase(links: Links, actions: seq<Action>, n: nat, server: Server): Progress
    requires n <= |actions|
  {
    if n == 0 then AddPhase(links, actions, |actions|, server)
    else TryDelete(DeletePhase(links, actions, n - 1, server), actions[n - 1], n - 1, server)
  }

  function Applied(links: Links, plan: Plan, server: Server): Progress {
    DeletePhase(links, plan.actions, |plan.actions|, server)
  }

  /** The link store behind the API. */
  class LinkStore {
    var links: Links

    constructor (links: Links)
      ensures this.links == links
    {
      this.links := links;
    }

    method CreateImplements(implementer: Key, boss: Key, id: LinkId, reply: Reply) returns (ok: bool)
      modifies this
      ensures links == if reply.effect then old(links)[id := Link("Implements", implementer, boss)] else old(links)
      ensures ok == reply.ok
    {
      if reply.effect {
        links := links[id := Link("Implements", implementer, boss)];
      }
      ok := reply.ok;
    }

    method DeleteLink(id: LinkId, reply: Reply) returns (ok: bool)
      modifies this
      ensures links == if reply.effect then old(links) - {id} else old(links)
      ensures ok == reply.ok
    {
      if reply.effect {
        links := links - {id};
      }
      ok := reply.ok;
    }
  }

  /** Every add, then every delete; a Relates delete is skipped when its add is known to have failed. */
  method ApplyPlan(plan: Plan, store: LinkStore, server: Server) returns (outcomes: seq<Attempt>)
    modifies store
    ensures store.links == Applied(old(store.links), plan, server).links
    ensures outcomes == Applied(old(store.links), plan, server).outcomes
  {
    var actions := plan.actions;
    var failedAdds: set<string> := {};
    outcomes := [];
    for i := 0 to |actions|
      invariant store.links == AddPhase(old(store.links), actions, i, server).links
      invariant failedAdds == AddPhase(old(store.links), actions, i, server).failedAdds
      invariant outcomes == AddPhase(old(store.links), actions, i, server).outcomes
    {
      var a := actions[i];
      if !a.AddImplements? { continue; }
      var ok := store.CreateImplements(a.ticket, a.otherEnd, server.newId(i), server.reply(i));
      if !ok {
        failedAdds := failedAdds + {PairKey(a.ticket, a.otherEnd)};
      }
      outcomes := outcomes + [Attempt(a, ok)];
    }
    for i := 0 to |actions|
      invariant store.links == DeletePhase(old(store.links), actions, i, server).links
      invariant failedAdds == DeletePhase(old(store.links), actions, i, server).failedAdds
      invariant outcomes == DeletePhase(old(store.links), actions, i, server).outcomes
    {
      var d := actions[i];
      if d.AddImplements? { continue; }
      if d.DeleteRelates? && PairKey(d.ticket, d.otherEnd) in failedAdds {
        outcomes := outcomes + [Attempt(d, false)];
        continue;
      }
      var ok := store.DeleteLink(d.linkId, server.reply(i));
      outcomes := outcomes + [Attempt(d, ok)];
    }
  }
}
