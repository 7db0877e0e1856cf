/**
 The migration run against a server whose calls may each fail, or take effect and still look
 failed: it converges, and it strands no task.
 */
module Migration {
  import opened Wrappers
  import opened MigrateLinks
  import opened LinkGraph
  import opened PlanFacts

  /** A server never reports success without effect, and gives new links new ids. */
  ghost predicate ServerFits(links: Links, server: Server) {
    && (forall i: nat :: server.reply(i).ok ==> server.reply(i).effect)
    && (forall i: nat :: server.newId(i) !in links)
    && (forall i: nat, j: nat :: i != j ==> server.newId(i) != server.newId(j))
  }

  // ---------- the adds ----------

  ghost predicate Kept(before: Links, after: Links) {
    forall id :: id in before ==> id in after && after[id] == before[id]
  }

  ghost predicate Adds(actions: seq<Action>, n: nat, server: Server, id: LinkId, l: Link)
    requires n <= |actions|
  {
    exists j: nat :: j < n && actions[j].AddImplements? && server.newId(j) == id
      && l == Link("Implements", actions[j].ticket, actions[j].otherEnd)
  }

  ghost predicate AddsDone(w: World, actions: seq<Action>, n: nat, server: Server, p: Progress)
    requires n <= |actions|
  {
    && Kept(w.links, p.links)
    && (forall id :: id in p.links && id !in w.links ==> Adds(actions, n, server, id, p.links[id]))
    && Measure(w.(links := p.links)) + p.effects == Measure(w)
    && (forall j :: 0 <= j < n && actions[j].AddImplements? && PairKey(actions[j].ticket, actions[j].otherEnd) !in p.failedAdds ==>
          Implements(p.links, actions[j].ticket, actions[j].otherEnd))
    && (forall j :: n <= j < |actions| && actions[j].AddImplements? ==> AddFits(w.(links := p.links), actions[j]))
  }

  lemma KeptJoins(before: Links, after: Links)
    requires Kept(before, after)
    ensures forall l :: Joined(before, l) ==> Joined(after, l)
  {
    forall l | Joined(before, l) ensures Joined(after, l) {
      var id :| id in before && before[id] == l;
      assert id in after && after[id] == l;
    }
  }

  /** One effective add closes one gap and leaves every other add as needed as it was. */
  lemma OneAdd(w: World, a: Action, id: LinkId, others: set<Action>)
    requires ParentsAbove(w.tickets) && AddFits(w, a) && id !in w.links
    requires forall b :: b in others ==> AddFits(w, b) && b.ticket != a.ticket
    ensures var w' := w.(links := w.links[id := Link("Implements", a.ticket, a.otherEnd)]);
      && Measure(w') + 1 == Measure(w)
      && (forall b :: b in others ==> AddFits(w', b))
  {
    hide Measure, Joined;
    if a.ticket in StoryGaps(w) {
      assert w.tickets[a.ticket].parent == Some(a.otherEnd);
      StoryAddLowers(w, id, a.ticket);
    } else {
      TaskAddLowers(w, id, a.ticket, a.otherEnd);
    }
    hide StoryGaps, TaskGaps;
  }

  lemma {:induction false} AddPhaseWorks(w: World, actions: seq<Action>, n: nat, server: Server)
    requires n <= |actions| && PlanFits(w, actions) && ParentsAbove(w.tickets) && ServerFits(w.links, server)
    ensures AddsDone(w, actions, n, server, AddPhase(w.links, actions, n, server))
  {
    if n == 0 {
      assert w.(links := w.links) == w;
      forall j | 0 <= j < |actions| && actions[j].AddImplements? ensures AddFits(w, actions[j]) {
        assert Fits(w, actions[j]);
      }
    } else {
      AddPhaseWorks(w, actions, n - 1, server);
      AddStep(w, actions, n, server, AddPhase(w.links, actions, n - 1, server));
    }
  }

  lemma AddStep(w: World, actions: seq<Action>, n: nat, server: Server, p: Progress)
    requires 0 < n <= |actions| && Separate(actions) && ParentsAbove(w.tickets) && ServerFits(w.links, server)
    requires AddsDone(w, actions, n - 1, server, p)
    ensures AddsDone(w, actions, n, server, TryAdd(p, actions[n - 1], n - 1, server))
  {
    hide Measure, AddFits, Implements, ParentsAbove;
    var a := actions[n - 1];
    var q := TryAdd(p, a, n - 1, server);
    forall id | id in p.links && id !in w.links ensures Adds(actions, n, server, id, p.links[id]) {
      var j: nat :| j < n - 1 && actions[j].AddImplements? && server.newId(j) == id
                    && p.links[id] == Link("Implements", actions[j].ticket, actions[j].otherEnd);
    }
    if a.AddImplements? && server.reply(n - 1).effect {
      var id := server.newId(n - 1);
      assert id !in p.links;
      var later := set j | n <= j < |actions| && actions[j].AddImplements? :: actions[j];
      OneAdd(w.(links := p.links), a, id, later);
      assert forall j :: n <= j < |actions| && actions[j].AddImplements? ==> actions[j] in later;
      NewLinkJoins(p.links, q.links, id, Link("Implements", a.ticket, a.otherEnd));
    }
  }

  lemma NewLinkJoins(before: Links, after: Links, id: LinkId, l: Link)
    requires id !in before && after == before[id := l]
    ensures Joined(after, l)
    ensures forall a, b :: Implements(before, a, b) ==> Implements(after, a, b)
    ensures l.typ == "Implements" ==> Implements(after, l.outward, l.inward)
  {
    JoinedAfterAdd(before, id, l);
    assert id in after && after[id] == l;
  }

  // ---------- the deletes ----------

  ghost predicate Removes(actions: seq<Action>, n: nat, failed: set<string>, id: LinkId)
    requires n <= |actions|
  {
    exists j :: 0 <= j < n && !actions[j].AddImplements? && actions[j].linkId == id
      && (actions[j].DeleteRelates? ==> PairKey(actions[j].ticket, actions[j].otherEnd) !in failed)
  }

  ghost predicate DeletesDone(w: World, actions: seq<Action>, n: nat, server: Server, p: Progress, q: Progress)
    requires n <= |actions|
  {
    && q.failedAdds == p.failedAdds
    && Kept(q.links, p.links)
    && (forall id :: id in p.links && id !in q.links ==> Removes(actions, n, p.failedAdds, id))
    && Measure(w.(links := q.links)) + q.effects == Measure(w)
    && (forall j :: 0 <= j < n && actions[j].DeleteBackwards? && server.reply(j).effect ==> actions[j].linkId !in q.links)
  }

  /** Only planned ids go: Relates links, and backwards links with a counterpart. */
  lemma RemovedLinksWerePlanned(w: World, actions: seq<Action>, n: nat, server: Server, p: Progress, q: Progress)
    requires n <= |actions| && PlanFits(w, actions)
    requires AddsDone(w, actions, |actions|, server, p) && DeletesDone(w, actions, n, server, p, q)
    ensures forall id :: id in p.links && id !in q.links ==>
      id in w.links && (w.links[id].typ == "Relates" || Deletable(w, id))
  {
    forall id | id in p.links && id !in q.links
      ensures id in w.links && (w.links[id].typ == "Relates" || Deletable(w, id))
    {
      var j :| 0 <= j < n && !actions[j].AddImplements? && actions[j].linkId == id;
      assert Fits(w, actions[j]);
    }
  }

  /** A correctly directed Implements link, or one of unknown direction, is never deleted. */
  lemma ForwardLinksStay(w: World, actions: seq<Action>, n: nat, server: Server, p: Progress, q: Progress, l: Link)
    requires n <= |actions| && PlanFits(w, actions)
    requires AddsDone(w, actions, |actions|, server, p) && DeletesDone(w, actions, n, server, p, q)
    requires l.typ == "Implements" && !Backward(w.tickets, l) && Joined(p.links, l)
    ensures Joined(q.links, l)
  {
    var id :| id in p.links && p.links[id] == l;
    RemovedLinksWerePlanned(w, actions, n, server, p, q);
    assert id in q.links && q.links[id] == l;
  }

  lemma DeleteIsEffective(w: World, actions: seq<Action>, n: nat, server: Server, p: Progress, q: Progress)
    requires n < |actions| && PlanFits(w, actions) && ParentsAbove(w.tickets)
    requires AddsDone(w, actions, |actions|, server, p) && DeletesDone(w, actions, n, server, p, q)
    requires !actions[n].AddImplements?
    requires actions[n].DeleteRelates? ==> PairKey(actions[n].ticket, actions[n].otherEnd) !in p.failedAdds
    ensures actions[n].linkId in q.links
    ensures Measure(w.(links := q.links - {actions[n].linkId})) + 1 == Measure(w.(links := q.links))
  {
    var a := actions[n];
    assert Fits(w, a);
    assert a.linkId in p.links && p.links[a.linkId] == w.links[a.linkId];
    assert a.linkId in q.links;
    var wq := w.(links := q.links);
    if a.DeleteRelates? {
      assert Implements(p.links, a.ticket, a.otherEnd) by {
        if Implements(w.links, a.ticket, a.otherEnd) {
          KeptJoins(w.links, p.links);
        } else {
          var j :| 0 <= j < |actions| && actions[j] == AddImplements(a.ticket, a.otherEnd);
        }
      }
      ForwardLinksStay(w, actions, n, server, p, q, Link("Implements", a.ticket, a.otherEnd));
      hide Measure, Joined;
      RelatesDeleteLowers(wq, a.linkId, a.ticket, a.otherEnd);
    } else {
      hide Measure, Joined;
      BackwardDeleteLowers(wq, a.linkId);
    }
  }

  lemma NothingDeletedYet(w: World, actions: seq<Action>, server: Server, p: Progress)
    requires AddsDone(w, actions, |actions|, server, p)
    ensures DeletesDone(w, actions, 0, server, p, p)
  {
    hide Measure;
  }

  lemma BackwardDeletesAreNotSkipped(a: Action, failed: set<string>)
    ensures a.DeleteBackwards? ==> !Skipped(a, failed)
    ensures !Skipped(a, failed) ==> !a.AddImplements? && (a.DeleteRelates? ==> PairKey(a.ticket, a.otherEnd) !in failed)
  {
  }

  lemma {:induction false} DeletePhaseWorks(w: World, actions: seq<Action>, n: nat, server: Server)
    requires n <= |actions| && PlanFits(w, actions) && ParentsAbove(w.tickets) && ServerFits(w.links, server)
    ensures var p := AddPhase(w.links, actions, |actions|, server);
      && AddsDone(w, actions, |actions|, server, p)
      && DeletesDone(w, actions, n, server, p, DeletePhase(w.links, actions, n, server))
  {
    hide AddPhase, Measure, PlanFits, AddsDone, ParentsAbove, DeletesDone, TryDelete, Skipped, ServerFits;
    var p := AddPhase(w.links, actions, |actions|, server);
    AddPhaseWorks(w, actions, |actions|, server);
    if n == 0 {
      NothingDeletedYet(w, actions, server, p);
    } else {
      DeletePhaseWorks(w, actions, n - 1, server);
      BackwardDeletesAreNotSkipped(actions[n - 1], p.failedAdds);
      if !Skipped(actions[n - 1], p.failedAdds) {
        DeleteIsEffective(w, actions, n - 1, server, p, DeletePhase(w.links, actions, n - 1, server));
      }
      DeleteStep(w, actions, n, server, p, DeletePhase(w.links, actions, n - 1, server));
    }
  }

  predicate Skipped(a: Action, failed: set<string>) {
    a.AddImplements? || (a.DeleteRelates? && PairKey(a.ticket, a.otherEnd) in failed)
  }

  lemma DeleteStep(w: World, actions: seq<Action>, n: nat, server: Server, p: Progress, q: Progress)
    requires 0 < n <= |actions|
    requires DeletesDone(w, actions, n - 1, server, p, q)
    requires !Skipped(actions[n - 1], p.failedAdds) ==>
      Measure(w.(links := q.links - {actions[n - 1].linkId})) + 1 == Measure(w.(links := q.links))
    requires actions[n - 1].DeleteBackwards? ==> !Skipped(actions[n - 1], p.failedAdds)
    ensures DeletesDone(w, actions, n, server, p, TryDelete(q, actions[n - 1], n - 1, server))
  {
    hide Measure, Removes, PairKey;
    var r := TryDelete(q, actions[n - 1], n - 1, server);
    RemovesExtends(actions, n, p.failedAdds, p.links, q.links, r.links);
  }

  lemma RemovesExtends(actions: seq<Action>, n: nat, failed: set<string>, p: Links, q: Links, r: Links)
    requires 0 < n <= |actions|
    requires forall id :: id in p && id !in q ==> Removes(actions, n - 1, failed, id)
    requires var a := actions[n - 1];
      r == q || (!a.AddImplements? && r == q - {a.linkId} && (a.DeleteRelates? ==> PairKey(a.ticket, a.otherEnd) !in failed))
    ensures forall id :: id in p && id !in r ==> Removes(actions, n, failed, id)
  {
    forall id | id in p && id !in r ensures Removes(actions, n, failed, id) {
      if id !in q {
        var j :| 0 <= j < n - 1 && !actions[j].AddImplements? && actions[j].linkId == id
                 && (actions[j].DeleteRelates? ==> PairKey(actions[j].ticket, actions[j].otherEnd) !in failed);
      }
    }
  }

  // ---------- convergence ----------

  /** Whatever the server does, an applied plan lowers the measure by exactly the number of calls that
      took effect. */
  lemma EveryEffectCounts(issues: seq<Issue>, w: World, server: Server)
    requires Mirrors(issues, w) && ParentsAbove(w.tickets) && ServerFits(w.links, server)
    ensures var done := Applied(w.links, PlanOf(issues), server);
      Measure(w.(links := done.links)) + done.effects == Measure(w)
  {
    var actions := PlanOf(issues).actions;
    PlanIsRight(issues, w);
    DeletePhaseWorks(w, actions, |actions|, server);
  }

  function AddCount(actions: seq<Action>, n: nat): nat
    requires n <= |actions|
    ensures AddCount(actions, n) <= n
  {
    if n == 0 then 0 else AddCount(actions, n - 1) + if actions[n - 1].AddImplements? then 1 else 0
  }

  lemma {:induction false} AddsAllSucceed(links: Links, actions: seq<Action>, n: nat, server: Server)
    requires n <= |actions| && forall i: nat :: server.reply(i).effect && server.reply(i).ok
    ensures var p := AddPhase(links, actions, n, server);
      p.failedAdds == {} && p.effects == AddCount(actions, n)
  {
    if n > 0 {
      AddsAllSucceed(links, actions, n - 1, server);
    }
  }

  lemma {:induction false} DeletesAllSucceed(links: Links, actions: seq<Action>, n: nat, server: Server)
    requires n <= |actions| && forall i: nat :: server.reply(i).effect && server.reply(i).ok
    ensures var q := DeletePhase(links, actions, n, server);
      q.failedAdds == {} && q.effects == AddCount(actions, |actions|) + n - AddCount(actions, n)
  {
    AddsAllSucceed(links, actions, |actions|, server);
    if n > 0 {
      DeletesAllSucceed(links, actions, n - 1, server);
    }
  }

  ghost predicate Flawless(server: Server) {
    forall i: nat :: server.reply(i).effect && server.reply(i).ok
  }

  /** When every call succeeds every action takes effect, so any plan with an action makes progress. */
  lemma FullSuccessAppliesAll(links: Links, plan: Plan, server: Server)
    requires Flawless(server)
    ensures Applied(links, plan, server).effects == |plan.actions|
  {
    DeletesAllSucceed(links, plan.actions, |plan.actions|, server);
  }

  /** One round of the migration: a fetch, and the server its plan is applied to. */
  datatype Round = Round(issues: seq<Issue>, server: Server)

  ghost predicate Rounds(w: World, rounds: seq<Round>)
    decreases |rounds|
  {
    rounds == []
    || (&& Mirrors(rounds[0].issues, w) && ServerFits(w.links, rounds[0].server)
        && Rounds(w.(links := Applied(w.links, PlanOf(rounds[0].issues), rounds[0].server).links), rounds[1..]))
  }

  ghost predicate EachMakesProgress(w: World, rounds: seq<Round>)
    decreases |rounds|
  {
    rounds == []
    || (var done := Applied(w.links, PlanOf(rounds[0].issues), rounds[0].server);
        done.effects >= 1 && EachMakesProgress(w.(links := done.links), rounds[1..]))
  }

  /** Planning and applying again and again comes to an end: no run, with whatever failures, has more
      rounds in which some call takes effect than the measure of the graph it starts from. */
  lemma {:induction false} MigrationTerminates(w: World, rounds: seq<Round>)
    requires ParentsAbove(w.tickets) && Rounds(w, rounds) && EachMakesProgress(w, rounds)
    ensures |rounds| <= Measure(w)
    decreases |rounds|
  {
    if rounds != [] {
      EveryEffectCounts(rounds[0].issues, w, rounds[0].server);
      hide Measure, PlanOf, Mirrors;
      MigrationTerminates(w.(links := Applied(w.links, PlanOf(rounds[0].issues), rounds[0].server).links), rounds[1..]);
    }
  }

  // ---------- the fixed point ----------

  lemma {:induction false} TaskActionsIncluded(some: seq<Issue>, byKey: seq<Issue>)
    ensures forall t, a :: t in some && a in TaskActions(t, byKey) ==> a in AllTaskActions(some, byKey)
  {
    if some != [] {
      var n := |some| - 1;
      assert some == some[..n] + [some[n]];
      TaskActionsIncluded(some[..n], byKey);
    }
  }

  lemma TaskActionsPlanned(issues: seq<Issue>, task: Issue, a: Action)
    requires task in issues && IsOpen(task) && a in TaskActions(task, OpenOnes(issues))
    ensures a in PlanOf(issues).actions
  {
    OpenOnesMembers(issues);
    TaskActionsIncluded(OpenOnes(issues), OpenOnes(issues));
  }

  /** An open task whose owning story is found implements it and has no Relates link left to it. */
  ghost predicate TaskSettled(w: World, task: Issue, byKey: seq<Issue>) {
    var story := ResolveOwningStory(task, byKey);
    story.Some? ==> Implements(w.links, task.key, story.value) && !Related(w.links, task.key, story.value)
  }

  /** The plan is empty only when the work is done: every open story implements its parent, every open
      task that can be placed implements its story and no longer relates to it, and a backwards link
      that is left has no correct counterpart. */
  lemma EmptyPlanMeansDone(issues: seq<Issue>, w: World)
    requires Mirrors(issues, w) && PlanOf(issues).actions == []
    ensures StoryGaps(w) == {} && TaskGaps(w) == {}
    ensures forall id :: !Deletable(w, id)
    ensures forall task :: task in issues && IsOpen(task) && task.ticket.issuetype == "Task" ==> TaskSettled(w, task, OpenOnes(issues))
  {
    PlanCovers(issues, w);
    hide PlanOf, OpenOnes, StoryGaps, TaskGaps, Deletable, Mirrors;
    var gaps := StoryGaps(w) + TaskGaps(w);
    assert gaps == {} && StoryGaps(w) <= gaps && TaskGaps(w) <= gaps;
    forall task | task in issues && IsOpen(task) && task.ticket.issuetype == "Task"
      ensures TaskSettled(w, task, OpenOnes(issues))
    {
      QuietTaskIsSettled(issues, w, task);
    }
  }

  lemma QuietTaskIsSettled(issues: seq<Issue>, w: World, task: Issue)
    requires Mirrors(issues, w) && PlanOf(issues).actions == []
    requires task in issues && IsOpen(task) && task.ticket.issuetype == "Task"
    ensures TaskSettled(w, task, OpenOnes(issues))
  {
    var actions := TaskActions(task, OpenOnes(issues));
    if actions != [] {
      TaskActionsPlanned(issues, task, actions[0]);
    }
    assert actions == [];
    hide PlanOf, OpenOnes;
    var story := ResolveOwningStory(task, OpenOnes(issues));
    if story.Some? {
      hide ResolveOwningStory;
      BossAgrees(task, w.links, story.value);
      RelatesAgrees(task, w.links, story.value);
    }
  }

  // ---------- nobody is stranded ----------

  ghost predicate Linked(links: Links, task: Key, story: Key) {
    Implements(links, task, story) || Related(links, task, story)
  }

  /** For every pattern of failures, lost replies included: a task linked to its owning story before the
      plan is applied is linked to it afterwards. */
  lemma NoTaskIsStranded(issues: seq<Issue>, w: World, server: Server, task: Issue)
    requires Mirrors(issues, w) && ParentsAbove(w.tickets) && ServerFits(w.links, server)
    requires task in issues && IsOpen(task) && task.ticket.issuetype == "Task"
    requires var story := ResolveOwningStory(task, OpenOnes(issues)); story.Some? && Linked(w.links, task.key, story.value)
    ensures var story := ResolveOwningStory(task, OpenOnes(issues));
      Linked(Applied(w.links, PlanOf(issues), server).links, task.key, story.value)
  {
    var actions := PlanOf(issues).actions;
    var story := ResolveOwningStory(task, OpenOnes(issues)).value;
    PlanIsRight(issues, w);
    DeletePhaseWorks(w, actions, |actions|, server);
    ResolutionIsRight(issues, w, task);
    BossAgrees(task, w.links, story);
    var add := AddImplements(task.key, story);
    if !Implements(w.links, task.key, story) {
      assert TaskActions(task, OpenOnes(issues))[0] == add;
      TaskActionsPlanned(issues, task, add);
    }
    hide PlanOf, OpenOnes, ResolveOwningStory, Mirrors, AddPhase;
    TaskKeepsAnEnd(w, actions, server, AddPhase(w.links, actions, |actions|, server),
                   DeletePhase(w.links, actions, |actions|, server), task.key, story);
  }

  lemma TaskKeepsAnEnd(w: World, actions: seq<Action>, server: Server, p: Progress, q: Progress, task: Key, story: Key)
    requires PlanFits(w, actions) && AddsDone(w, actions, |actions|, server, p) && DeletesDone(w, actions, |actions|, server, p, q)
    requires OpenOf(w, task, "Task") && OpenOf(w, story, "Story") && Linked(w.links, task, story)
    requires Implements(w.links, task, story) || AddImplements(task, story) in actions
    ensures Linked(q.links, task, story)
  {
    var l := Link("Implements", task, story);
    KeptJoins(w.links, p.links);
    if Joined(p.links, l) {
      ForwardLinksStay(w, actions, |actions|, server, p, q, l);
    } else {
      var add :| 0 <= add < |actions| && actions[add] == AddImplements(task, story);
      assert PairKey(task, story) in p.failedAdds;
      RelatesStaysAfterFailedAdd(w, actions, server, p, q, task, story);
    }
  }

  lemma RelatesStaysAfterFailedAdd(w: World, actions: seq<Action>, server: Server, p: Progress, q: Progress, task: Key, story: Key)
    requires PlanFits(w, actions) && AddsDone(w, actions, |actions|, server, p) && DeletesDone(w, actions, |actions|, server, p, q)
    requires OpenOf(w, task, "Task") && OpenOf(w, story, "Story") && Related(w.links, task, story)
    requires PairKey(task, story) in p.failedAdds
    ensures Related(q.links, task, story)
  {
    var id :| id in w.links && w.links[id].typ == "Relates" && Between(w.links[id], task, story);
    OwnDeleteOnly(w, actions, id, task, story);
    SkippedIsNotRemoved(actions, p.failedAdds, id);
    hide PlanFits, Measure, AddFits, Removes, Fits;
    UnremovedStays(actions, w.links, p, q, id);
    RelatesLinkRelates(q.links, id, task, story);
  }

  lemma RelatesLinkRelates(links: Links, id: LinkId, a: Key, b: Key)
    requires id in links && links[id].typ == "Relates" && Between(links[id], a, b)
    ensures Related(links, a, b)
  {
    assert links[id] == Link("Relates", a, b) || links[id] == Link("Relates", b, a);
  }

  lemma OwnDeleteOnly(w: World, actions: seq<Action>, id: LinkId, task: Key, story: Key)
    requires PlanFits(w, actions)
    requires id in w.links && w.links[id].typ == "Relates" && Between(w.links[id], task, story)
    requires OpenOf(w, task, "Task") && OpenOf(w, story, "Story")
    ensures forall a :: a in actions && !a.AddImplements? && a.linkId == id ==> a == DeleteRelates(task, story, id)
  {
    hide Fits;
    forall a | a in actions && !a.AddImplements? && a.linkId == id ensures a == DeleteRelates(task, story, id) {
      OnlyItsOwnDelete(w, a, id, task, story);
    }
  }

  lemma UnremovedStays(actions: seq<Action>, before: Links, p: Progress, q: Progress, id: LinkId)
    requires Kept(before, p.links) && Kept(q.links, p.links)
    requires forall i :: i in p.links && i !in q.links ==> Removes(actions, |actions|, p.failedAdds, i)
    requires id in before && !Removes(actions, |actions|, p.failedAdds, id)
    ensures id in q.links && q.links[id] == before[id]
  {
    hide Removes;
  }

  lemma SkippedIsNotRemoved(actions: seq<Action>, failed: set<string>, id: LinkId)
    requires forall a :: a in actions && !a.AddImplements? && a.linkId == id ==>
      a.DeleteRelates? && PairKey(a.ticket, a.otherEnd) in failed
    ensures !Removes(actions, |actions|, failed, id)
  {
  }

  /** The only action that deletes a Relates link between a task and a story is that task's own. */
  lemma OnlyItsOwnDelete(w: World, a: Action, id: LinkId, task: Key, story: Key)
    requires Fits(w, a) && !a.AddImplements? && a.linkId == id
    requires id in w.links && w.links[id].typ == "Relates" && Between(w.links[id], task, story)
    requires OpenOf(w, task, "Task") && OpenOf(w, story, "Story")
    ensures a == DeleteRelates(task, story, id)
  {
    hide StoryGaps, TaskGaps, Joined;
  }

  /** Some Implements link, in either direction, joins the two. */
  ghost predicate Tied(links: Links, a: Key, b: Key) {
    Implements(links, a, b) || Implements(links, b, a)
  }

  /** Tickets of different levels that an Implements link joins stay joined, whatever fails; and a
      correctly directed link between them is never the one that goes. */
  lemma DifferentLevelsStayTied(issues: seq<Issue>, w: World, server: Server, a: Key, b: Key)
    requires Mirrors(issues, w) && ParentsAbove(w.tickets) && ServerFits(w.links, server)
    requires LevelIn(w.tickets, a).Some? && LevelIn(w.tickets, b).Some? && LevelIn(w.tickets, a).value < LevelIn(w.tickets, b).value
    ensures var after := Applied(w.links, PlanOf(issues), server).links;
      && (Implements(w.links, a, b) ==> Implements(after, a, b))
      && (Tied(w.links, a, b) ==> Tied(after, a, b))
  {
    var actions := PlanOf(issues).actions;
    PlanIsRight(issues, w);
    DeletePhaseWorks(w, actions, |actions|, server);
    var p, q := AddPhase(w.links, actions, |actions|, server), DeletePhase(w.links, actions, |actions|, server);
    hide PlanOf, Mirrors, AddPhase, DeletePhase;
    KeptJoins(w.links, p.links);
    if Implements(w.links, a, b) {
      ForwardLinksStay(w, actions, |actions|, server, p, q, Link("Implements", a, b));
    } else if Implements(w.links, b, a) {
      LoneLinkStays(w, actions, server, p, q, b, a);
    }
  }

  /** An Implements link with no counterpart is not deletable, so it stays. */
  lemma LoneLinkStays(w: World, actions: seq<Action>, server: Server, p: Progress, q: Progress, low: Key, high: Key)
    requires PlanFits(w, actions) && AddsDone(w, actions, |actions|, server, p) && DeletesDone(w, actions, |actions|, server, p, q)
    requires Implements(w.links, low, high) && !Implements(w.links, high, low)
    ensures Implements(q.links, low, high)
  {
    var id :| id in w.links && w.links[id] == Link("Implements", low, high);
    RemovedLinksWerePlanned(w, actions, |actions|, server, p, q);
    assert id in p.links && id in q.links && q.links[id] == w.links[id];
  }

  /** The one case in which a tied pair is torn apart. The source keeps a backwards link unless a correct
      counterpart exists; between two tickets of one level that implement each other, each link counts as
      the other's counterpart, and a flawless run deletes both. Every other tied pair stays tied. */
  lemma TiedPairIsLostExactlyWhenMutualPeers(issues: seq<Issue>, w: World, server: Server, a: Key, b: Key)
    requires Mirrors(issues, w) && ParentsAbove(w.tickets) && ServerFits(w.links, server) && Flawless(server)
    requires LevelIn(w.tickets, a).Some? && LevelIn(w.tickets, b).Some? && Tied(w.links, a, b)
    ensures Tied(Applied(w.links, PlanOf(issues), server).links, a, b) <==>
      !(LevelIn(w.tickets, a) == LevelIn(w.tickets, b) && Implements(w.links, a, b) && Implements(w.links, b, a))
  {
    if LevelIn(w.tickets, a).value < LevelIn(w.tickets, b).value {
      DifferentLevelsStayTied(issues, w, server, a, b);
    } else if LevelIn(w.tickets, b).value < LevelIn(w.tickets, a).value {
      DifferentLevelsStayTied(issues, w, server, b, a);
    } else {
      PlanIsRight(issues, w);
      var actions := PlanOf(issues).actions;
      DeletePhaseWorks(w, actions, |actions|, server);
      var p, q := AddPhase(w.links, actions, |actions|, server), DeletePhase(w.links, actions, |actions|, server);
      hide PlanOf, Mirrors, AddPhase, DeletePhase;
      if !Implements(w.links, a, b) {
        LoneLinkStays(w, actions, server, p, q, b, a);
      } else if !Implements(w.links, b, a) {
        LoneLinkStays(w, actions, server, p, q, a, b);
      } else {
        PeersLose(w, actions, server, p, q, a, b);
        PeersLose(w, actions, server, p, q, b, a);
      }
    }
  }

  lemma PeersLose(w: World, actions: seq<Action>, server: Server, p: Progress, q: Progress, a: Key, b: Key)
    requires PlanFits(w, actions) && ParentsAbove(w.tickets) && Flawless(server)
    requires AddsDone(w, actions, |actions|, server, p) && DeletesDone(w, actions, |actions|, server, p, q)
    requires forall id :: Deletable(w, id) ==> exists x :: x in actions && x.DeleteBackwards? && x.linkId == id
    requires LevelIn(w.tickets, a).Some? && LevelIn(w.tickets, a) == LevelIn(w.tickets, b)
    requires Implements(w.links, a, b) && Implements(w.links, b, a)
    ensures !Implements(q.links, a, b)
  {
    DeletableLinksGo(w, actions, server, p, q);
    hide PlanFits, Measure;
    forall id | id in q.links ensures q.links[id] != Link("Implements", a, b) {
      if id !in w.links {
        assert Adds(actions, |actions|, server, id, p.links[id]);
        NoAddBetweenPeers(w, actions, server, id, p.links[id], a, b);
      } else {
        assert !Deletable(w, id);
      }
    }
  }

  lemma DeletableLinksGo(w: World, actions: seq<Action>, server: Server, p: Progress, q: Progress)
    requires Flawless(server) && DeletesDone(w, actions, |actions|, server, p, q)
    requires forall id :: Deletable(w, id) ==> exists x :: x in actions && x.DeleteBackwards? && x.linkId == id
    ensures forall id :: Deletable(w, id) ==> id !in q.links
  {
    forall id | Deletable(w, id) ensures id !in q.links {
      var x :| x in actions && x.DeleteBackwards? && x.linkId == id;
      var j: nat :| j < |actions| && actions[j] == x;
      assert server.reply(j).effect;
    }
  }

  lemma NoAddBetweenPeers(w: World, actions: seq<Action>, server: Server, id: LinkId, l: Link, a: Key, b: Key)
    requires PlanFits(w, actions) && ParentsAbove(w.tickets) && Adds(actions, |actions|, server, id, l)
    requires LevelIn(w.tickets, a).Some? && LevelIn(w.tickets, a) == LevelIn(w.tickets, b)
    ensures l != Link("Implements", a, b)
  {
    var j: nat :| j < |actions| && actions[j].AddImplements? && server.newId(j) == id
                  && l == Link("Implements", actions[j].ticket, actions[j].otherEnd);
    assert Fits(w, actions[j]);
    hide Joined, Measure;
  }

  // ---------- one such pair ----------

  const PeerStory := Ticket("Story", "To Do", None, "")

  /** Two stories that implement each other, as the fetch shows them. */
  function Peers(): seq<Issue> {
    [Issue("A", PeerStory, [LinkRow("1", "Implements", Inward, "B"), LinkRow("2", "Implements", Outward, "B")]),
     Issue("B", PeerStory, [LinkRow("1", "Implements", Outward, "A"), LinkRow("2", "Implements", Inward, "A")])]
  }

  function PeerWorld(): World {
    World(map["A" := PeerStory, "B" := PeerStory],
          map["1" := Link("Implements", "A", "B"), "2" := Link("Implements", "B", "A")])
  }

  lemma PeerRows()
    ensures RowsMirror(Peers()[0], PeerWorld().links) && RowsMirror(Peers()[1], PeerWorld().links)
  {
    var links := PeerWorld().links;
    assert links["1"] == Link("Implements", "A", "B") && links["2"] == Link("Implements", "B", "A");
    assert forall id :: id in links ==> id == "1" || id == "2";
  }

  lemma PeersAreMirrored()
    ensures Mirrors(Peers(), PeerWorld()) && ParentsAbove(PeerWorld().tickets)
  {
    hide RowsMirror;
    PeerRows();
    var w, issues := PeerWorld(), Peers();
    forall k | k in w.tickets ensures exists i :: i in issues && i.key == k {
      assert issues[0] in issues && issues[1] in issues;
      assert k == issues[0].key || k == issues[1].key;
    }
  }

  /** Joined before a run in which every call succeeds, they are apart after it. */
  lemma PeersAreTornApart(server: Server)
    requires ServerFits(PeerWorld().links, server) && Flawless(server)
    ensures Tied(PeerWorld().links, "A", "B")
    ensures !Tied(Applied(PeerWorld().links, PlanOf(Peers()), server).links, "A", "B")
  {
    hide PlanOf, Applied, Mirrors, ParentsAbove, ServerFits, Flawless;
    PeersAreMirrored();
    var w := PeerWorld();
    assert w.links["1"] == Link("Implements", "A", "B") && w.links["2"] == Link("Implements", "B", "A");
    assert Implements(w.links, "A", "B") && Implements(w.links, "B", "A");
    TiedPairIsLostExactlyWhenMutualPeers(Peers(), w, server, "A", "B");
  }

  /** And there is such a server. */
  lemma SomeServerIsFlawless()
    ensures exists server :: ServerFits(PeerWorld().links, server) && Flawless(server)
  {
    var newId: nat -> string := (i: nat) => seq(i + 3, k => 'n');
    var server := Server((i: nat) => Reply(true, true), newId);
    var links := PeerWorld().links;
    assert forall id :: id in links ==> |id| == 1;
    assert forall i: nat :: |newId(i)| == i + 3;
    assert forall i: nat :: |server.newId(i)| == i + 3 && server.reply(i) == Reply(true, true);
    hide PeerWorld;
    assert ServerFits(links, server) && Flawless(server);
  }
}
