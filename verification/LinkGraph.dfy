/**
 The link graph behind the migration: what the fetched rows say about it, and the measure that
 every effective API call lowers.
 */
module LinkGraph {
  import opened Wrappers
  import opened MigrateLinks

  datatype World = World(tickets: map<Key, Ticket>, links: Links)

  // ---------- what the graph says ----------

  ghost predicate Joined(links: Links, l: Link) {
    exists id :: id in links && links[id] == l
  }

  ghost predicate Implements(links: Links, implementer: Key, boss: Key) {
    Joined(links, Link("Implements", implementer, boss))
  }

  ghost predicate Related(links: Links, a: Key, b: Key) {
    Joined(links, Link("Relates", a, b)) || Joined(links, Link("Relates", b, a))
  }

  function LevelIn(tickets: map<Key, Ticket>, key: Key): Option<int> {
    if key in tickets then LevelOf(tickets[key]) else None
  }

  predicate OpenOf(w: World, key: Key, issuetype: string) {
    key in w.tickets && w.tickets[key].statusCategory != "Done" && w.tickets[key].issuetype == issuetype
  }

  predicate HasParent(t: Ticket) { t.parent.Some? && t.parent.value != "" }

  /** Open stories that do not implement their parent. */
  ghost function StoryGaps(w: World): set<Key> {
    set k | k in w.tickets && OpenOf(w, k, "Story") && HasParent(w.tickets[k]) && !Implements(w.links, k, w.tickets[k].parent.value)
  }

  ghost predicate HasBossStory(w: World, task: Key) {
    exists s :: OpenOf(w, s, "Story") && Implements(w.links, task, s)
  }

  ghost predicate CouldOwn(w: World, task: Key, story: Key)
    requires task in w.tickets
  {
    OpenOf(w, story, "Story") && (Related(w.links, task, story) || SummaryKey(w.tickets[task].summary) == Some(story))
  }

  ghost predicate Resolvable(w: World, task: Key)
    requires task in w.tickets
  {
    exists s :: CouldOwn(w, task, s)
  }

  /** Open tasks that implement no open story although some open story can be found for them. */
  ghost function TaskGaps(w: World): set<Key> {
    set k | k in w.tickets && OpenOf(w, k, "Task") && !HasBossStory(w, k) && Resolvable(w, k)
  }

  ghost function RelatesIds(w: World): set<LinkId> {
    set id | id in w.links && w.links[id].typ == "Relates"
  }

  /** An Implements link whose implementer is not strictly below its boss. */
  predicate Backward(tickets: map<Key, Ticket>, l: Link) {
    var low, high := LevelIn(tickets, l.outward), LevelIn(tickets, l.inward);
    l.typ == "Implements" && low.Some? && high.Some? && low.value >= high.value
  }

  ghost function BackwardIds(w: World): set<LinkId> {
    set id | id in w.links && Backward(w.tickets, w.links[id])
  }

  ghost function Measure(w: World): nat {
    |StoryGaps(w)| + |TaskGaps(w)| + |RelatesIds(w)| + |BackwardIds(w)|
  }

  /** Jira's hierarchy: a story's parent is no story and no task (an epic, or outside the project). */
  ghost predicate ParentsAbove(tickets: map<Key, Ticket>) {
    forall k :: k in tickets && tickets[k].issuetype == "Story" && HasParent(tickets[k]) ==>
      LevelIn(tickets, tickets[k].parent.value) in {None, Some(2)}
  }

  // ---------- one link more, one link less ----------

  lemma JoinedAfterAdd(links: Links, id: LinkId, l: Link)
    requires id !in links
    ensures forall k :: Joined(links[id := l], k) <==> Joined(links, k) || k == l
  {
    forall k ensures Joined(links[id := l], k) <==> Joined(links, k) || k == l {
      if Joined(links, k) {
        var i :| i in links && links[i] == k;
        assert i in links[id := l] && links[id := l][i] == k;
      }
      if k == l {
        assert id in links[id := l];
      }
    }
  }

  lemma JoinedAfterDelete(links: Links, id: LinkId)
    requires id in links
    ensures forall k :: k != links[id] ==> (Joined(links - {id}, k) <==> Joined(links, k))
    ensures forall k :: Joined(links - {id}, k) ==> Joined(links, k)
  {
    forall k | k != links[id] && Joined(links, k) ensures Joined(links - {id}, k) {
      var i :| i in links && links[i] == k;
      assert i in links - {id};
    }
  }

  lemma RemoveOne<T>(a: set<T>, b: set<T>, x: T)
    requires x in a && b == a - {x}
    ensures |b| + 1 == |a|
  {
  }

  /** Giving a story its parent link closes its gap and touches nothing else the measure counts. */
  lemma StoryAddLowers(w: World, id: LinkId, k: Key)
    requires ParentsAbove(w.tickets) && id !in w.links && k in StoryGaps(w)
    ensures var w' := w.(links := w.links[id := Link("Implements", k, w.tickets[k].parent.value)]);
      && StoryGaps(w') == StoryGaps(w) - {k} && TaskGaps(w') == TaskGaps(w)
      && Measure(w') + 1 == Measure(w)
  {
    var l := Link("Implements", k, w.tickets[k].parent.value);
    var w' := w.(links := w.links[id := l]);
    JoinedAfterAdd(w.links, id, l);
    assert StoryGaps(w') == StoryGaps(w) - {k};
    assert TaskGaps(w') == TaskGaps(w) by {
      forall t | OpenOf(w, t, "Task")
        ensures HasBossStory(w', t) <==> HasBossStory(w, t)
        ensures Resolvable(w', t) <==> Resolvable(w, t)
      {
        SameFromHere(w, w', t);
      }
    }
    assert RelatesIds(w') == RelatesIds(w);
    assert BackwardIds(w') == BackwardIds(w);
    RemoveOne(StoryGaps(w), StoryGaps(w'), k);
  }

  /** When no link of t with another ticket changed, t's standing did not either. */
  lemma SameFromHere(w: World, w': World, t: Key)
    requires w'.tickets == w.tickets && t in w.tickets
    requires forall s :: Implements(w'.links, t, s) <==> Implements(w.links, t, s)
    requires forall s :: Related(w'.links, t, s) <==> Related(w.links, t, s)
    ensures HasBossStory(w', t) <==> HasBossStory(w, t)
    ensures Resolvable(w', t) <==> Resolvable(w, t)
  {
    if HasBossStory(w, t) {
      var s :| OpenOf(w, s, "Story") && Implements(w.links, t, s);
      assert OpenOf(w', s, "Story") && Implements(w'.links, t, s);
    }
    if HasBossStory(w', t) {
      var s :| OpenOf(w', s, "Story") && Implements(w'.links, t, s);
      assert OpenOf(w, s, "Story") && Implements(w.links, t, s);
    }
    if Resolvable(w, t) {
      var s :| CouldOwn(w, t, s);
      assert CouldOwn(w', t, s);
    }
    if Resolvable(w', t) {
      var s :| CouldOwn(w', t, s);
      assert CouldOwn(w, t, s);
    }
  }

  lemma TaskAddClosesGap(w: World, id: LinkId, k: Key, story: Key)
    requires id !in w.links && k in TaskGaps(w) && OpenOf(w, story, "Story")
    ensures TaskGaps(w.(links := w.links[id := Link("Implements", k, story)])) == TaskGaps(w) - {k}
  {
    var l := Link("Implements", k, story);
    var w' := w.(links := w.links[id := l]);
    JoinedAfterAdd(w.links, id, l);
    assert HasBossStory(w', k) by {
      assert OpenOf(w', story, "Story") && Implements(w'.links, k, story);
    }
    forall t | OpenOf(w, t, "Task") && t != k
      ensures HasBossStory(w', t) <==> HasBossStory(w, t)
      ensures Resolvable(w', t) <==> Resolvable(w, t)
    {
      SameFromHere(w, w', t);
    }
  }

  /** Giving a task its story closes its gap and touches nothing else the measure counts. */
  lemma TaskAddLowers(w: World, id: LinkId, k: Key, story: Key)
    requires id !in w.links && k in TaskGaps(w) && OpenOf(w, story, "Story")
    ensures var w' := w.(links := w.links[id := Link("Implements", k, story)]);
      && StoryGaps(w') == StoryGaps(w) && TaskGaps(w') == TaskGaps(w) - {k}
      && Measure(w') + 1 == Measure(w)
  {
    var l := Link("Implements", k, story);
    var w' := w.(links := w.links[id := l]);
    TaskAddClosesGap(w, id, k, story);
    RemoveOne(TaskGaps(w), TaskGaps(w'), k);
    AddMovesNoIds(w, id, l);
    TaskAddLeavesStories(w, id, l);
    hide TaskGaps, StoryGaps, RelatesIds, BackwardIds;
  }

  lemma AddMovesNoIds(w: World, id: LinkId, l: Link)
    requires id !in w.links && l.typ == "Implements" && !Backward(w.tickets, l)
    ensures var w' := w.(links := w.links[id := l]);
      RelatesIds(w') == RelatesIds(w) && BackwardIds(w') == BackwardIds(w)
  {
  }

  lemma TaskAddLeavesStories(w: World, id: LinkId, l: Link)
    requires id !in w.links && OpenOf(w, l.outward, "Task")
    ensures StoryGaps(w.(links := w.links[id := l])) == StoryGaps(w)
  {
    JoinedAfterAdd(w.links, id, l);
  }

  ghost predicate Between(l: Link, a: Key, b: Key) {
    (l.outward == a && l.inward == b) || (l.outward == b && l.inward == a)
  }

  /** Dropping a Relates link between a task and a story it implements opens no gap. */
  lemma RelatesDeleteLowers(w: World, id: LinkId, task: Key, story: Key)
    requires id in w.links && w.links[id].typ == "Relates" && Between(w.links[id], task, story)
    requires OpenOf(w, task, "Task") && OpenOf(w, story, "Story") && Implements(w.links, task, story)
    ensures var w' := w.(links := w.links - {id});
      && StoryGaps(w') == StoryGaps(w) && TaskGaps(w') == TaskGaps(w)
      && Measure(w') + 1 == Measure(w)
  {
    var w' := w.(links := w.links - {id});
    JoinedAfterDelete(w.links, id);
    assert HasBossStory(w, task) && HasBossStory(w', task) by {
      assert OpenOf(w, story, "Story") && OpenOf(w', story, "Story") && Implements(w'.links, task, story);
    }
    assert TaskGaps(w') == TaskGaps(w) by {
      forall t | OpenOf(w, t, "Task") && t != task
        ensures HasBossStory(w', t) <==> HasBossStory(w, t)
        ensures Resolvable(w', t) <==> Resolvable(w, t)
      {
        SameFromHere(w, w', t);
      }
    }
    assert StoryGaps(w') == StoryGaps(w);
    assert BackwardIds(w') == BackwardIds(w);
    RemoveOne(RelatesIds(w), RelatesIds(w'), id);
  }

  /** Dropping a backwards link opens no gap: no wanted link is backwards. */
  lemma BackwardDeleteLowers(w: World, id: LinkId)
    requires ParentsAbove(w.tickets) && id in BackwardIds(w)
    ensures var w' := w.(links := w.links - {id});
      && StoryGaps(w') == StoryGaps(w) && TaskGaps(w') == TaskGaps(w)
      && Measure(w') + 1 == Measure(w)
  {
    var w' := w.(links := w.links - {id});
    JoinedAfterDelete(w.links, id);
    assert StoryGaps(w') == StoryGaps(w) by {
      forall k | k in w.tickets && OpenOf(w, k, "Story") && HasParent(w.tickets[k])
        ensures Implements(w'.links, k, w.tickets[k].parent.value) <==> Implements(w.links, k, w.tickets[k].parent.value)
      {
        assert !Backward(w.tickets, Link("Implements", k, w.tickets[k].parent.value));
      }
    }
    assert TaskGaps(w') == TaskGaps(w) by {
      forall t | OpenOf(w, t, "Task")
        ensures HasBossStory(w', t) <==> HasBossStory(w, t)
        ensures Resolvable(w', t) <==> Resolvable(w, t)
      {
        BackwardLinkIsNoTasksOwn(w, w', id, t);
      }
    }
    assert RelatesIds(w') == RelatesIds(w);
    RemoveOne(BackwardIds(w), BackwardIds(w'), id);
  }

  lemma BackwardLinkIsNoTasksOwn(w: World, w': World, id: LinkId, t: Key)
    requires id in BackwardIds(w) && w' == w.(links := w.links - {id}) && OpenOf(w, t, "Task")
    ensures HasBossStory(w', t) <==> HasBossStory(w, t)
    ensures Resolvable(w', t) <==> Resolvable(w, t)
  {
    JoinedAfterDelete(w.links, id);
    if HasBossStory(w, t) {
      var s :| OpenOf(w, s, "Story") && Implements(w.links, t, s);
      assert !Backward(w.tickets, Link("Implements", t, s));
      assert OpenOf(w', s, "Story") && Implements(w'.links, t, s);
    }
    if HasBossStory(w', t) {
      var s :| OpenOf(w', s, "Story") && Implements(w'.links, t, s);
      assert OpenOf(w, s, "Story") && Implements(w.links, t, s);
    }
    if Resolvable(w, t) {
      var s :| CouldOwn(w, t, s);
      assert CouldOwn(w', t, s);
    }
    if Resolvable(w', t) {
      var s :| CouldOwn(w', t, s);
      assert CouldOwn(w, t, s);
    }
  }
}
