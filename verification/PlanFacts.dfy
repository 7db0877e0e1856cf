/** What a plan computed from truthful rows says about the link graph the rows were read from. */
module PlanFacts {
  import opened Wrappers
  import opened MigrateLinks
  import opened LinkGraph

  // ---------- truthful rows ----------

  predicate RowShows(links: Links, owner: Key, r: LinkRow) {
    r.id in links && links[r.id] == (if r.direction == Outward then Link(r.typ, r.key, owner) else Link(r.typ, owner, r.key))
  }

  /** Both ends of every link show it, and the rows show nothing else. */
  ghost predicate RowsMirror(issue: Issue, links: Links) {
    && (forall r :: r in issue.issuelinks ==> RowShows(links, issue.key, r))
    && (forall id :: id in links && links[id].outward == issue.key ==>
          LinkRow(id, links[id].typ, Inward, links[id].inward) in issue.issuelinks)
    && (forall id :: id in links && links[id].inward == issue.key ==>
          LinkRow(id, links[id].typ, Outward, links[id].outward) in issue.issuelinks)
  }

  ghost predicate DistinctKeys(issues: seq<Issue>) {
    forall i, j :: 0 <= i < j < |issues| ==> issues[i].key != issues[j].key
  }

  /** A complete fetch, in any order of issues and of rows. */
  ghost predicate Mirrors(issues: seq<Issue>, w: World) {
    && DistinctKeys(issues)
    && (forall i :: i in issues ==> i.key in w.tickets && w.tickets[i.key] == i.ticket && RowsMirror(i, w.links))
    && (forall k :: k in w.tickets ==> exists i :: i in issues && i.key == k)
  }

  // ---------- lookups ----------

  lemma {:induction false} LookupMember(issues: seq<Issue>, key: Key)
    ensures Lookup(issues, key).Some? ==> Lookup(issues, key).value in issues && Lookup(issues, key).value.key == key
    ensures Lookup(issues, key).None? ==> forall i :: i in issues ==> i.key != key
  {
    if issues != [] {
      LookupMember(issues[..|issues| - 1], key);
      assert issues == issues[..|issues| - 1] + [issues[|issues| - 1]];
    }
  }

  lemma {:induction false} OpenOnesMembers(issues: seq<Issue>)
    ensures forall i :: i in OpenOnes(issues) <==> i in issues && IsOpen(i)
  {
    if issues != [] {
      OpenOnesMembers(issues[..|issues| - 1]);
      assert issues == issues[..|issues| - 1] + [issues[|issues| - 1]];
    }
  }

  lemma {:induction false} OpenOnesDistinct(issues: seq<Issue>)
    requires DistinctKeys(issues)
    ensures DistinctKeys(OpenOnes(issues))
  {
    if issues != [] {
      var n := |issues| - 1;
      OpenOnesDistinct(issues[..n]);
      OpenOnesMembers(issues[..n]);
      var open := OpenOnes(issues[..n]);
      forall i | 0 <= i < |open| ensures open[i].key != issues[n].key {
        assert open[i] in open && open[i] in issues[..n];
      }
    }
  }

  lemma LevelsAgree(issues: seq<Issue>, w: World, key: Key)
    requires Mirrors(issues, w)
    ensures KnownLevel(issues, key) == LevelIn(w.tickets, key)
  {
    LookupMember(issues, key);
  }

  lemma StoriesAgree(issues: seq<Issue>, w: World, key: Key)
    requires Mirrors(issues, w)
    ensures NamesStory(OpenOnes(issues), key) <==> OpenOf(w, key, "Story")
  {
    var open := OpenOnes(issues);
    OpenOnesMembers(issues);
    LookupMember(open, key);
    if OpenOf(w, key, "Story") {
      var i :| i in issues && i.key == key;
      assert IsOpen(i) && i in open;
    }
  }

  lemma BossAgrees(issue: Issue, links: Links, boss: Key)
    requires RowsMirror(issue, links)
    ensures ImplementsBoss(issue, boss) <==> Implements(links, issue.key, boss)
  {
    if ImplementsBoss(issue, boss) {
      var i :| 0 <= i < |issue.issuelinks| && issue.issuelinks[i].typ == "Implements"
               && issue.issuelinks[i].direction == Inward && issue.issuelinks[i].key == boss;
      assert issue.issuelinks[i] in issue.issuelinks;
    }
    if Implements(links, issue.key, boss) {
      var id :| id in links && links[id] == Link("Implements", issue.key, boss);
      var row := LinkRow(id, "Implements", Inward, boss);
      assert row in issue.issuelinks;
    }
  }

  lemma {:induction false} RelatesToFinds(rows: seq<LinkRow>, other: Key)
    ensures var found := RelatesTo(rows, other);
      && (found.Some? ==> found.value in rows && found.value.typ == "Relates" && found.value.key == other)
      && (found.None? ==> forall r :: r in rows ==> r.typ != "Relates" || r.key != other)
  {
    if rows != [] {
      RelatesToFinds(rows[1..], other);
      assert rows == [rows[0]] + rows[1..];
    }
  }

  /** The Relates row found for a story is a real link between the two; if none is found there is none. */
  lemma RelatesAgrees(issue: Issue, links: Links, other: Key)
    requires RowsMirror(issue, links)
    ensures var found := RelatesTo(issue.issuelinks, other);
      && (found.Some? ==>
            var id := found.value.id;
            id in links && links[id].typ == "Relates" && Between(links[id], issue.key, other))
      && (found.None? ==> !Related(links, issue.key, other))
  {
    RelatesToFinds(issue.issuelinks, other);
    var found := RelatesTo(issue.issuelinks, other);
    if found.Some? {
      assert RowShows(links, issue.key, found.value);
    }
  }

  lemma {:induction false} FirstBossFinds(rows: seq<LinkRow>, byKey: seq<Issue>)
    ensures var found := FirstBossStory(rows, byKey);
      && (found.Some? ==>
            NamesStory(byKey, found.value)
            && exists r :: r in rows && r.typ == "Implements" && r.direction == Inward && r.key == found.value)
      && (found.None? ==> forall r :: r in rows ==> !(r.typ == "Implements" && r.direction == Inward && NamesStory(byKey, r.key)))
  {
    if rows != [] {
      FirstBossFinds(rows[1..], byKey);
      assert rows == [rows[0]] + rows[1..];
      assert rows[0] in rows;
    }
  }

  lemma {:induction false} FirstRelatedFinds(rows: seq<LinkRow>, byKey: seq<Issue>)
    ensures var found := FirstRelatedStory(rows, byKey);
      && (found.Some? ==> NamesStory(byKey, found.value) && exists r :: r in rows && r.typ == "Relates" && r.key == found.value)
      && (found.None? ==> forall r :: r in rows ==> !(r.typ == "Relates" && NamesStory(byKey, r.key)))
  {
    if rows != [] {
      FirstRelatedFinds(rows[1..], byKey);
      assert rows == [rows[0]] + rows[1..];
      assert rows[0] in rows;
    }
  }

  lemma RelatedRows(issue: Issue, links: Links, story: Key)
    requires RowsMirror(issue, links)
    ensures Related(links, issue.key, story) <==> exists r :: r in issue.issuelinks && r.typ == "Relates" && r.key == story
  {
    RelatesAgrees(issue, links, story);
    RelatesToFinds(issue.issuelinks, story);
    var found := RelatesTo(issue.issuelinks, story);
    if found.Some? {
      var id := found.value.id;
      assert links[id] == Link("Relates", issue.key, story) || links[id] == Link("Relates", story, issue.key);
    }
  }

  /** Some open story is related to a task ticket. */
  ghost predicate HasRelatedStory(w: World, task: Key) {
    exists s :: OpenOf(w, s, "Story") && Related(w.links, task, s)
  }

  /** Resolution is sound and complete: an open story the task already implements if there is one, else
      one it relates to if there is one, else the one its summary names if that is one, else nothing. */
  lemma ResolutionIsRight(issues: seq<Issue>, w: World, task: Issue)
    requires Mirrors(issues, w) && task in issues
    ensures var found := ResolveOwningStory(task, OpenOnes(issues));
      && (found.None? ==> !HasBossStory(w, task.key) && !Resolvable(w, task.key))
      && (found.Some? ==>
            && OpenOf(w, found.value, "Story")
            && (HasBossStory(w, task.key) ==> Implements(w.links, task.key, found.value))
            && (!HasBossStory(w, task.key) ==> CouldOwn(w, task.key, found.value))
            && (!HasBossStory(w, task.key) && HasRelatedStory(w, task.key) ==> Related(w.links, task.key, found.value)))
  {
    hide Lookup, OpenOnes;
    var open := OpenOnes(issues);
    FirstBossFinds(task.issuelinks, open);
    FirstRelatedFinds(task.issuelinks, open);
    forall s ensures NamesStory(open, s) <==> OpenOf(w, s, "Story") {
      StoriesAgree(issues, w, s);
    }
    hide NamesStory;
    BossResolution(task, w, open);
    if FirstBossStory(task.issuelinks, open).None? {
      RelatedResolution(task, w, open);
    }
  }

  lemma BossResolution(task: Issue, w: World, open: seq<Issue>)
    requires RowsMirror(task, w.links)
    requires forall s :: NamesStory(open, s) <==> OpenOf(w, s, "Story")
    ensures var boss := FirstBossStory(task.issuelinks, open);
      && (boss.Some? ==> OpenOf(w, boss.value, "Story") && Implements(w.links, task.key, boss.value) && HasBossStory(w, task.key))
      && (boss.None? ==> !HasBossStory(w, task.key))
  {
    FirstBossFinds(task.issuelinks, open);
    var boss := FirstBossStory(task.issuelinks, open);
    if boss.Some? {
      BossAgrees(task, w.links, boss.value);
      var r :| r in task.issuelinks && r.typ == "Implements" && r.direction == Inward && r.key == boss.value;
      assert RowShows(w.links, task.key, r);
    }
  }

  lemma RelatedResolution(task: Issue, w: World, open: seq<Issue>)
    requires RowsMirror(task, w.links) && task.key in w.tickets && w.tickets[task.key] == task.ticket
    requires forall s :: NamesStory(open, s) <==> OpenOf(w, s, "Story")
    ensures var related, named := FirstRelatedStory(task.issuelinks, open), SummaryKey(task.ticket.summary);
      var found := if related.Some? then related else if named.Some? && NamesStory(open, named.value) then named else None;
      && (found.Some? ==> CouldOwn(w, task.key, found.value))
      && (found.None? ==> !Resolvable(w, task.key))
      && (found.Some? && HasRelatedStory(w, task.key) ==> Related(w.links, task.key, found.value))
  {
    FirstRelatedFinds(task.issuelinks, open);
    var related := FirstRelatedStory(task.issuelinks, open);
    if HasRelatedStory(w, task.key) {
      var s :| OpenOf(w, s, "Story") && Related(w.links, task.key, s);
      RelatedRows(task, w.links, s);
    }
    if related.Some? {
      RelatedRows(task, w.links, related.value);
    } else if Resolvable(w, task.key) {
      var s :| CouldOwn(w, task.key, s);
      RelatedRows(task, w.links, s);
    }
  }

  // ---------- every planned action fits the graph ----------

  ghost predicate AddFits(w: World, a: Action) {
    a.AddImplements?
    && ((a.ticket in StoryGaps(w) && w.tickets[a.ticket].parent == Some(a.otherEnd))
        || (a.ticket in TaskGaps(w) && OpenOf(w, a.otherEnd, "Story")))
  }

  ghost predicate RelatesFits(w: World, a: Action) {
    && a.DeleteRelates? && OpenOf(w, a.ticket, "Task") && OpenOf(w, a.otherEnd, "Story")
    && a.linkId in w.links && w.links[a.linkId].typ == "Relates" && Between(w.links[a.linkId], a.ticket, a.otherEnd)
  }

  ghost predicate BackFits(w: World, a: Action) {
    && a.DeleteBackwards? && a.linkId in w.links && w.links[a.linkId] == Link("Implements", a.ticket, a.otherEnd)
    && Backward(w.tickets, w.links[a.linkId]) && Implements(w.links, a.otherEnd, a.ticket)
  }

  ghost predicate Fits(w: World, a: Action) {
    AddFits(w, a) || RelatesFits(w, a) || BackFits(w, a)
  }

  /** No two adds for one ticket, no two deletes of one link. */
  ghost predicate Separate(actions: seq<Action>) {
    forall i, j :: 0 <= i < j < |actions| ==>
      && (actions[i].AddImplements? && actions[j].AddImplements? ==> actions[i].ticket != actions[j].ticket)
      && (!actions[i].AddImplements? && !actions[j].AddImplements? ==> actions[i].linkId != actions[j].linkId)
  }

  ghost predicate Apart(a: Action, b: Action) {
    && (a.AddImplements? && b.AddImplements? ==> a.ticket != b.ticket)
    && (!a.AddImplements? && !b.AddImplements? ==> a.linkId != b.linkId)
  }

  lemma SeparateJoin(a: seq<Action>, b: seq<Action>)
    requires Separate(a) && Separate(b)
    requires forall x, y :: x in a && y in b ==> Apart(x, y)
    ensures Separate(a + b)
  {
    forall i, j | 0 <= i < j < |a + b|
      ensures Apart((a + b)[i], (a + b)[j])
    {
      if i < |a| <= j {
        assert a[i] in a && b[j - |a|] in b;
      }
    }
  }

  /** What a task still relating to its story can count on: it implements the story, or is about to. */
  ghost predicate Covered(w: World, a: Action, actions: seq<Action>)
    requires a.DeleteRelates?
  {
    Implements(w.links, a.ticket, a.otherEnd) || AddImplements(a.ticket, a.otherEnd) in actions
  }

  lemma StoryActionsFit(issues: seq<Issue>, w: World, story: Issue)
    requires Mirrors(issues, w) && story in issues && IsOpen(story)
    ensures forall a :: a in StoryActions(story) ==> a.AddImplements? && a.ticket == story.key && AddFits(w, a) && a.ticket in StoryGaps(w)
    ensures story.key in StoryGaps(w) <==> StoryActions(story) != []
    ensures |StoryActions(story)| <= 1
  {
    if HasParent(story.ticket) {
      BossAgrees(story, w.links, story.ticket.parent.value);
    }
  }

  lemma TaskActionsFit(issues: seq<Issue>, w: World, task: Issue)
    requires Mirrors(issues, w) && task in issues && IsOpen(task)
    ensures var actions := TaskActions(task, OpenOnes(issues));
      && (forall a :: a in actions ==>
            && a.ticket == task.key
            && (a.AddImplements? ==> AddFits(w, a) && a.ticket in TaskGaps(w))
            && (!a.AddImplements? ==> RelatesFits(w, a) && Covered(w, a, actions)))
      && (task.key in TaskGaps(w) <==> exists a :: a in actions && a.AddImplements?)
      && Separate(actions)
  {
    var open := OpenOnes(issues);
    ResolutionIsRight(issues, w, task);
    var found := ResolveOwningStory(task, open);
    if task.ticket.issuetype == "Task" && found.Some? {
      hide ResolveOwningStory, OpenOnes, ReplaceRelates;
      BossAgrees(task, w.links, found.value);
      RelatesAgrees(task, w.links, found.value);
      var already, relates := ImplementsBoss(task, found.value), RelatesTo(task.issuelinks, found.value);
      hide ImplementsBoss, RelatesTo, RowsMirror;
      ReplacementFits(w, task.key, found.value, already, relates);
    }
  }

  lemma ReplacementFits(w: World, task: Key, story: Key, already: bool, relates: Option<LinkRow>)
    requires OpenOf(w, task, "Task") && OpenOf(w, story, "Story")
    requires already <==> Implements(w.links, task, story)
    requires HasBossStory(w, task) ==> already
    requires HasBossStory(w, task) || CouldOwn(w, task, story)
    requires relates.Some? ==>
      var id := relates.value.id;
      id in w.links && w.links[id].typ == "Relates" && Between(w.links[id], task, story)
    ensures var actions := ReplaceRelates(task, story, already, relates);
      && (forall a :: a in actions ==>
            && a.ticket == task
            && (a.AddImplements? ==> AddFits(w, a) && a.ticket in TaskGaps(w))
            && (!a.AddImplements? ==> RelatesFits(w, a) && Covered(w, a, actions)))
      && (task in TaskGaps(w) <==> exists a :: a in actions && a.AddImplements?)
      && Separate(actions)
  {
    hide Joined;
    var actions := ReplaceRelates(task, story, already, relates);
    if already {
      assert HasBossStory(w, task);
    } else {
      assert CouldOwn(w, task, story) && task in TaskGaps(w);
      assert actions[0] == AddImplements(task, story) && actions[0] in actions;
    }
  }

  lemma {:induction false} StoryListFits(issues: seq<Issue>, w: World, some: seq<Issue>)
    requires Mirrors(issues, w) && DistinctKeys(some) && forall i :: i in some ==> i in issues && IsOpen(i)
    ensures var actions := AllStoryActions(some);
      && (forall a :: a in actions ==> a.AddImplements? && AddFits(w, a) && a.ticket in StoryGaps(w) && exists i :: i in some && i.key == a.ticket)
      && (forall i :: i in some && i.key in StoryGaps(w) ==> exists a :: a in actions && a.ticket == i.key)
      && Separate(actions)
  {
    hide StoryGaps, AddFits, RowsMirror;
    if some != [] {
      var n := |some| - 1;
      assert some == some[..n] + [some[n]];
      StoryListFits(issues, w, some[..n]);
      StoryActionsFit(issues, w, some[n]);
      hide StoryActions;
      var before, last := AllStoryActions(some[..n]), StoryActions(some[n]);
      SeparateJoin(before, last);
      if last != [] {
        assert last[0] in before + last;
      }
    }
  }

  lemma {:induction false} TaskListFits(issues: seq<Issue>, w: World, some: seq<Issue>)
    requires Mirrors(issues, w) && DistinctKeys(some) && forall i :: i in some ==> i in issues && IsOpen(i)
    ensures var actions := AllTaskActions(some, OpenOnes(issues));
      && (forall a :: a in actions ==>
            && (exists i :: i in some && i.key == a.ticket)
            && (a.AddImplements? ==> AddFits(w, a) && a.ticket in TaskGaps(w))
            && (!a.AddImplements? ==> RelatesFits(w, a) && Covered(w, a, actions)))
      && (forall i :: i in some && i.key in TaskGaps(w) ==> exists a :: a in actions && a.AddImplements? && a.ticket == i.key)
      && Separate(actions)
  {
    hide TaskGaps, AddFits, RowsMirror, OpenOnes;
    if some != [] {
      var n := |some| - 1;
      assert some == some[..n] + [some[n]];
      TaskListFits(issues, w, some[..n]);
      TaskActionsFit(issues, w, some[n]);
      hide TaskActions;
      var before, last := AllTaskActions(some[..n], OpenOnes(issues)), TaskActions(some[n], OpenOnes(issues));
      forall x, y | x in before && y in last ensures Apart(x, y) {
        var i :| i in some[..n] && i.key == x.ticket;
        assert x.ticket != some[n].key;
      }
      SeparateJoin(before, last);
    }
  }

  // ---------- the backwards scan ----------

  /** A row of the fetch that shows a backwards link with a correct counterpart. */
  ghost predicate Deletable(w: World, id: LinkId) {
    && id in w.links && Backward(w.tickets, w.links[id])
    && Implements(w.links, w.links[id].inward, w.links[id].outward)
  }

  ghost predicate ScanFits(scan: Scan, w: World) {
    && (forall a :: a in scan.actions ==> BackFits(w, a) && a.linkId in scan.seen)
    && Separate(scan.actions)
    && (forall id :: id in scan.seen && Deletable(w, id) ==> exists a :: a in scan.actions && a.linkId == id)
  }

  lemma ScanDeletes(scan: Scan, w: World, a: Action)
    requires ScanFits(scan, w) && BackFits(w, a) && a.linkId !in scan.seen
    ensures ScanFits(scan.(actions := scan.actions + [a], seen := scan.seen + {a.linkId}), w)
  {
    hide Deletable, Backward, Implements;
    SeparateJoin(scan.actions, [a]);
    var actions := scan.actions + [a];
    assert a in actions;
    forall id | id in scan.seen && Deletable(w, id) ensures exists x :: x in actions && x.linkId == id {
      var x :| x in scan.actions && x.linkId == id;
      assert x in actions;
    }
  }

  lemma ScanPasses(scan: Scan, w: World, id: LinkId, unresolved: seq<Key>)
    requires ScanFits(scan, w) && !Deletable(w, id)
    ensures ScanFits(scan.(unresolved := unresolved, seen := scan.seen + {id}), w)
  {
    hide BackFits, Deletable;
  }

  /** What the scan reads off one row is what the graph says of the link. */
  lemma ScanReadsRight(issues: seq<Issue>, w: World, owner: Issue, row: LinkRow)
    requires Mirrors(issues, w) && owner in issues && row in owner.issuelinks
    ensures var low, high := Implementer(owner, row), Boss(owner, row);
      && row.id in w.links && w.links[row.id] == Link(row.typ, low, high)
      && KnownLevel(issues, low) == LevelIn(w.tickets, low) && KnownLevel(issues, high) == LevelIn(w.tickets, high)
      && (KnownLevel(issues, high).Some? ==>
            (ImplementsBoss(Lookup(issues, high).value, low) <==> Implements(w.links, high, low)))
  {
    var low, high := Implementer(owner, row), Boss(owner, row);
    assert RowShows(w.links, owner.key, row);
    LevelsAgree(issues, w, low);
    LevelsAgree(issues, w, high);
    LookupMember(issues, high);
    var found := Lookup(issues, high);
    hide Lookup, ImplementsBoss, Implements;
    if found.Some? {
      BossAgrees(found.value, w.links, low);
    }
  }

  lemma ScanRowFits(scan: Scan, issues: seq<Issue>, w: World, owner: Issue, row: LinkRow)
    requires Mirrors(issues, w) && owner in issues && row in owner.issuelinks && ScanFits(scan, w)
    ensures var scan' := ScanRow(scan, owner, row, issues);
      ScanFits(scan', w) && scan.seen <= scan'.seen && (Deletable(w, row.id) ==> row.id in scan'.seen)
  {
    hide Lookup, Implementer, Boss, KnownLevel, ImplementsBoss, Implements, Mirrors, ScanFits, LevelIn;
    ScanReadsRight(issues, w, owner, row);
    if row.typ == "Implements" && row.id !in scan.seen {
      if Deletable(w, row.id) {
        ScanDeletes(scan, w, DeleteBackwards(Implementer(owner, row), Boss(owner, row), row.id));
      } else {
        ScanPasses(scan, w, row.id, scan.unresolved + [owner.key]);
      }
    }
  }

  lemma {:induction false} ScanRowsFit(scan: Scan, issues: seq<Issue>, w: World, owner: Issue, rows: seq<LinkRow>)
    requires Mirrors(issues, w) && owner in issues && (forall r :: r in rows ==> r in owner.issuelinks) && ScanFits(scan, w)
    ensures var scan' := ScanRows(scan, owner, rows, issues);
      ScanFits(scan', w) && scan.seen <= scan'.seen && (forall r :: r in rows && Deletable(w, r.id) ==> r.id in scan'.seen)
  {
    if rows != [] {
      var n := |rows| - 1;
      assert rows == rows[..n] + [rows[n]];
      hide ScanRow, ScanFits, RowsMirror;
      ScanRowsFit(scan, issues, w, owner, rows[..n]);
      ScanRowFits(ScanRows(scan, owner, rows[..n], issues), issues, w, owner, rows[n]);
    }
  }

  lemma {:induction false} ScanOwnersFit(issues: seq<Issue>, w: World, owners: seq<Issue>)
    requires Mirrors(issues, w) && forall o :: o in owners ==> o in issues
    ensures var scan := ScanOwners(owners, issues);
      ScanFits(scan, w) && forall o, r :: o in owners && r in o.issuelinks && Deletable(w, r.id) ==> r.id in scan.seen
  {
    if owners != [] {
      var n := |owners| - 1;
      assert owners == owners[..n] + [owners[n]];
      ScanOwnersFit(issues, w, owners[..n]);
      hide ScanRows, ScanFits, RowsMirror;
      ScanRowsFit(ScanOwners(owners[..n], issues), issues, w, owners[n], owners[n].issuelinks);
    }
  }

  /** The scan deletes exactly the backwards links with a correct counterpart, each once. */
  lemma ScanIsExact(issues: seq<Issue>, w: World)
    requires Mirrors(issues, w)
    ensures var scan := ScanOwners(issues, issues);
      && ScanFits(scan, w)
      && (forall id :: Deletable(w, id) <==> exists a :: a in scan.actions && a.linkId == id)
  {
    ScanOwnersFit(issues, w, issues);
    var scan := ScanOwners(issues, issues);
    forall id | Deletable(w, id) ensures exists a :: a in scan.actions && a.linkId == id {
      var l := w.links[id];
      var o :| o in issues && o.key == l.outward;
      var row := LinkRow(id, l.typ, Inward, l.inward);
      assert row in o.issuelinks;
      assert row.id in scan.seen;
    }
  }

  // ---------- the whole plan ----------

  ghost predicate PlanFits(w: World, actions: seq<Action>) {
    && Separate(actions)
    && (forall a :: a in actions ==> Fits(w, a) && (a.DeleteRelates? ==> Covered(w, a, actions)))
  }

  lemma PlanPartsApart(issues: seq<Issue>, w: World)
    requires Mirrors(issues, w)
    ensures var actions := PlanOf(issues).actions;
      && Separate(actions)
      && (forall a :: a in actions ==> Fits(w, a) && (a.DeleteRelates? ==> Covered(w, a, actions)))
  {
    var open := OpenOnes(issues);
    OpenOnesMembers(issues);
    OpenOnesDistinct(issues);
    StoryListFits(issues, w, open);
    TaskListFits(issues, w, open);
    ScanIsExact(issues, w);
    var stories, tasks, scan := AllStoryActions(open), AllTaskActions(open, open), ScanOwners(issues, issues);
    hide AllStoryActions, AllTaskActions, ScanOwners, OpenOnes, RowsMirror, Joined, AddFits, Mirrors;
    forall x, y | x in stories && y in tasks ensures Apart(x, y) {
      assert x.ticket in StoryGaps(w) && (y.AddImplements? ==> y.ticket in TaskGaps(w));
    }
    SeparateJoin(stories, tasks);
    forall x, y | x in stories + tasks && y in scan.actions ensures Apart(x, y) {
      assert BackFits(w, y) && (!x.AddImplements? ==> RelatesFits(w, x));
    }
    SeparateJoin(stories + tasks, scan.actions);
  }

  /** The plan of a complete fetch: every action fits the graph, and every gap and every deletable
      backwards link has its action. */
  lemma PlanIsRight(issues: seq<Issue>, w: World)
    requires Mirrors(issues, w)
    ensures var actions := PlanOf(issues).actions;
      && PlanFits(w, actions)
      && (forall k :: k in StoryGaps(w) + TaskGaps(w) ==> exists a :: a in actions && a.AddImplements? && a.ticket == k)
      && (forall id :: Deletable(w, id) ==> exists a :: a in actions && a.DeleteBackwards? && a.linkId == id)
  {
    PlanPartsApart(issues, w);
    hide Fits, Covered;
    PlanCovers(issues, w);
  }

  lemma PlanCovers(issues: seq<Issue>, w: World)
    requires Mirrors(issues, w)
    ensures var actions := PlanOf(issues).actions;
      && (forall k :: k in StoryGaps(w) + TaskGaps(w) ==> exists a :: a in actions && a.AddImplements? && a.ticket == k)
      && (forall id :: Deletable(w, id) ==> exists a :: a in actions && a.DeleteBackwards? && a.linkId == id)
  {
    var open := OpenOnes(issues);
    OpenOnesMembers(issues);
    OpenOnesDistinct(issues);
    StoryListFits(issues, w, open);
    TaskListFits(issues, w, open);
    ScanIsExact(issues, w);
    var actions := PlanOf(issues).actions;
    assert actions == AllStoryActions(open) + AllTaskActions(open, open) + ScanOwners(issues, issues).actions;
    hide AllStoryActions, AllTaskActions, ScanOwners, OpenOnes, RowsMirror, Joined, AddFits, PlanOf, Separate;
    forall k | k in StoryGaps(w) + TaskGaps(w) ensures exists a :: a in actions && a.AddImplements? && a.ticket == k {
      var i :| i in issues && i.key == k;
      assert i in open;
    }
  }
}
