/** Which tickets a migration plan leaves to a person, and why (scripts/migrate-links.ts). */
module Unresolved {
  import opened Text
  import opened Wrappers
  import opened MigrateLinks
  import opened LinkGraph
  import opened PlanFacts

  // ---------- the key a summary names ----------

  lemma {:induction false} DigitsFromStops(s: string, i: nat)
    requires i <= |s|
    ensures var n := DigitsFrom(s, i); AllDigits(s[i..i + n]) && (i + n < |s| ==> !('0' <= s[i + n] <= '9'))
    decreases |s| - i
  {
    if i < |s| && '0' <= s[i] <= '9' {
      DigitsFromStops(s, i + 1);
      assert s[i..i + DigitsFrom(s, i)] == [s[i]] + s[i + 1..i + DigitsFrom(s, i)];
    }
  }

  lemma {:induction false} DigitsAreCounted(s: string, i: nat, n: nat)
    requires i + n < |s| && AllDigits(s[i..i + n]) && !('0' <= s[i + n] <= '9')
    ensures DigitsFrom(s, i) == n
    decreases n
  {
    if n > 0 {
      assert s[i..i + n][0] == s[i] && s[i..i + n][1..] == s[i + 1..i + n];
      DigitsAreCounted(s, i + 1, n - 1);
    }
  }

  ghost predicate SummaryParts(summary: string, key: Key, digits: string, rest: string) {
    digits != [] && AllDigits(digits) && key == "KAN-" + digits && summary == "[KAN-" + (digits + ("]" + rest))
  }

  lemma SummaryHasParts(summary: string, key: Key) returns (digits: string, rest: string)
    requires SummaryKey(summary) == Some(key)
    ensures SummaryParts(summary, key, digits, rest)
  {
    var n := DigitsFrom(summary, 5);
    DigitsFromStops(summary, 5);
    hide DigitsFrom;
    digits, rest := summary[5..5 + n], summary[6 + n..];
    assert summary[1..5] == summary[..5][1..] == "KAN-";
    assert key == "KAN-" + digits;
    assert summary == summary[..5] + (digits + ("]" + rest));
  }

  lemma SummaryIsRead(summary: string, key: Key, digits: string, rest: string)
    requires SummaryParts(summary, key, digits, rest)
    ensures SummaryKey(summary) == Some(key)
  {
    var n, tail := |digits|, digits + ("]" + rest);
    assert summary[..5] == "[KAN-" && summary[5..] == tail;
    assert summary[5..5 + n] == tail[..n] == digits && summary[5 + n] == tail[n] == ']';
    DigitsAreCounted(summary, 5, n);
    assert summary[1..5 + n] == summary[..5][1..] + digits;
  }

  /** A summary names a key exactly when it begins with that key, `KAN-` and a number, in brackets. */
  lemma SummaryNamesExactly(summary: string, key: Key)
    ensures SummaryKey(summary) == Some(key) <==> exists digits, rest :: SummaryParts(summary, key, digits, rest)
  {
    hide SummaryKey, SummaryParts;
    if SummaryKey(summary) == Some(key) { var digits, rest := SummaryHasParts(summary, key); }
    if digits, rest :| SummaryParts(summary, key, digits, rest) { SummaryIsRead(summary, key, digits, rest); }
  }

  // ---------- what is left ----------

  /** An Implements link the plan can say nothing about: an end has no level, or its implementer is not below its boss
      and there is no link the right way round to keep instead. */
  ghost predicate Stuck(w: World, id: LinkId) {
    id in w.links && w.links[id].typ == "Implements"
    && var low, high := w.links[id].outward, w.links[id].inward;
       || LevelIn(w.tickets, low).None? || LevelIn(w.tickets, high).None?
       || (LevelIn(w.tickets, low).value >= LevelIn(w.tickets, high).value && !Implements(w.links, high, low))
  }

  predicate EndOf(w: World, id: LinkId, k: Key) { id in w.links && (k == w.links[id].outward || k == w.links[id].inward) }

  /** An open task that implements no open story, and for which none can be found. */
  ghost predicate Orphan(w: World, k: Key) { OpenOf(w, k, "Task") && !HasBossStory(w, k) && !Resolvable(w, k) }

  ghost predicate ScanNames(scan: Scan, w: World) {
    && (forall k :: k in scan.unresolved ==> exists id :: Stuck(w, id) && EndOf(w, id, k))
    && forall id :: id in scan.seen && Stuck(w, id) ==> exists k :: k in scan.unresolved && EndOf(w, id, k)
  }

  lemma NamesOneMore(scan: Scan, w: World, id: LinkId, k: Key)
    requires ScanNames(scan, w) && id !in scan.seen && Stuck(w, id) && EndOf(w, id, k)
    ensures ScanNames(scan.(unresolved := scan.unresolved + [k], seen := scan.seen + {id}), w)
  {
    hide Stuck;
    var all := scan.unresolved + [k];
    forall x | x in scan.seen + {id} && Stuck(w, x) ensures exists e :: e in all && EndOf(w, x, e) {
      if x == id {
        assert k in all;
      } else {
        var e :| e in scan.unresolved && EndOf(w, x, e);
        assert e in all;
      }
    }
  }

  lemma NamesNoMore(scan: Scan, w: World, id: LinkId, actions: seq<Action>)
    requires ScanNames(scan, w) && !Stuck(w, id)
    ensures ScanNames(scan.(actions := actions, seen := scan.seen + {id}), w)
  {
    hide Stuck;
  }

  lemma RowNames(scan: Scan, issues: seq<Issue>, w: World, owner: Issue, row: LinkRow)
    requires Mirrors(issues, w) && owner in issues && row in owner.issuelinks && ScanNames(scan, w)
    ensures var scan' := ScanRow(scan, owner, row, issues);
      ScanNames(scan', w) && scan.seen <= scan'.seen && (Stuck(w, row.id) ==> row.id in scan'.seen)
  {
    hide Lookup, KnownLevel, ImplementsBoss, Implements, Mirrors, ScanNames, LevelIn;
    ScanReadsRight(issues, w, owner, row);
    if row.typ == "Implements" && row.id !in scan.seen {
      if Stuck(w, row.id) {
        NamesOneMore(scan, w, row.id, owner.key);
      } else {
        NamesNoMore(scan, w, row.id, scan.actions + [DeleteBackwards(Implementer(owner, row), Boss(owner, row), row.id)]);
      }
    }
  }

  lemma {:induction false} RowsName(scan: Scan, issues: seq<Issue>, w: World, owner: Issue, rows: seq<LinkRow>)
    requires Mirrors(issues, w) && owner in issues && (forall r :: r in rows ==> r in owner.issuelinks) && ScanNames(scan, w)
    ensures var scan' := ScanRows(scan, owner, rows, issues);
      ScanNames(scan', w) && scan.seen <= scan'.seen && (forall r :: r in rows && Stuck(w, r.id) ==> r.id in scan'.seen)
  {
    if rows != [] {
      var n := |rows| - 1;
      assert rows == rows[..n] + [rows[n]];
      hide ScanRow, ScanNames, RowsMirror, Stuck;
      RowsName(scan, issues, w, owner, rows[..n]);
      RowNames(ScanRows(scan, owner, rows[..n], issues), issues, w, owner, rows[n]);
    }
  }

  lemma {:induction false} OwnersName(issues: seq<Issue>, w: World, owners: seq<Issue>)
    requires Mirrors(issues, w) && forall o :: o in owners ==> o in issues
    ensures var scan := ScanOwners(owners, issues);
      ScanNames(scan, w) && forall o, r :: o in owners && r in o.issuelinks && Stuck(w, r.id) ==> r.id in scan.seen
  {
    if owners != [] {
      var n := |owners| - 1;
      assert owners == owners[..n] + [owners[n]];
      hide ScanRows, ScanNames, RowsMirror, Stuck;
      OwnersName(issues, w, owners[..n]);
      RowsName(ScanOwners(owners[..n], issues), issues, w, owners[n], owners[n].issuelinks);
    }
  }

  lemma {:induction false} TasksLeft(tasks: seq<Issue>, open: seq<Issue>, k: Key)
    ensures k in UnresolvedTasks(tasks, open) <==>
            exists t :: t in tasks && t.key == k && t.ticket.issuetype == "Task" && ResolveOwningStory(t, open).None?
  {
    hide ResolveOwningStory;
    if tasks != [] {
      var n := |tasks| - 1;
      TasksLeft(tasks[..n], open, k);
      assert tasks == tasks[..n] + [tasks[n]];
    }
  }

  lemma OrphansAreLeft(issues: seq<Issue>, w: World, k: Key)
    requires Mirrors(issues, w)
    ensures k in UnresolvedTasks(OpenOnes(issues), OpenOnes(issues)) <==> Orphan(w, k)
  {
    hide ResolveOwningStory, HasBossStory, Resolvable, CouldOwn, RowsMirror, UnresolvedTasks, OpenOnes;
    var open := OpenOnes(issues);
    TasksLeft(open, open, k);
    OpenOnesMembers(issues);
    forall t | t in open ensures t in issues && (ResolveOwningStory(t, open).None? <==> !HasBossStory(w, t.key) && !Resolvable(w, t.key)) {
      ResolutionIsRight(issues, w, t);
      OwnedIsResolvable(w, t.key, ResolveOwningStory(t, open));
    }
  }

  lemma OwnedIsResolvable(w: World, task: Key, found: Option<Key>)
    requires task in w.tickets && (found.Some? && !HasBossStory(w, task) ==> CouldOwn(w, task, found.value))
    ensures found.Some? ==> HasBossStory(w, task) || Resolvable(w, task)
  {
    hide HasBossStory, CouldOwn;
  }

  /** A link is in the fetch when one of its ends is. */
  predicate Shown(w: World, id: LinkId) {
    id in w.links && (w.links[id].outward in w.tickets || w.links[id].inward in w.tickets)
  }

  lemma ShownIsScanned(issues: seq<Issue>, w: World, id: LinkId)
    requires Mirrors(issues, w) && Shown(w, id)
    ensures exists o, r :: o in issues && r in o.issuelinks && r.id == id
  {
    var l := w.links[id];
    var k := if l.outward in w.tickets then l.outward else l.inward;
    var o :| o in issues && o.key == k;
    assert RowsMirror(o, w.links);
    var r := if l.outward == k then LinkRow(id, l.typ, Inward, l.inward) else LinkRow(id, l.typ, Outward, l.outward);
    assert r in o.issuelinks && r.id == id;
  }

  /** Of a complete fetch the plan leaves unresolved exactly its orphans and, for each stuck link shown, an end of it. */
  lemma UnresolvedExactly(issues: seq<Issue>, w: World)
    requires Mirrors(issues, w)
    ensures var unresolved := PlanOf(issues).unresolved;
      && (forall k :: Orphan(w, k) ==> k in unresolved)
      && (forall id :: Stuck(w, id) && Shown(w, id) ==> exists k :: k in unresolved && EndOf(w, id, k))
      && (forall k :: k in unresolved ==> Orphan(w, k) || exists id :: Stuck(w, id) && EndOf(w, id, k))
  {
    hide Stuck, Orphan, ScanOwners, UnresolvedTasks, OpenOnes, Mirrors, Shown, EndOf;
    var open, scan := OpenOnes(issues), ScanOwners(issues, issues);
    OwnersName(issues, w, issues);
    forall k ensures k in UnresolvedTasks(open, open) <==> Orphan(w, k) { OrphansAreLeft(issues, w, k); }
    forall id | Stuck(w, id) && Shown(w, id)
      ensures exists k :: k in PlanOf(issues).unresolved && EndOf(w, id, k)
    {
      ShownIsScanned(issues, w, id);
      assert id in scan.seen;
      var k :| k in scan.unresolved && EndOf(w, id, k);
      assert k in PlanOf(issues).unresolved;
    }
  }
}
