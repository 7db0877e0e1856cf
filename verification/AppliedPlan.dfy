/** What applying a plan does to the links, call by call, and what it reports (scripts/migrate-links.ts). */
module AppliedPlan {
  import opened Wrappers
  import opened MigrateLinks
  import opened Migration

  /** The add of that pair is known to have failed. */
  ghost predicate AddFailed(actions: seq<Action>, n: nat, server: Server, pair: string)
    requires n <= |actions|
  {
    exists i :: 0 <= i < n && actions[i].AddImplements? && PairKey(actions[i].ticket, actions[i].otherEnd) == pair && !server.reply(i).ok
  }

  /** A Relates delete whose own add failed is not tried. */
  ghost predicate Tried(actions: seq<Action>, server: Server, j: int)
    requires 0 <= j < |actions|
  {
    actions[j].DeleteRelates? ==> !AddFailed(actions, |actions|, server, PairKey(actions[j].ticket, actions[j].otherEnd))
  }

  ghost predicate Creates(actions: seq<Action>, n: nat, server: Server, i: int, id: LinkId)
    requires n <= |actions|
  {
    0 <= i < n && actions[i].AddImplements? && server.newId(i) == id && server.reply(i).effect
  }

  ghost predicate Deletes(actions: seq<Action>, n: nat, server: Server, j: int, id: LinkId)
    requires n <= |actions|
  {
    0 <= j < n && !actions[j].AddImplements? && actions[j].linkId == id && Tried(actions, server, j) && server.reply(j).effect
  }

  /** The adds' outcomes, in order, and then the deletes'. */
  ghost function AddOutcomes(actions: seq<Action>, n: nat, server: Server): seq<Attempt>
    requires n <= |actions|
  {
    if n == 0 then []
    else AddOutcomes(actions, n - 1, server) + if actions[n - 1].AddImplements? then [Attempt(actions[n - 1], server.reply(n - 1).ok)] else []
  }

  ghost function DeleteOutcomes(actions: seq<Action>, n: nat, server: Server): seq<Attempt>
    requires n <= |actions|
  {
    if n == 0 then []
    else
      DeleteOutcomes(actions, n - 1, server)
      + if actions[n - 1].AddImplements? then []
        else [Attempt(actions[n - 1], Tried(actions, server, n - 1) && server.reply(n - 1).ok)]
  }

  ghost predicate Created(actions: seq<Action>, n: nat, server: Server, id: LinkId)
    requires n <= |actions|
  {
    exists i :: Creates(actions, n, server, i, id)
  }

  ghost predicate Deleted(actions: seq<Action>, n: nat, server: Server, id: LinkId)
    requires n <= |actions|
  {
    exists j :: Deletes(actions, n, server, j, id)
  }

  ghost predicate AddedSoFar(links: Links, actions: seq<Action>, n: nat, server: Server, p: Progress)
    requires n <= |actions|
  {
    && (forall id :: id in p.links <==> id in links || Created(actions, n, server, id))
    && (forall id :: id in links ==> p.links[id] == links[id])
    && (forall i, id :: Creates(actions, n, server, i, id) ==> p.links[id] == Link("Implements", actions[i].ticket, actions[i].otherEnd))
    && (forall pair :: pair in p.failedAdds <==> AddFailed(actions, n, server, pair))
    && p.outcomes == AddOutcomes(actions, n, server)
  }

  lemma {:induction false} AfterAdds(links: Links, actions: seq<Action>, n: nat, server: Server)
    requires n <= |actions| && ServerFits(links, server)
    ensures AddedSoFar(links, actions, n, server, AddPhase(links, actions, n, server))
  {
    hide TryAdd;
    if n > 0 {
      hide AddedSoFar;
      AfterAdds(links, actions, n - 1, server);
      AddsOneMore(links, AddPhase(links, actions, n - 1, server), actions, n - 1, n, server);
    }
  }

  lemma AddsOneMore(links: Links, p: Progress, actions: seq<Action>, m: nat, n: nat, server: Server)
    requires n == m + 1 <= |actions| && ServerFits(links, server) && AddedSoFar(links, actions, m, server, p)
    ensures AddedSoFar(links, actions, n, server, TryAdd(p, actions[m], m, server))
  {
    hide Creates, AddFailed, Created, AddOutcomes;
    OneAddMore(actions, m, n, server);
    AddOutcomesStep(actions, n, server);
  }

  lemma AddOutcomesStep(actions: seq<Action>, n: nat, server: Server)
    requires 0 < n <= |actions|
    ensures AddOutcomes(actions, n, server)
      == AddOutcomes(actions, n - 1, server) + (if actions[n - 1].AddImplements? then [Attempt(actions[n - 1], server.reply(n - 1).ok)] else [])
  {
  }

  lemma OneAddMore(actions: seq<Action>, m: nat, n: nat, server: Server)
    requires n == m + 1 <= |actions|
    ensures forall i, id :: Creates(actions, n, server, i, id) <==>
              Creates(actions, m, server, i, id)
              || (i == m && actions[m].AddImplements? && server.newId(m) == id && server.reply(m).effect)
    ensures forall i, id :: Creates(actions, m, server, i, id) ==> 0 <= i < m && server.newId(i) == id && Created(actions, m, server, id)
    ensures forall id :: Created(actions, n, server, id) <==>
              Created(actions, m, server, id) || (actions[m].AddImplements? && server.newId(m) == id && server.reply(m).effect)
    ensures forall pair :: AddFailed(actions, n, server, pair) <==>
              AddFailed(actions, m, server, pair)
              || (actions[m].AddImplements? && PairKey(actions[m].ticket, actions[m].otherEnd) == pair && !server.reply(m).ok)
  {
    hide AddFailed;
    assert forall i, id :: Creates(actions, n, server, i, id) <==>
             Creates(actions, m, server, i, id)
             || (i == m && actions[m].AddImplements? && server.newId(m) == id && server.reply(m).effect);
    hide Creates;
    OneFailureMore(actions, m, n, server);
  }

  lemma OneFailureMore(actions: seq<Action>, m: nat, n: nat, server: Server)
    requires n == m + 1 <= |actions|
    ensures forall pair :: AddFailed(actions, n, server, pair) <==>
              AddFailed(actions, m, server, pair)
              || (actions[m].AddImplements? && PairKey(actions[m].ticket, actions[m].otherEnd) == pair && !server.reply(m).ok)
  {
  }

  lemma OneDeleteMore(actions: seq<Action>, m: nat, n: nat, server: Server)
    requires n == m + 1 <= |actions|
    ensures forall id :: Deleted(actions, n, server, id) <==>
              Deleted(actions, m, server, id)
              || (!actions[m].AddImplements? && actions[m].linkId == id && Tried(actions, server, m) && server.reply(m).effect)
    ensures DeleteOutcomes(actions, n, server)
      == DeleteOutcomes(actions, m, server)
         + (if actions[m].AddImplements? then [] else [Attempt(actions[m], Tried(actions, server, m) && server.reply(m).ok)])
  {
    hide Tried;
    assert forall j, id :: Deletes(actions, n, server, j, id) <==>
             Deletes(actions, m, server, j, id)
             || (j == m && !actions[m].AddImplements? && actions[m].linkId == id && Tried(actions, server, m) && server.reply(m).effect);
    hide Deletes;
    forall id ensures Deleted(actions, n, server, id) <==>
                        Deleted(actions, m, server, id)
                        || (!actions[m].AddImplements? && actions[m].linkId == id && Tried(actions, server, m) && server.reply(m).effect) {
      assert forall j :: Deletes(actions, m, server, j, id) ==> Deletes(actions, n, server, j, id);
      assert Deletes(actions, n, server, m, id) || !Deletes(actions, n, server, m, id);
    }
  }

  ghost predicate DeletedSoFar(p: Progress, actions: seq<Action>, n: nat, server: Server, q: Progress)
    requires n <= |actions|
  {
    && (forall id :: id in q.links <==> id in p.links && !Deleted(actions, n, server, id))
    && (forall id :: id in q.links ==> q.links[id] == p.links[id])
    && q.failedAdds == p.failedAdds
    && q.outcomes == p.outcomes + DeleteOutcomes(actions, n, server)
  }

  lemma DeletesOneMore(p: Progress, q: Progress, actions: seq<Action>, m: nat, n: nat, server: Server)
    requires n == m + 1 <= |actions| && DeletedSoFar(p, actions, m, server, q)
    requires forall pair :: pair in p.failedAdds <==> AddFailed(actions, |actions|, server, pair)
    ensures DeletedSoFar(p, actions, n, server, TryDelete(q, actions[m], m, server))
  {
    hide Deleted, DeleteOutcomes, AddFailed;
    OneDeleteMore(actions, m, n, server);
  }

  lemma {:induction false} AfterDeletes(links: Links, actions: seq<Action>, n: nat, server: Server)
    requires n <= |actions| && ServerFits(links, server)
    ensures DeletedSoFar(AddPhase(links, actions, |actions|, server), actions, n, server, DeletePhase(links, actions, n, server))
  {
    hide TryDelete, AddPhase, ServerFits;
    if n > 0 {
      hide DeletedSoFar;
      AfterDeletes(links, actions, n - 1, server);
      AfterAdds(links, actions, |actions|, server);
      hide AddFailed, Created, Creates, AddOutcomes;
      DeletesOneMore(AddPhase(links, actions, |actions|, server), DeletePhase(links, actions, n - 1, server), actions, n - 1, n, server);
    }
  }

  /** Applying a plan leaves exactly the links there were and those whose adds took effect, less those whose deletes were
      tried and took effect; a Relates delete is not tried exactly when its own pair's add is known to have failed; and
      every call is reported, the adds first, as having succeeded exactly when it was tried and said so. */
  lemma AppliedExactly(links: Links, plan: Plan, server: Server, id: LinkId)
    requires ServerFits(links, server)
    ensures var done, actions, n := Applied(links, plan, server), plan.actions, |plan.actions|;
      && (id in done.links <==>
            && (id in links || Created(actions, n, server, id))
            && !Deleted(actions, n, server, id))
      && (id in done.links && id in links ==> done.links[id] == links[id])
      && (forall i :: id in done.links && Creates(actions, n, server, i, id) ==>
            done.links[id] == Link("Implements", actions[i].ticket, actions[i].otherEnd))
      && done.outcomes == AddOutcomes(actions, n, server) + DeleteOutcomes(actions, n, server)
  {
    hide AddPhase, DeletePhase, Creates, Created, Deleted, AddOutcomes, DeleteOutcomes, ServerFits, AddFailed;
    AfterAdds(links, plan.actions, |plan.actions|, server);
    AfterDeletes(links, plan.actions, |plan.actions|, server);
  }
}
