/** The dashboard's withheld rows (src/agents/dashboard.ts): state updated poll by poll that is a function of the whole run. */
module Dashboard {
  import opened Wrappers

  type Key = string
  type Source = string

  /** A withheld row; `confirmedAt` is the poll that observed it. */
  datatype Row = Row(key: Key, confirmedAt: int)

  /** One source's part of the admission census. */
  datatype Report = Report(source: Source, checked: bool, withheld: seq<Key>, confirmedAt: int)

  /** A poll: the agent list could not be fetched, or it could. */
  datatype Poll = Failed(at: int) | Read(at: int, agents: seq<Key>, census: seq<Report>)

  type Rows = map<Source, seq<Row>>

  function KeySet(keys: seq<Key>): set<Key> { set k | k in keys }

  function Drop(rows: seq<Row>, agents: set<Key>): seq<Row> {
    if rows == [] then [] else (if rows[0].key in agents then [] else [rows[0]]) + Drop(rows[1..], agents)
  }

  function AllRows(keys: seq<Key>, at: int): seq<Row> {
    if keys == [] then [] else [Row(keys[0], at)] + AllRows(keys[1..], at)
  }

  /** The last checked report of a source in one census. */
  function ReportOf(census: seq<Report>, s: Source): Option<Report> {
    if census == [] then None
    else
      var last := census[|census| - 1];
      if last.checked && last.source == s then Some(last) else ReportOf(census[..|census| - 1], s)
  }

  // ---------- updateWithheldRows ----------

  function Rebuilt(census: seq<Report>, prior: Rows, agents: set<Key>): Rows {
    if census == [] then prior
    else
      var last := census[|census| - 1];
      var before := Rebuilt(census[..|census| - 1], prior, agents);
      if last.checked then before[last.source := Drop(AllRows(last.withheld, last.confirmedAt), agents)] else before
  }

  function Update(census: seq<Report>, prior: Rows, agents: set<Key>): Rows {
    var next := Rebuilt(census, prior, agents);
    map s | s in next :: Drop(next[s], agents)
  }

  lemma RowsFrom(withheld: seq<Key>, i: nat, at: int, agents: set<Key>)
    requires i < |withheld|
    ensures Drop(AllRows(withheld[i..], at), agents) ==
            (if withheld[i] in agents then [] else [Row(withheld[i], at)]) + Drop(AllRows(withheld[i + 1..], at), agents)
  {
    assert withheld[i..][1..] == withheld[i + 1..];
    assert AllRows(withheld[i..], at)[1..] == AllRows(withheld[i + 1..], at);
  }

  lemma NoRows(at: int, agents: set<Key>)
    ensures Drop(AllRows([], at), agents) == []
  {
  }

  method FreshRows(withheld: seq<Key>, at: int, agents: set<Key>) returns (rows: seq<Row>)
    ensures rows == Drop(AllRows(withheld, at), agents)
  {
    hide Drop, AllRows;
    rows := [];
    for i := 0 to |withheld|
      invariant rows + Drop(AllRows(withheld[i..], at), agents) == Drop(AllRows(withheld, at), agents)
    {
      RowsFrom(withheld, i, at, agents);
      if withheld[i] in agents { continue; }
      rows := rows + [Row(withheld[i], at)];
    }
    NoRows(at, agents);
    assert withheld[|withheld|..] == [];
  }

  lemma {:induction false} DropNone(rows: seq<Row>, agents: set<Key>)
    requires forall r :: r in rows ==> r.key !in agents
    ensures Drop(rows, agents) == rows
  {
    if rows != [] {
      assert rows[0] in rows && forall r :: r in rows[1..] ==> r in rows;
      DropNone(rows[1..], agents);
    }
  }

  /** The second loop: agents win over every retained row. */
  method AgentsWin(built: Rows, agents: set<Key>) returns (next: Rows)
    ensures next == map s | s in built :: Drop(built[s], agents)
  {
    next := built;
    var left := next.Keys;
    while left != {}
      invariant left <= built.Keys && next.Keys == built.Keys
      invariant forall s :: s in next ==> next[s] == if s in left then built[s] else Drop(built[s], agents)
      decreases |left|
    {
      var s :| s in left;
      left := left - {s};
      if exists r :: r in next[s] && r.key in agents {
        next := next[s := Drop(next[s], agents)];
      } else {
        DropNone(next[s], agents);
      }
    }
  }

  method UpdateWithheldRows(census: seq<Report>, prior: Rows, agents: set<Key>) returns (next: Rows)
    ensures next == Update(census, prior, agents)
  {
    next := prior;
    for i := 0 to |census|
      invariant next == Rebuilt(census[..i], prior, agents)
    {
      assert census[..i + 1][..i] == census[..i];
      if !census[i].checked { continue; }
      var rows := FreshRows(census[i].withheld, census[i].confirmedAt, agents);
      next := next[census[i].source := rows];
    }
    assert census[..|census|] == census;
    next := AgentsWin(next, agents);
  }

  // ---------- the feed ----------

  datatype Snapshot = Snapshot(checked: bool, at: int, agents: seq<Key>, withheld: Rows)

  class DashboardFeed {
    var current: Snapshot
    var withheldBySource: Rows

    constructor (now: int)
      ensures current == Snapshot(false, now, [], map[]) && withheldBySource == map[]
    {
      current := Snapshot(false, now, [], map[]);
      withheldBySource := map[];
    }

    /** A failed fetch only relabels the snapshot; a read rebuilds it. */
    method RunPoll(p: Poll)
      requires withheldBySource == current.withheld
      modifies this
      ensures withheldBySource == After(old(withheldBySource), p) && current.withheld == withheldBySource
      ensures current.checked == p.Read? && current.at == p.at
      ensures current.agents == if p.Read? then p.agents else old(current).agents
    {
      if p.Failed? {
        current := current.(checked := false, at := p.at);
        return;
      }
      withheldBySource := UpdateWithheldRows(p.census, withheldBySource, KeySet(p.agents));
      current := Snapshot(true, p.at, p.agents, withheldBySource);
    }
  }

  function After(rows: Rows, p: Poll): Rows {
    if p.Failed? then rows else Update(p.census, rows, KeySet(p.agents))
  }

  function Run(polls: seq<Poll>): Rows {
    if polls == [] then map[] else After(Run(polls[..|polls| - 1]), polls[|polls| - 1])
  }

  // ---------- the function of the run ----------

  predicate Reports(p: Poll, s: Source) { p.Read? && ReportOf(p.census, s).Some? }

  /** The last poll that checked the source. */
  function LastCheck(polls: seq<Poll>, s: Source): (i: int)
    ensures -1 <= i < |polls| && (i >= 0 ==> Reports(polls[i], s))
    ensures forall j :: i < j < |polls| ==> !Reports(polls[j], s)
  {
    if polls == [] then -1
    else if Reports(polls[|polls| - 1], s) then |polls| - 1
    else LastCheck(polls[..|polls| - 1], s)
  }

  /** Every key with an agent row at a successful poll from `i` on. */
  function AgentsSince(polls: seq<Poll>, i: nat): set<Key> {
    set j, k | i <= j < |polls| && polls[j].Read? && k in polls[j].agents :: k
  }

  /** What the rows should be: the bucket as last checked, less every key that has had an agent since. */
  function Expected(polls: seq<Poll>, s: Source): Option<seq<Row>> {
    var i := LastCheck(polls, s);
    if i < 0 then None
    else
      var r := ReportOf(polls[i].census, s).value;
      Some(Drop(AllRows(r.withheld, r.confirmedAt), AgentsSince(polls, i)))
  }

  function Found(rows: Rows, s: Source): Option<seq<Row>> {
    if s in rows then Some(rows[s]) else None
  }

  lemma {:induction false} DropTwice(rows: seq<Row>, a: set<Key>, b: set<Key>)
    ensures Drop(Drop(rows, a), b) == Drop(rows, a + b)
  {
    if rows != [] {
      DropTwice(rows[1..], a, b);
      var kept := Drop(rows[1..], a);
      assert [] + kept == kept;
      if rows[0].key !in a { assert ([rows[0]] + kept)[1..] == kept; }
    }
  }

  lemma {:induction false} RebuiltSource(census: seq<Report>, prior: Rows, agents: set<Key>, s: Source)
    ensures var r := ReportOf(census, s);
      Found(Rebuilt(census, prior, agents), s) ==
      if r.Some? then Some(Drop(AllRows(r.value.withheld, r.value.confirmedAt), agents)) else Found(prior, s)
  {
    if census != [] { RebuiltSource(census[..|census| - 1], prior, agents, s); }
  }

  /** One read, for one source: rebuilt when checked, carried forward when not, agents removed in both. */
  lemma UpdateSource(census: seq<Report>, prior: Rows, agents: set<Key>, s: Source)
    ensures var r := ReportOf(census, s);
      Found(Update(census, prior, agents), s) ==
      if r.Some? then Some(Drop(AllRows(r.value.withheld, r.value.confirmedAt), agents))
      else if s in prior then Some(Drop(prior[s], agents)) else None
  {
    RebuiltSource(census, prior, agents, s);
    var r := ReportOf(census, s);
    if r.Some? { DropTwice(AllRows(r.value.withheld, r.value.confirmedAt), agents, agents); assert agents + agents == agents; }
  }

  lemma LastCheckOf(polls: seq<Poll>, s: Source)
    requires polls != []
    ensures LastCheck(polls, s) ==
            if Reports(polls[|polls| - 1], s) then |polls| - 1 else LastCheck(polls[..|polls| - 1], s)
  {
  }

  /** After any run of successful and failed polls every source's rows are what the run says they are. */
  lemma {:induction false} RowsAreAFunctionOfTheRun(polls: seq<Poll>, s: Source)
    ensures Found(Run(polls), s) == Expected(polls, s)
  {
    if polls != [] {
      var n := |polls| - 1;
      var before, p := polls[..n], polls[n];
      RowsAreAFunctionOfTheRun(before, s);
      LastCheckOf(polls, s);
      var i := LastCheck(polls, s);
      hide LastCheck, ReportOf, Update, AllRows;
      if p.Failed? {
        if i >= 0 { assert AgentsSince(polls, i) == AgentsSince(before, i); }
      } else {
        UpdateSource(p.census, Run(before), KeySet(p.agents), s);
        if i == n {
          assert AgentsSince(polls, n) == KeySet(p.agents);
        } else if i >= 0 {
          var r := ReportOf(polls[i].census, s).value;
          DropTwice(AllRows(r.withheld, r.confirmedAt), AgentsSince(before, i), KeySet(p.agents));
          assert AgentsSince(polls, i) == AgentsSince(before, i) + KeySet(p.agents);
        }
      }
    }
  }

  // ---------- what that function says ----------

  /** Report i is the source's last checked one in a census. */
  predicate LastChecked(census: seq<Report>, s: Source, i: int) {
    && 0 <= i < |census| && census[i].checked && census[i].source == s
    && forall j :: i < j < |census| ==> !(census[j].checked && census[j].source == s)
  }

  lemma {:induction false} ReportIsTheLastChecked(census: seq<Report>, s: Source)
    ensures var r := ReportOf(census, s);
      && (r.None? ==> forall i :: 0 <= i < |census| ==> !(census[i].checked && census[i].source == s))
      && (r.Some? ==> exists i :: LastChecked(census, s, i) && r.value == census[i])
  {
    if census != [] {
      var n := |census| - 1;
      ReportIsTheLastChecked(census[..n], s);
      if census[n].checked && census[n].source == s {
        assert LastChecked(census, s, n);
      } else if ReportOf(census, s).Some? {
        var i :| LastChecked(census[..n], s, i) && ReportOf(census[..n], s).value == census[..n][i];
        assert LastChecked(census, s, i);
      }
    }
  }

  /** The rows are the withheld keys at these places, in order, each of that time; and the places are those of every key
      without an agent. */
  ghost predicate RowsAt(rows: seq<Row>, withheld: seq<Key>, at: int, agents: set<Key>, places: seq<nat>) {
    && |places| == |rows|
    && (forall k :: 0 <= k < |places| ==> places[k] < |withheld| && rows[k] == Row(withheld[places[k]], at))
    && (forall k, l :: 0 <= k < l < |places| ==> places[k] < places[l])
    && forall i: nat :: i in places <==> i < |withheld| && withheld[i] !in agents
  }

  lemma {:induction false} RowsHavePlaces(withheld: seq<Key>, at: int, agents: set<Key>) returns (places: seq<nat>)
    ensures RowsAt(Drop(AllRows(withheld, at), agents), withheld, at, agents, places)
    decreases |withheld|
  {
    if withheld == [] {
      places := [];
    } else {
      var n := |withheld| - 1;
      var last := withheld[n];
      places := RowsHavePlaces(withheld[..n], at, agents);
      LastRow(withheld[..n], last, at, agents);
      assert withheld == withheld[..n] + [last];
      assert forall k :: 0 <= k < |places| ==> places[k] in places;
      if last !in agents {
        ghost var before := places;
        places := places + [n];
        assert forall i :: i in places <==> i in before || i == n;
      }
    }
  }

  lemma {:induction false} LastRow(withheld: seq<Key>, last: Key, at: int, agents: set<Key>)
    ensures Drop(AllRows(withheld + [last], at), agents)
      == Drop(AllRows(withheld, at), agents) + (if last in agents then [] else [Row(last, at)])
  {
    if withheld == [] {
      assert withheld + [last] == [last] && AllRows([last], at) == [Row(last, at)];
    } else {
      LastRow(withheld[1..], last, at, agents);
      assert (withheld + [last])[1..] == withheld[1..] + [last];
      assert AllRows(withheld, at)[1..] == AllRows(withheld[1..], at);
      assert AllRows(withheld + [last], at)[1..] == AllRows(withheld[1..] + [last], at);
    }
  }

  /** So, once a source has been checked, its rows are the keys its last checked report held back, in that order, each
      with that report's time, less exactly those that have had an agent since. */
  lemma RowsAreTheWaiting(polls: seq<Poll>, s: Source)
    ensures var i := LastCheck(polls, s);
      && (i < 0 ==> Found(Run(polls), s).None?)
      && (i >= 0 ==>
            && Found(Run(polls), s).Some?
            && exists n, places ::
                 && LastChecked(polls[i].census, s, n)
                 && RowsAt(Found(Run(polls), s).value, polls[i].census[n].withheld, polls[i].census[n].confirmedAt,
                           AgentsSince(polls, i), places))
  {
    RowsAreAFunctionOfTheRun(polls, s);
    var i := LastCheck(polls, s);
    if i >= 0 {
      var census := polls[i].census;
      ReportIsTheLastChecked(census, s);
      hide LastCheck, AllRows, Drop, AgentsSince, RowsAt, ReportOf, Run, LastChecked;
      var n :| LastChecked(census, s, n) && ReportOf(census, s).value == census[n];
      var places := RowsHavePlaces(census[n].withheld, census[n].confirmedAt, AgentsSince(polls, i));
    }
  }

  /** A source that declines keeps its rows, less those whose key has an agent, and a failed poll changes none. */
  lemma DeclinersKeepTheirRows(rows: Rows, p: Poll, s: Source)
    requires p.Read? ==> ReportOf(p.census, s).None?
    requires p.Read? && s in rows ==> forall r :: r in rows[s] ==> r.key !in p.agents
    ensures Found(After(rows, p), s) == Found(rows, s)
  {
    if p.Read? {
      UpdateSource(p.census, rows, KeySet(p.agents), s);
      if s in rows { DropNone(rows[s], KeySet(p.agents)); }
    }
  }

  /** What one source reports, or whether it declines, is nothing to another: two polls that read the same agents
      and in which this source reports the same leave it the same rows, whatever the others did and held. */
  lemma DeclinesAreLocal(rows: Rows, rows': Rows, p: Poll, p': Poll, s: Source)
    requires p.Read? && p'.Read? && KeySet(p.agents) == KeySet(p'.agents)
    requires ReportOf(p.census, s) == ReportOf(p'.census, s)
    requires Found(rows, s) == Found(rows', s)
    ensures Found(After(rows, p), s) == Found(After(rows', p'), s)
  {
    UpdateSource(p.census, rows, KeySet(p.agents), s);
    UpdateSource(p'.census, rows', KeySet(p'.agents), s);
  }
}
