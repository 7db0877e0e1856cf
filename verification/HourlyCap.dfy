/** The pruned hourly rate cap (`RateCap`, src/agents/escalation-helper.ts). */
module HourlyCap {

  /** The times still inside the window at `now`. */
  function Recent(times: seq<int>, now: int, window: int): seq<int> {
    if times == [] then []
    else (if now - times[0] < window then [times[0]] else []) + Recent(times[1..], now, window)
  }

  const HOUR_MS := 60 * 60_000

  type Posts = map<string, seq<int>>

  function PostsFor(posts: Posts, key: string): seq<int> {
    if key in posts then posts[key] else []
  }

  datatype Call = Allow(key: string, now: int) | Record(key: string, now: int)

  function After(posts: Posts, c: Call, window: int): Posts {
    match c
    case Allow(key, now) => posts[key := Recent(PostsFor(posts, key), now, window)]
    case Record(key, now) => posts[key := PostsFor(posts, key) + [now]]
  }

  lemma RecentFrom(times: seq<int>, i: nat, now: int, window: int)
    requires i < |times|
    ensures Recent(times[i..], now, window) ==
            (if now - times[i] < window then [times[i]] else []) + Recent(times[i + 1..], now, window)
  {
    assert times[i..][1..] == times[i + 1..];
  }

  lemma RecentNone(now: int, window: int)
    ensures Recent([], now, window) == []
  {
  }

  /** `filter` over the kept times. */
  method StillRecent(times: seq<int>, now: int, window: int) returns (kept: seq<int>)
    ensures kept == Recent(times, now, window)
  {
    hide Recent;
    kept := [];
    for i := 0 to |times|
      invariant kept + Recent(times[i..], now, window) == Recent(times, now, window)
    {
      RecentFrom(times, i, now, window);
      if now - times[i] < window { kept := kept + [times[i]]; }
    }
    RecentNone(now, window);
    assert times[|times|..] == [];
  }

  class RateCap {
    const max: int
    const window: int
    var posts: Posts

    constructor (max: int, window: int)
      ensures this.max == max && this.window == window && posts == map[]
    {
      this.max, this.window, posts := max, window, map[];
    }

    /** Prunes as it answers; records nothing. */
    method AllowPost(key: string, now: int) returns (ok: bool)
      modifies this
      ensures posts == After(old(posts), Allow(key, now), window)
      ensures ok <==> |Recent(PostsFor(old(posts), key), now, window)| < max
    {
      var kept := StillRecent(PostsFor(posts, key), now, window);
      posts := posts[key := kept];
      ok := |kept| < max;
    }

    method RecordPost(key: string, now: int)
      modifies this
      ensures posts == After(old(posts), Record(key, now), window)
    {
      posts := posts[key := PostsFor(posts, key) + [now]];
    }
  }

  // ---------- runs ----------

  function Pruned(calls: seq<Call>, window: int): Posts {
    if calls == [] then map[] else After(Pruned(calls[..|calls| - 1], window), calls[|calls| - 1], window)
  }

  /** Every post ever recorded for a key. */
  function History(calls: seq<Call>, key: string): seq<int> {
    if calls == [] then []
    else
      var before := History(calls[..|calls| - 1], key);
      var last := calls[|calls| - 1];
      if last.Record? && last.key == key then before + [last.now] else before
  }

  /** The clock never goes back, and has reached `now`. */
  ghost predicate Monotone(calls: seq<Call>, now: int) {
    && (forall i, j :: 0 <= i < j < |calls| ==> calls[i].now <= calls[j].now)
    && (forall i :: 0 <= i < |calls| ==> calls[i].now <= now)
  }

  lemma {:induction false} RecentInParts(a: seq<int>, b: seq<int>, now: int, window: int)
    ensures Recent(a + b, now, window) == Recent(a, now, window) + Recent(b, now, window)
  {
    if a == [] {
      assert a + b == b;
    } else {
      assert (a + b)[1..] == a[1..] + b;
      RecentInParts(a[1..], b, now, window);
    }
  }

  /** What an earlier pruning dropped would be dropped later anyway. */
  lemma {:induction false} RecentTwice(times: seq<int>, earlier: int, now: int, window: int)
    requires earlier <= now
    ensures Recent(Recent(times, earlier, window), now, window) == Recent(times, now, window)
  {
    if times != [] {
      RecentTwice(times[1..], earlier, now, window);
      var first := if earlier - times[0] < window then [times[0]] else [];
      RecentInParts(first, Recent(times[1..], earlier, window), now, window);
    }
  }

  /** Pruning forgets nothing that matters: at any time from now on the kept times and the full history
      have the same posts in the window, so `allow` answers as if every post had been kept. */
  lemma {:induction false} PruningForgetsNothing(calls: seq<Call>, key: string, now: int, window: int)
    requires Monotone(calls, now)
    ensures Recent(PostsFor(Pruned(calls, window), key), now, window) == Recent(History(calls, key), now, window)
    decreases |calls|
  {
    if calls != [] {
      var before, last := calls[..|calls| - 1], calls[|calls| - 1];
      PruningForgetsNothing(before, key, now, window);
      var kept := PostsFor(Pruned(before, window), key);
      if last.key == key {
        if last.Allow? {
          RecentTwice(kept, last.now, now, window);
        } else {
          RecentInParts(kept, [last.now], now, window);
          RecentInParts(History(before, key), [last.now], now, window);
        }
      }
    }
  }

  // ---------- the cap holds over every window ----------

  /** The posts in the window that ends at `at`. */
  function InWindow(times: seq<int>, at: int, window: int): nat {
    if times == [] then 0
    else
      var last := times[|times| - 1];
      (if last <= at && at - last < window then 1 else 0) + InWindow(times[..|times| - 1], at, window)
  }

  /** Each post was allowed beforehand, with no other post for its key in between. */
  ghost predicate GuardedBy(calls: seq<Call>, i: int, j: int, max: int, window: int) {
    && 0 <= j < i < |calls| && calls[i].Record? && calls[j] == Allow(calls[i].key, calls[j].now)
    && |Recent(PostsFor(Pruned(calls[..j], window), calls[i].key), calls[j].now, window)| < max
    && forall k :: j < k < i ==> !(calls[k].Record? && calls[k].key == calls[i].key)
  }

  ghost predicate Guarded(calls: seq<Call>, max: int, window: int) {
    forall i :: 0 <= i < |calls| && calls[i].Record? ==> exists j :: GuardedBy(calls, i, j, max, window)
  }

  lemma {:induction false} WindowIsRecent(times: seq<int>, asked: int, at: int, window: int)
    requires asked <= at
    ensures InWindow(times, at, window) <= |Recent(times, asked, window)|
    decreases |times|
  {
    if times != [] {
      var before := times[..|times| - 1];
      WindowIsRecent(before, asked, at, window);
      RecentInParts(before, [times[|times| - 1]], asked, window);
      assert times == before + [times[|times| - 1]];
    }
  }

  lemma {:induction false} HistoryStill(calls: seq<Call>, j: nat, key: string)
    requires j <= |calls| && forall k :: j <= k < |calls| ==> !(calls[k].Record? && calls[k].key == key)
    ensures History(calls, key) == History(calls[..j], key)
    decreases |calls|
  {
    if j < |calls| {
      HistoryStill(calls[..|calls| - 1], j, key);
      assert calls[..|calls| - 1][..j] == calls[..j];
    } else {
      assert calls[..j] == calls;
    }
  }

  lemma GuardedPrefix(calls: seq<Call>, n: nat, max: int, window: int)
    requires n <= |calls| && Guarded(calls, max, window)
    ensures Guarded(calls[..n], max, window)
  {
    forall i | 0 <= i < n && calls[..n][i].Record? ensures exists j :: GuardedBy(calls[..n], i, j, max, window) {
      assert calls[i].Record?;
      var j :| GuardedBy(calls, i, j, max, window);
      assert calls[..n][..j] == calls[..j];
      assert GuardedBy(calls[..n], i, j, max, window);
    }
  }

  lemma MonotonePrefix(calls: seq<Call>, n: nat, now: int)
    requires n <= |calls| && Monotone(calls, now)
    ensures Monotone(calls[..n], now)
  {
  }

  lemma MonotoneThere(calls: seq<Call>, j: nat, now: int)
    requires j < |calls| && Monotone(calls, now)
    ensures Monotone(calls[..j], calls[j].now)
  {
  }

  /** Between being asked for and made, no other post for the key was recorded. */
  lemma AskedHistory(calls: seq<Call>, i: int, j: int, max: int, window: int)
    requires GuardedBy(calls, i, j, max, window)
    ensures History(calls[..i], calls[i].key) == History(calls[..j], calls[i].key)
  {
    var before := calls[..i];
    hide Pruned, Recent;
    HistoryStill(before, j + 1, calls[i].key);
    assert before[..j + 1] == calls[..j + 1] && calls[..j + 1][..j] == calls[..j];
  }

  /** When it was asked for, the full history had room. */
  lemma AskedRoom(calls: seq<Call>, i: int, j: int, max: int, window: int, now: int)
    requires GuardedBy(calls, i, j, max, window) && Monotone(calls, now)
    ensures |Recent(History(calls[..j], calls[i].key), calls[j].now, window)| < max && calls[j].now <= calls[i].now
  {
    MonotoneThere(calls, j, now);
    PruningForgetsNothing(calls[..j], calls[i].key, calls[j].now, window);
    hide Pruned, Recent, History;
  }

  /** The last post, within the window, had room when it was asked for. */
  lemma LastPostFits(calls: seq<Call>, now: int, at: int, max: int, window: int)
    requires Monotone(calls, now) && Guarded(calls, max, window) && calls != []
    requires calls[|calls| - 1].Record? && calls[|calls| - 1].now <= at
    ensures InWindow(History(calls[..|calls| - 1], calls[|calls| - 1].key), at, window) < max
  {
    var n := |calls| - 1;
    var j :| GuardedBy(calls, n, j, max, window);
    AskedHistory(calls, n, j, max, window);
    AskedRoom(calls, n, j, max, window, now);
    assert 0 <= j < n;
    hide Guarded, GuardedBy, Monotone, Pruned, Recent, InWindow, History;
    WindowIsRecent(History(calls[..j], calls[n].key), calls[j].now, at, window);
  }

  /** With a clock that never goes back, guarded posts never exceed the cap in any window. */
  lemma {:induction false} NoWindowOverfills(calls: seq<Call>, now: int, key: string, at: int, max: int, window: int)
    requires Monotone(calls, now) && Guarded(calls, max, window) && max >= 0
    ensures InWindow(History(calls, key), at, window) <= max
    decreases |calls|
  {
    if calls != [] {
      hide Guarded, Monotone;
      var n := |calls| - 1;
      GuardedPrefix(calls, n, max, window);
      MonotonePrefix(calls, n, now);
      NoWindowOverfills(calls[..n], now, key, at, max, window);
      var last := calls[n];
      if last.Record? && last.key == key {
        if last.now <= at { LastPostFits(calls, now, at, max, window); }
        assert History(calls, key)[..|History(calls, key)| - 1] == History(calls[..n], key);
      }
    }
  }
}
