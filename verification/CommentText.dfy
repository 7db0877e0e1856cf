/** The comments the daemon writes and looks for, as text (src/agents/escalation-helper.ts). */
module CommentText {
  import opened Text
  import opened Wrappers

  type CommentId = string

  /** A comment as read back; `created` is None when its timestamp does not parse. */
  datatype Comment = Comment(id: CommentId, body: string, created: Option<int>)

  /** The source's `Date.parse(created) || now()`: an unreadable or zero time counts as now. */
  function TimeOr(created: Option<int>, now: int): int {
    if created.Some? && created.value != 0 then created.value else now
  }

  predicate HasAll(body: string, need: seq<string>) {
    forall i :: 0 <= i < |need| ==> Contains(body, need[i])
  }

  /** The newest comment that starts with the marker and contains every needed string. */
  function FindMarked(comments: seq<Comment>, marker: string, need: seq<string>): Option<Comment> {
    if comments == [] then None
    else if StartsWith(comments[0].body, marker) && HasAll(comments[0].body, need) then Some(comments[0])
    else FindMarked(comments[1..], marker, need)
  }

  /** It finds a matching comment whenever there is one, the first in the given order. */
  lemma {:induction false} FindMarkedFinds(comments: seq<Comment>, marker: string, need: seq<string>)
    ensures var found := FindMarked(comments, marker, need);
      && (found.None? ==> forall c :: c in comments ==> !(StartsWith(c.body, marker) && HasAll(c.body, need)))
      && (found.Some? ==>
            exists i :: 0 <= i < |comments| && comments[i] == found.value
              && StartsWith(found.value.body, marker) && HasAll(found.value.body, need)
              && forall j :: 0 <= j < i ==> !(StartsWith(comments[j].body, marker) && HasAll(comments[j].body, need)))
  {
    if comments != [] {
      FindMarkedFinds(comments[1..], marker, need);
      var found := FindMarked(comments, marker, need);
      if StartsWith(comments[0].body, marker) && HasAll(comments[0].body, need) {
        assert comments[0] == found.value;
      } else {
        assert comments == [comments[0]] + comments[1..];
        if found.Some? {
          var i :| 0 <= i < |comments[1..]| && comments[1..][i] == found.value
                   && forall j :: 0 <= j < i ==> !(StartsWith(comments[1..][j].body, marker) && HasAll(comments[1..][j].body, need));
          forall j | 0 <= j < i + 1 ensures !(StartsWith(comments[j].body, marker) && HasAll(comments[j].body, need)) {
            if j > 0 { assert comments[j] == comments[1..][j - 1]; }
          }
          assert comments[i + 1] == found.value;
        }
      }
    }
  }
}
