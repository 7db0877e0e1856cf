/** The keys of a delivery over whole histories: once the re-read matches, all that the directive asks for, in order. */
module EscalatorKeys {
  import opened Wrappers
  import opened CommentText
  import opened Directives
  import opened Escalator
  import opened EscalatorSafety
  import opened EscalatorTrace
  import opened EscalatorSteps

  /** How many sends of the pane have ended. */
  function Sends(events: seq<Event>, pane: Pane): nat {
    if events == [] then 0
    else (if events[0].SendEnded? && events[0].pane == pane then 1 else 0) + Sends(events[1..], pane)
  }

  /** No restart, and no send of the pane failed. */
  predicate Smooth(events: seq<Event>, pane: Pane) {
    forall i :: 0 <= i < |events| ==> !events[i].Restart? && (events[i].SendEnded? && events[i].pane == pane ==> events[i].ok)
  }

  predicate NoDelivery(notes: Trace) { forall i :: 0 <= i < |notes| ==> !notes[i].Delivery? }

  /** With that many sends ended, one key more has gone out and waits, until all have. */
  ghost predicate Underway(m: Memory, pane: Pane, t: Trace, w: Warrant, sends: nat) {
    var want := Wanted(w);
    if sends < |want| then
      && Typed(t) == want[..sends + 1] && pane in m.inFlight
      && m.inFlight[pane] == Sending(m.inFlight[pane].issue, want[sends + 1..], w)
    else Typed(t) == want && (pane in m.inFlight ==> !m.inFlight[pane].PaneRead? && !m.inFlight[pane].Sending?)
  }

  lemma {:induction false} OtherNotesTypeNothing(t: Trace, notes: Trace)
    requires NoDelivery(notes) && forall i :: 0 <= i < |notes| ==> !notes[i].Pressed?
    ensures Typed(t + notes) == Typed(t)
    decreases |notes|
  {
    if notes == [] {
      assert t + notes == t;
    } else {
      var n := |notes| - 1;
      assert (t + notes)[..|t + notes| - 1] == t + notes[..n] && (t + notes)[|t + notes| - 1] == notes[n];
      OtherNotesTypeNothing(t, notes[..n]);
    }
  }

  lemma SendTypesTheNext(m: Memory, pane: Pane, t: Trace, w: Warrant, sends: nat)
    requires Underway(m, pane, t, w, sends) && pane in m.inFlight && m.inFlight[pane].Sending?
    ensures Underway(Sent(m, pane, true).memory, pane, t + Sent(m, pane, true).notes, w, sends + 1)
  {
    hide Wanted, Typed;
    var want := Wanted(w);
    assert sends < |want|;
    var rest := want[sends + 1..];
    if rest == [] {
      assert want[..sends + 1] == want;
      assert t + [] == t;
    } else {
      OneMoreKey(t, rest[0], w);
      assert want[..sends + 1] + [rest[0]] == want[..sends + 2] && rest[1..] == want[sends + 2..];
    }
  }

  lemma OneMoreKey(t: Trace, keys: Keys, w: Warrant)
    ensures Typed(t + [Pressed(keys, w)]) == Typed(t) + [keys]
  {
    assert (t + [Pressed(keys, w)])[..|t|] == t;
  }

  /** No other step of the pane types, or starts typing without a delivery. */
  lemma OthersTypeNothing(w: World, e: Event)
    requires Coherent(w.memory) && Enabled(w, e) && Acts(e) && !e.SendEnded? && !e.PaneReRead?
    ensures var r := React(w, e);
      && (forall i :: 0 <= i < |r.notes| ==> !r.notes[i].Pressed?)
      && (e.pane in w.memory.inFlight && w.memory.inFlight[e.pane].Sending? ==> WaitingOf(r.memory, e.pane) == WaitingOf(w.memory, e.pane))
      && (WaitingOf(r.memory, e.pane) == WaitingOf(w.memory, e.pane) || e.pane !in r.memory.inFlight
          || (!r.memory.inFlight[e.pane].Sending?
              && (NoDelivery(r.notes) ==> !r.memory.inFlight[e.pane].PaneRead?)))
  {
    hide Sighted, StalePoll, FirstAnswer, FindMarked, FollowupComment, FollowupTag, EscalationComment, FirstEscalation, Recent, CapNotice,
         ParseDirective, CallFits, Coherent, NewState;
    if e.ReadAnswered? && e.rows.Some? && w.memory.inFlight[e.pane].DirectiveRead? {
      CallNeedsTime(w.memory, e.pane);
      var notes := React(w, e).notes;
      assert notes != [] && NoDelivery(notes) ==> !notes[0].Delivery?;
    }
  }

  lemma ActTypes(w: World, e: Event, t: Trace, warrant: Warrant, sends: nat)
    requires Coherent(w.memory) && Enabled(w, e) && Acts(e) && Underway(w.memory, e.pane, t, warrant, sends)
    requires (e.SendEnded? ==> e.ok) && NoDelivery(React(w, e).notes)
    ensures Underway(React(w, e).memory, e.pane, t + React(w, e).notes, warrant, sends + if e.SendEnded? then 1 else 0)
  {
    hide Typed, Wanted, Coherent;
    if e.SendEnded? {
      SendTypesTheNext(w.memory, e.pane, t, warrant, sends);
    } else {
      OthersTypeNothing(w, e);
      OtherNotesTypeNothing(t, React(w, e).notes);
      hide React, NoDelivery;
    }
  }

  lemma StepTypes(w: World, e: Event, pane: Pane, t: Trace, warrant: Warrant, sends: nat)
    requires Coherent(w.memory) && Enabled(w, e) && Underway(w.memory, pane, t, warrant, sends)
    requires Smooth([e], pane) && NoDelivery(NotesFor(w, e, pane))
    ensures Underway(Step(w, e).memory, pane, t + NotesFor(w, e, pane), warrant, sends + Sends([e], pane))
  {
    hide Typed, Wanted, Coherent;
    assert [e][0] == e && [e][1..] == [];
    var notes := NotesFor(w, e, pane);
    if Acts(e) && e.pane == pane {
      ActTypes(w, e, t, warrant, sends);
    } else {
      if Acts(e) { ReactIsGood(w, e); assert Untouched(w.memory, React(w, e).memory, pane); }
      OtherNotesTypeNothing(t, notes);
      assert WaitingOf(Step(w, e).memory, pane) == WaitingOf(w.memory, pane);
    }
  }

  lemma {:induction false} TraceGrows(w: World, events: seq<Event>, pane: Pane, t: Trace)
    requires Coherent(w.memory) && History(w, events)
    ensures t <= TraceFrom(w, events, pane, t)
    decreases |events|
  {
    if events != [] {
      StepKeepsCoherent(w, events[0]);
      hide Coherent, Step, Enabled, NotesFor;
      TraceGrows(Step(w, events[0]), events[1..], pane, t + NotesFor(w, events[0], pane));
    }
  }

  lemma {:induction false} RunTypes(w: World, events: seq<Event>, pane: Pane, t: Trace, warrant: Warrant, sends: nat)
    requires Coherent(w.memory) && History(w, events) && Underway(w.memory, pane, t, warrant, sends)
    requires Smooth(events, pane) && forall i :: |t| <= i < |TraceFrom(w, events, pane, t)| ==> !TraceFrom(w, events, pane, t)[i].Delivery?
    ensures Coherent(After(w, events).memory)
    ensures Underway(After(w, events).memory, pane, TraceFrom(w, events, pane, t), warrant, sends + Sends(events, pane))
    decreases |events|
  {
    hide Coherent, Step, Enabled, NotesFor, Underway;
    if events != [] {
      var e, notes := events[0], NotesFor(w, events[0], pane);
      StepKeepsCoherent(w, e);
      TraceGrows(Step(w, e), events[1..], pane, t + notes);
      var all := TraceFrom(w, events, pane, t);
      assert forall i :: 0 <= i < |notes| ==> all[|t| + i] == (t + notes)[|t| + i] == notes[i];
      assert forall i :: 0 <= i < |events[1..]| ==> events[1..][i] == events[i + 1];
      StepTypes(w, e, pane, t, warrant, sends);
      assert [e][0] == e && [e][1..] == [] && Sends([e], pane) + Sends(events[1..], pane) == Sends(events, pane);
      RunTypes(Step(w, e), events[1..], pane, t + notes, warrant, sends + Sends([e], pane));
    }
  }

  lemma {:induction false} HistorySplits(w: World, a: seq<Event>, b: seq<Event>, pane: Pane, t: Trace)
    requires Coherent(w.memory) && History(w, a + b)
    ensures History(w, a) && Coherent(After(w, a).memory) && History(After(w, a), b)
    ensures TraceFrom(w, a + b, pane, t) == TraceFrom(After(w, a), b, pane, TraceFrom(w, a, pane, t))
    ensures After(w, a + b) == After(After(w, a), b)
    decreases |a|
  {
    hide Coherent, Step, Enabled, NotesFor;
    if a == [] {
      assert a + b == b;
    } else {
      StepKeepsCoherent(w, a[0]);
      assert (a + b)[0] == a[0] && (a + b)[1..] == a[1..] + b;
      HistorySplits(Step(w, a[0]), a[1..], b, pane, t + NotesFor(w, a[0], pane));
    }
  }

  /** The re-read shows the escalated dialog, and the directive under way names no other. */
  ghost predicate Matches(t: Trace, live: Dialog) {
    && LastDelivery(t).Some? && LastDelivery(t).value.Delivery? && Shown(t) == Some(live.fp)
    && var d := LastDelivery(t).value.directive; d.fp.Some? ==> d.fp.value == live.fp
  }

  lemma NothingTypedYet(before: seq<Event>, pane: Pane, reread: Option<Option<Dialog>>)
    requires Next(before, PaneReRead(pane, reread))
    ensures Typed(TraceOf(before, pane)) == []
  {
    hide StateFits, Good, Typed, TraceOf, Coherent, History;
    MemoryFits(before, pane);
    assert WaitFits(WaitingOf(Now(before).memory, pane), TraceOf(before, pane));
  }

  /** The matching re-read itself: its directive's first key goes out, if it asks for any. */
  lemma ReReadIsUnderway(before: seq<Event>, pane: Pane, live: Dialog)
    requires Next(before, PaneReRead(pane, Some(Some(live)))) && Matches(TraceOf(before, pane), live)
    ensures var e, t := PaneReRead(pane, Some(Some(live))), TraceOf(before, pane);
      var r := React(Now(before), e);
      Underway(r.memory, pane, t + r.notes, WarrantFor(t, live), 0)
  {
    hide TraceOf, History, React, Wanted, LastDelivery, Shown, Typed, Coherent;
    var e, t := PaneReRead(pane, Some(Some(live))), TraceOf(before, pane);
    ReReadsLead(before, pane, e.reread);
    NothingTypedYet(before, pane, e.reread);
    var w := WarrantFor(t, live);
    if Wanted(w) != [] {
      OneMoreKey(t, Wanted(w)[0], w);
      assert [] + [Wanted(w)[0]] == Wanted(w)[..1];
    }
    assert t + [] == t;
  }

  lemma OneEvent(w: World, e: Event, pane: Pane, t: Trace)
    requires Coherent(w.memory) && History(w, [e])
    ensures Enabled(w, e) && After(w, [e]) == Step(w, e)
    ensures TraceFrom(w, [e], pane, t) == t + NotesFor(w, e, pane)
  {
    hide Coherent, Step, Enabled, NotesFor;
    StepKeepsCoherent(w, e);
    assert [e][0] == e && [e][1..] == [];
    assert After(Step(w, e), []) == Step(w, e);
  }

  lemma FreshIsCoherent()
    ensures Coherent(Fresh.memory)
  {
  }

  lemma StartOfTyping(before: seq<Event>, pane: Pane, live: Dialog)
    requires var events := before + [PaneReRead(pane, Some(Some(live)))];
      History(Fresh, before) && History(Fresh, events) && Matches(TraceOf(before, pane), live)
    ensures var events := before + [PaneReRead(pane, Some(Some(live)))];
      && Underway(Now(events).memory, pane, TraceOf(events, pane), WarrantFor(TraceOf(before, pane), live), 0)
      && TraceOf(before, pane) <= TraceOf(events, pane)
  {
    hide Underway, Coherent, Matches, Enabled, React;
    var e := PaneReRead(pane, Some(Some(live)));
    FreshIsCoherent();
    HistorySplits(Fresh, before, [e], pane, []);
    AfterIsCoherent(Fresh, before);
    OneEvent(Now(before), e, pane, TraceOf(before, pane));
    hide History, After;
    ReReadIsUnderway(before, pane, live);
  }

  /** After a re-read that matches, with no restart, no failed send and no further delivery, the keys that have gone
      out are the directive's on that dialog, in order: one more than the sends that have ended, until all have, and
      then all of them; and while a key is missing its predecessor's send is still to end. */
  lemma WholeDirectiveIsTyped(before: seq<Event>, pane: Pane, live: Dialog, later: seq<Event>, events: seq<Event>)
    requires events == before + [PaneReRead(pane, Some(Some(live)))] + later
    requires History(Fresh, before) && History(Fresh, events)
    requires Matches(TraceOf(before, pane), live) && Smooth(later, pane)
    requires forall i :: |TraceOf(before, pane)| <= i < |TraceOf(events, pane)| ==> !TraceOf(events, pane)[i].Delivery?
    ensures var typed, want := Typed(TraceOf(events, pane)), Wanted(WarrantFor(TraceOf(before, pane), live));
      && typed == (if Sends(later, pane) < |want| then want[..Sends(later, pane) + 1] else want)
      && (typed == want || (pane in Now(events).memory.inFlight && Now(events).memory.inFlight[pane].Sending?))
  {
    hide Coherent, Smooth, WarrantFor, Wanted, Typed, History, Enabled, Step, NotesFor;
    var e := PaneReRead(pane, Some(Some(live)));
    FreshIsCoherent();
    HistorySplits(Fresh, before + [e], later, pane, []);
    StartOfTyping(before, pane, live);
    hide Underway, LastDelivery, Shown;
    assert TraceFrom(After(Fresh, before + [e]), later, pane, TraceOf(before + [e], pane)) == TraceOf(events, pane);
    RunTypes(After(Fresh, before + [e]), later, pane, TraceOf(before + [e], pane), WarrantFor(TraceOf(before, pane), live), 0);
    TypedSoFar(Now(events).memory, pane, TraceOf(events, pane), WarrantFor(TraceOf(before, pane), live), Sends(later, pane));
  }

  lemma TypedSoFar(m: Memory, pane: Pane, t: Trace, w: Warrant, sends: nat)
    requires Underway(m, pane, t, w, sends)
    ensures Typed(t) == (if sends < |Wanted(w)| then Wanted(w)[..sends + 1] else Wanted(w))
    ensures Typed(t) == Wanted(w) || (pane in m.inFlight && m.inFlight[pane].Sending?)
  {
  }
}
