/** What becomes of one event, one fetched list and one polled change in the running subscriber, whatever the
    other parts do in between. */
module EventDelivery {
  import opened Text
  import opened Stations
  import opened Events
  import opened Subscriber

  /** Steps of pollers, and the cancellation of the user's context. */
  predicate Aside(a: Action) {
    a.Poll? || a == Loop(UserCancelled)
  }

  predicate AllAside(actions: seq<Action>) {
    forall k :: 0 <= k < |actions| ==> Aside(actions[k])
  }

  lemma AsideStep(s: State, a: Action)
    requires Aside(a)
    ensures var t := Step(s, a); t.handling == s.handling && t.cache == s.cache && t.phase == s.phase
  {
  }

  lemma {:induction false} AsideRun(s: State, actions: seq<Action>)
    requires AllAside(actions)
    ensures var t := Run(s, actions); t.handling == s.handling && t.cache == s.cache && t.phase == s.phase
    decreases |actions|
  {
    if actions != [] {
      AsideStep(s, actions[0]);
      AsideRun(Step(s, actions[0]), actions[1..]);
    }
  }

  /** What pollers do does not depend on the event in hand. */
  lemma AsideBlind(s: State, h: Handling, a: Action)
    requires Aside(a)
    ensures Step(s.(handling := h), a) == Step(s, a).(handling := h)
  {
    if a.Poll? {
      if a.p.PollCommitted? { CommitBlind(s, h, a.n); } else { OtherPollBlind(s, h, a.n, a.p); }
    }
  }

  lemma CommitBlind(s: State, h: Handling, n: nat)
    ensures PollStep(s.(handling := h), n, PollCommitted) == PollStep(s, n, PollCommitted).(handling := h)
  {
  }

  lemma OtherPollBlind(s: State, h: Handling, n: nat, a: PollAction)
    requires !a.PollCommitted?
    ensures PollStep(s.(handling := h), n, a) == PollStep(s, n, a).(handling := h)
  {
    if n < |s.pollers| && n < |s.commits| {
      match (a, s.pollers[n])
      case (PollFetched(stations), Waiting) =>
      case (PollPublished, Publishing(stations)) =>
      case (PollCancelled, Cancelling) =>
      case (PollStopped, Waiting) =>
      case (SessionTimedOut, _) =>
      case _ =>
    }
  }

  lemma {:induction false} AsideRunBlind(s: State, h: Handling, actions: seq<Action>)
    requires AllAside(actions)
    ensures Run(s.(handling := h), actions) == Run(s, actions).(handling := h)
    decreases |actions|
  {
    if actions != [] {
      AsideBlind(s, h, actions[0]);
      AsideRunBlind(Step(s, actions[0]), h, actions[1..]);
    }
  }

  // ----- one event -----

  /** An event that arrives in a session with no other in hand, neither blank nor a duplicate, is applied at
      the next commit to whatever list is live then; a match is entered into the cache and shown at the next
      publication, at the value of that commit.  Pollers may do anything in between, and their own effect
      is the same as without the event. */
  lemma EventGoesThrough(s: State, ev: StatusEvent, p: seq<Action>, q: seq<Action>, r: seq<Action>)
    requires s.phase.InSession? && s.handling.NoEvent?
    requires TrimSpace(ev.chargeBoxUuid) != "" && !IsDuplicate(s.cache, ev)
    requires AllAside(p) && AllAside(q) && AllAside(r)
    ensures var before := Run(Step(s, Loop(EventArrived(ev))), p);
            var commit := Step(before, Loop(EventCommitted));
            var remembered := Step(Run(commit, q), Loop(EventRemembered));
            var ready := Run(remembered, r);
            var (list, matched) := ApplyEvent(before.shared.live, ev);
            && before.shared == Run(s, p).shared && before.shown == Run(s, p).shown
            && commit.shared == Shared(before.shared.prev, list) && commit.ends == before.ends + [list]
            && commit.shown == before.shown && commit.cache == s.cache
            && (!matched ==> commit.handling.NoEvent?)
            && (matched ==>
                  && remembered.cache == Remember(s.cache, ev)
                  && Step(ready, Loop(EventPublished)).shown == ready.shown + [list]
                  && Step(ready, Loop(EventPublished)).handling.NoEvent?
                  && Step(ready, Loop(EventPublished)).cache == remembered.cache)
  {
    ArrivedIsChecked(s, ev, p);
    var before := Run(Step(s, Loop(EventArrived(ev))), p);
    CheckedIsCommitted(before, ev);
    var commit := Step(before, Loop(EventCommitted));
    if ApplyEvent(before.shared.live, ev).1 {
      AsideRun(commit, q);
      AppliedIsRemembered(Run(commit, q));
      var remembered := Step(Run(commit, q), Loop(EventRemembered));
      AsideRun(remembered, r);
      RememberedIsShown(Run(remembered, r));
    }
  }

  lemma ArrivedIsChecked(s: State, ev: StatusEvent, p: seq<Action>)
    requires s.phase.InSession? && s.handling.NoEvent?
    requires TrimSpace(ev.chargeBoxUuid) != "" && !IsDuplicate(s.cache, ev) && AllAside(p)
    ensures var before := Run(Step(s, Loop(EventArrived(ev))), p);
            before.handling == Checked(ev) && before.cache == s.cache && before == Run(s, p).(handling := Checked(ev))
  {
    assert Step(s, Loop(EventArrived(ev))) == s.(handling := Checked(ev));
    AsideRun(s, p);
    AsideRunBlind(s, Checked(ev), p);
  }

  lemma CheckedIsCommitted(s: State, ev: StatusEvent)
    requires s.handling == Checked(ev)
    ensures var t := Step(s, Loop(EventCommitted));
            var (list, matched) := ApplyEvent(s.shared.live, ev);
            && t.shared == Shared(s.shared.prev, list) && t.ends == s.ends + [list]
            && t.shown == s.shown && t.cache == s.cache
            && t.handling == if matched then Applied(ev, list) else NoEvent
  {
  }

  lemma AppliedIsRemembered(s: State)
    requires s.handling.Applied?
    ensures var t := Step(s, Loop(EventRemembered));
            && t.cache == Remember(s.cache, s.handling.ev) && t.handling == Remembered(s.handling.snapshot)
            && t.shown == s.shown && t.shared == s.shared
  {
  }

  lemma RememberedIsShown(s: State)
    requires s.handling.Remembered?
    ensures var t := Step(s, Loop(EventPublished));
            && t.shown == s.shown + [s.handling.snapshot] && t.handling.NoEvent?
            && t.cache == s.cache && t.shared == s.shared
  {
  }

  /** A blank or repeated event changes nothing, and neither does the rest of the handler. */
  lemma EventIsDropped(s: State, ev: StatusEvent)
    requires s.handling.NoEvent? && (TrimSpace(ev.chargeBoxUuid) == "" || IsDuplicate(s.cache, ev))
    ensures Step(s, Loop(EventArrived(ev))) == s == Step(s, Loop(EventCommitted))
    ensures Step(s, Loop(EventRemembered)) == s == Step(s, Loop(EventPublished))
  {
  }

  // ----- one fetched list -----

  /** The loop takes a fetched list over, and shows it exactly if a client watches, the UUIDs have changed
      and there were some; with some UUIDs it then opens a session that subscribes them. */
  lemma FetchGoesThrough(s: State, stations: seq<ChargePoint>, watched: bool)
    requires s.phase.Fetching? && InventoryStored(s)
    ensures var t := Step(s, Loop(LoopCommitted(stations, watched)));
            var u := Step(t, Loop(SessionStarted));
            var (was, now) := (UuidSet(Infos(s.shared.live)), UuidSet(Infos(stations)));
            && t.shared.live == stations
            && t.shown == s.shown + (if watched && was != now && was != {} then [stations] else [])
            && t.cache == s.cache && t.pollers == s.pollers
            && (if now == {} then t.phase.Fetching? && u == t
                else
                  && u.phase == InSession(|s.pollers|) && u.pollers == s.pollers + [Waiting]
                  && u.subscribed == s.subscribed + [InventoryOf(Infos(stations))])
  {
    FetchIsTakenOver(s, stations, watched);
    InventoryEmptyIff(Infos(stations));
  }

  lemma InventoryEmptyIff(infos: seq<StationInfo>)
    ensures InventoryOf(infos) == [] <==> UuidSet(infos) == {}
  {
    InventoryMeaning(infos);
    if InventoryOf(infos) != [] { assert InventoryOf(infos)[0] in UuidSet(infos); }
  }

  lemma FetchIsTakenOver(s: State, stations: seq<ChargePoint>, watched: bool)
    requires s.phase.Fetching? && InventoryStored(s)
    ensures var t := Step(s, Loop(LoopCommitted(stations, watched)));
            var (was, now) := (UuidSet(Infos(s.shared.live)), UuidSet(Infos(stations)));
            var uuids := InventoryOf(Infos(stations));
            && t.shared.live == stations && t.cache == s.cache && t.pollers == s.pollers && t.subscribed == s.subscribed
            && t.shown == s.shown + (if watched && was != now && was != {} then [stations] else [])
            && t.phase == if uuids == [] then Fetching else Committed(uuids)
  {
    ChangeReportedIff(Infos(s.shared.live), Infos(stations));
  }

  // ----- one polled list -----

  predicate NotOf(n: nat, a: Action) {
    !(a.Poll? && a.n == n)
  }

  lemma {:induction false} OthersKeepPoller(s: State, n: nat, actions: seq<Action>)
    requires n < |s.pollers| && |s.pollers| == |s.commits| && forall k :: 0 <= k < |actions| ==> NotOf(n, actions[k])
    ensures var t := Run(s, actions); n < |t.pollers| && |t.pollers| == |t.commits| && t.pollers[n] == s.pollers[n]
    decreases |actions|
  {
    if actions != [] {
      OtherKeepsPoller(s, n, actions[0]);
      assert forall k :: 0 <= k < |actions| - 1 ==> actions[1..][k] == actions[k + 1];
      OthersKeepPoller(Step(s, actions[0]), n, actions[1..]);
    }
  }

  lemma OtherKeepsPoller(s: State, n: nat, a: Action)
    requires n < |s.pollers| && |s.pollers| == |s.commits| && NotOf(n, a)
    ensures var t := Step(s, a); n < |t.pollers| && |t.pollers| == |t.commits| && t.pollers[n] == s.pollers[n]
  {
  }

  /** A poller takes a fetched list over exactly if the UUIDs have changed and there were some.  Then it shows
      the list at its next step, whatever others do in between, and ends its session at the one after;
      otherwise it waits again and nothing else has changed. */
  lemma PollGoesThrough(s: State, n: nat, stations: seq<ChargePoint>, p: seq<Action>, q: seq<Action>)
    requires n < |s.pollers| && |s.pollers| == |s.commits| && s.pollers[n] == Fetched(stations) && InventoryStored(s)
    requires forall k :: 0 <= k < |p| ==> NotOf(n, p[k])
    requires forall k :: 0 <= k < |q| ==> NotOf(n, q[k])
    ensures var t := Step(s, Poll(n, PollCommitted));
            var ready := Run(t, p);
            var shown := Step(ready, Poll(n, PollPublished));
            var done := Step(Run(shown, q), Poll(n, PollCancelled));
            var (was, now) := (UuidSet(Infos(s.shared.live)), UuidSet(Infos(stations)));
            if was == now || was == {} then
              t.shared == s.shared && t.pollers[n] == Waiting && t.shown == s.shown
            else
              && t.shared.live == stations && t.shown == s.shown
              && shown.shown == ready.shown + [stations] && shown.shared == ready.shared
              && n in done.ended
  {
    PollCommits(s, n, stations);
    var t := Step(s, Poll(n, PollCommitted));
    OthersKeepPoller(t, n, p);
    var ready := Run(t, p);
    if t.pollers[n].Publishing? {
      PollPublishes(ready, n, stations);
      var shown := Step(ready, Poll(n, PollPublished));
      OthersKeepPoller(shown, n, q);
      PollCancels(Run(shown, q), n);
    }
  }

  lemma PollCommits(s: State, n: nat, stations: seq<ChargePoint>)
    requires n < |s.pollers| && |s.pollers| == |s.commits| && s.pollers[n] == Fetched(stations) && InventoryStored(s)
    ensures var t := Step(s, Poll(n, PollCommitted));
            var (was, now) := (UuidSet(Infos(s.shared.live)), UuidSet(Infos(stations)));
            && n < |t.pollers| && |t.pollers| == |t.commits| && t.shown == s.shown
            && if was == now || was == {} then t.shared == s.shared && t.pollers[n] == Waiting
               else t.shared.live == stations && t.pollers[n] == Publishing(stations)
  {
    ChangeReportedIff(Infos(s.shared.live), Infos(stations));
  }

  lemma PollPublishes(s: State, n: nat, stations: seq<ChargePoint>)
    requires n < |s.pollers| && |s.pollers| == |s.commits| && s.pollers[n] == Publishing(stations)
    ensures var t := Step(s, Poll(n, PollPublished));
            && n < |t.pollers| && |t.pollers| == |t.commits| && t.pollers[n] == Cancelling
            && t.shown == s.shown + [stations] && t.shared == s.shared
  {
  }

  lemma PollCancels(s: State, n: nat)
    requires n < |s.pollers| && |s.pollers| == |s.commits| && s.pollers[n] == Cancelling
    ensures n in Step(s, Poll(n, PollCancelled)).ended
  {
  }

  /** A waiting poller fetches whatever the backend returns, and stops once its session or the loop is over,
      not before. */
  lemma PollFetches(s: State, n: nat, stations: seq<ChargePoint>)
    requires n < |s.pollers| && |s.pollers| == |s.commits| && s.pollers[n].Waiting?
    ensures Step(s, Poll(n, PollFetched(stations))).pollers[n] == Fetched(stations)
    ensures Step(s, Poll(n, PollStopped)).pollers[n] == Stopped <==> n in s.ended || s.cancelled
  {
  }

  /** Without a token the loop fetches again; a failed fetch changes nothing; a cancelled loop that is not in a
      session exits, and no other does. */
  lemma LoopGoesOn(s: State)
    ensures s.phase.Committed? ==> Step(s, Loop(TokenMissing)) == s.(phase := Fetching)
    ensures Step(s, Loop(FetchFailed)) == s && Step(s, Loop(UserCancelled)) == s.(cancelled := true)
    ensures s.phase.Fetching? ==> Step(s, Loop(LoopExited)) == if s.cancelled then s.(phase := Exited) else s
  {
  }

  /** A session ends, by itself or by its timeout, and the loop fetches again unless it was cancelled. */
  lemma SessionEnds(s: State)
    requires s.phase.InSession? && s.handling.NoEvent?
    ensures var t := Step(s, Loop(SessionEnded));
            s.phase.id in t.ended && t.phase == if s.cancelled then Exited else Fetching
    ensures s.phase.id < |s.pollers| && s.phase.id < |s.commits| ==>
              s.phase.id in Step(s, Poll(s.phase.id, SessionTimedOut)).ended
  {
  }
}
