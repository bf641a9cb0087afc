/** The fingerprint cache in the running subscriber: which steps bring it out of agreement with the live
    list, and what the list is as long as none of them happens. */
module Coherence {
  import opened Text
  import opened Stations
  import opened Events
  import opened Subscriber

  /** The cache, with the event that is applied but not yet entered into it. */
  function CacheToBe(s: State): Cache {
    if s.handling.Applied? then Remember(s.cache, s.handling.ev) else s.cache
  }

  /** The list a step takes over, if it takes one over. */
  function TakenOver(s: State, a: Action): Option<seq<ChargePoint>> {
    match a
    case Loop(LoopCommitted(stations, _)) => if s.phase.Fetching? then Some(stations) else None
    case Poll(n, PollCommitted) =>
      if n < |s.pollers| && n < |s.commits| && s.pollers[n].Fetched? && Reports(s.shared, s.pollers[n].stations)
      then Some(s.pollers[n].stations) else None
    case _ => None
  }

  /** Statuses and error codes contain no NUL. */
  ghost predicate CleanAction(a: Action) {
    match a
    case Loop(LoopCommitted(stations, _)) => CleanList(stations)
    case Loop(EventArrived(ev)) => CleanEvent(ev)
    case Poll(_, PollFetched(stations)) => CleanList(stations)
    case _ => true
  }

  ghost predicate CleanState(s: State) {
    && CleanList(s.shared.live)
    && (forall n :: 0 <= n < |s.pollers| && s.pollers[n].Fetched? ==> CleanList(s.pollers[n].stations))
    && (s.handling.Checked? ==>
          CleanEvent(s.handling.ev) && TrimSpace(s.handling.ev.chargeBoxUuid) != ""
          && !IsDuplicate(s.cache, s.handling.ev))
    && (s.handling.Applied? ==> CleanEvent(s.handling.ev))
    && Events.Remembered(s.cache)
  }

  lemma CleanLoop(s: State, a: LoopAction)
    requires CleanState(s) && CleanAction(Loop(a))
    ensures CleanState(LoopStep(s, a))
  {
  }

  lemma CleanPoll(s: State, n: nat, a: PollAction)
    requires CleanState(s) && CleanAction(Poll(n, a))
    ensures CleanState(PollStep(s, n, a))
  {
  }

  lemma CleanStep(s: State, a: Action)
    requires CleanState(s) && CleanAction(a)
    ensures CleanState(Step(s, a))
  {
    match a
    case Loop(l) => CleanLoop(s, l);
    case Poll(n, p) => CleanPoll(s, n, p);
  }

  ghost predicate Coherent(s: State) {
    Agrees(s.shared.live, CacheToBe(s))
  }

  /** The event commit is where the atomic handler would act: until the event is remembered, list and
      cache-to-be are what handling it in one step leaves. */
  lemma CommitHandles(s: State)
    requires CleanState(s) && s.handling.Checked?
    ensures var (t, h) := (LoopStep(s, EventCommitted), HandleEvent(s.shared.live, s.cache, s.handling.ev));
            t.shared.live == h.list && CacheToBe(t) == h.cache
  {
  }

  lemma CoherentLoop(s: State, a: LoopAction)
    requires CleanState(s) && Coherent(s) && TakenOver(s, Loop(a)).None?
    ensures Coherent(LoopStep(s, a))
  {
    if a.EventCommitted? && s.handling.Checked? {
      CommitHandles(s);
      HandleKeepsAgreement(s.shared.live, s.cache, s.handling.ev);
    } else {
      assert LoopStep(s, a).shared == s.shared && CacheToBe(LoopStep(s, a)) == CacheToBe(s);
    }
  }

  lemma TakenOverShared(s: State, a: Action)
    ensures TakenOver(s, a).Some? ==> Step(s, a).shared.live == TakenOver(s, a).value
    ensures TakenOver(s, a).None? && a.Poll? ==> Step(s, a).shared == s.shared
    ensures TakenOver(s, a).Some? || a.Poll? ==> CacheToBe(Step(s, a)) == CacheToBe(s)
  {
    if a.Poll? {
      PollShared(s, a.n, a.p);
      assert PollStep(s, a.n, a.p).handling == s.handling && PollStep(s, a.n, a.p).cache == s.cache;
    }
  }

  /** The cache agrees with the live list after a step exactly unless the step takes over a list that it
      does not agree with. */
  lemma CoherentStepIff(s: State, a: Action)
    requires CleanState(s) && Coherent(s)
    ensures Coherent(Step(s, a)) <==> (TakenOver(s, a).Some? ==> Agrees(TakenOver(s, a).value, CacheToBe(s)))
  {
    TakenOverShared(s, a);
    if a.Loop? && TakenOver(s, a).None? {
      CoherentLoop(s, a.l);
    }
  }

  // ----- the list without a cache -----

  /** The event in hand, followed by the actions alone: arrived, then written into the list, then entered
      into the cache. */
  datatype Hand = Free | Arrived(ev: StatusEvent) | Written | Entered

  /** The reference: a list and the event in hand. */
  datatype Plain = Plain(list: seq<ChargePoint>, hand: Hand)

  predicate Blank(ev: StatusEvent) { TrimSpace(ev.chargeBoxUuid) == "" }

  /** What a step does if no event is lost: lists are taken over; in a session, an event that arrives with
      no other in hand is applied, at once if the handler drops it, else at the next commit. */
  function PlainNext(s: State, p: Plain, a: Action): Plain {
    if TakenOver(s, a).Some? then p.(list := TakenOver(s, a).value)
    else
      match a
      case Loop(EventArrived(ev)) =>
        if !s.phase.InSession? || !p.hand.Free? then p
        else if Blank(ev) || IsDuplicate(s.cache, ev) then p.(list := ApplyEvent(p.list, ev).0)
        else p.(hand := Arrived(ev))
      case Loop(EventCommitted) =>
        if !p.hand.Arrived? then p
        else
          var (list, matched) := ApplyEvent(p.list, p.hand.ev);
          Plain(list, if matched then Written else Free)
      case Loop(EventRemembered) => if p.hand.Written? then p.(hand := Entered) else p
      case Loop(EventPublished) => if p.hand.Entered? then p.(hand := Free) else p
      case _ => p
  }

  function PlainRun(s: State, p: Plain, actions: seq<Action>): Plain
    decreases |actions|
  {
    if actions == [] then p else PlainRun(Step(s, actions[0]), PlainNext(s, p, actions[0]), actions[1..])
  }

  predicate SameHand(h: Handling, p: Hand) {
    match h
    case NoEvent => p.Free?
    case Checked(ev) => p == Arrived(ev)
    case Applied(_, _) => p.Written?
    case Remembered(_) => p.Entered?
  }

  lemma PlainStep(s: State, p: Plain, a: Action)
    requires CleanState(s) && CleanAction(a) && Coherent(s)
    requires s.shared.live == p.list && SameHand(s.handling, p.hand)
    ensures Step(s, a).shared.live == PlainNext(s, p, a).list && SameHand(Step(s, a).handling, PlainNext(s, p, a).hand)
  {
    TakenOverShared(s, a);
    if a.Poll? {
      assert PollStep(s, a.n, a.p).handling == s.handling;
    } else if TakenOver(s, a).None? {
      PlainLoop(s, p, a.l);
    }
  }

  lemma PlainLoop(s: State, p: Plain, a: LoopAction)
    requires CleanState(s) && CleanAction(Loop(a)) && Coherent(s) && TakenOver(s, Loop(a)).None?
    requires s.shared.live == p.list && SameHand(s.handling, p.hand)
    ensures var (t, q) := (LoopStep(s, a), PlainNext(s, p, Loop(a)));
            t.shared.live == q.list && SameHand(t.handling, q.hand)
  {
    match a
    case EventArrived(ev) =>
      if s.handling.NoEvent? && (Blank(ev) || IsDuplicate(s.cache, ev)) {
        HandleRefinesApply(s.shared.live, s.cache, ev);
      }
    case _ =>
  }

  ghost predicate CleanActions(actions: seq<Action>) {
    forall k :: 0 <= k < |actions| ==> CleanAction(actions[k])
  }

  /** No step takes over a list that the cache disagrees with. */
  ghost predicate AgreeingTakeOvers(s: State, actions: seq<Action>)
    decreases |actions|
  {
    actions == []
    || ((TakenOver(s, actions[0]).Some? ==> Agrees(TakenOver(s, actions[0]).value, CacheToBe(s)))
        && AgreeingTakeOvers(Step(s, actions[0]), actions[1..]))
  }

  lemma {:induction false} PlainFrom(s: State, p: Plain, actions: seq<Action>)
    requires CleanState(s) && Coherent(s) && CleanActions(actions) && AgreeingTakeOvers(s, actions)
    requires s.shared.live == p.list && SameHand(s.handling, p.hand)
    ensures Run(s, actions).shared.live == PlainRun(s, p, actions).list
    ensures CleanState(Run(s, actions)) && Coherent(Run(s, actions))
    decreases |actions|
  {
    if actions != [] {
      assert CleanAction(actions[0]);
      CleanStep(s, actions[0]);
      CoherentStepIff(s, actions[0]);
      PlainStep(s, p, actions[0]);
      PlainFrom(Step(s, actions[0]), PlainNext(s, p, actions[0]), actions[1..]);
    }
  }

  /** In every interleaving whose take-overs the cache agrees with, the live list is the one last taken over
      with every event since then applied that a session had no other in hand for, repeated ones too: no
      event is lost. */
  lemma DroppingIsHarmless(actions: seq<Action>)
    requires CleanActions(actions) && AgreeingTakeOvers(Init(), actions)
    ensures Run(Init(), actions).shared.live == PlainRun(Init(), Plain([], Free), actions).list
  {
    PlainFrom(Init(), Plain([], Free), actions);
  }

  lemma {:induction false} CleanRun(s: State, actions: seq<Action>)
    requires CleanState(s) && CleanActions(actions)
    ensures CleanState(Run(s, actions))
    decreases |actions|
  {
    if actions != [] {
      assert CleanAction(actions[0]);
      CleanStep(s, actions[0]);
      CleanRun(Step(s, actions[0]), actions[1..]);
    }
  }

  /** In every reachable state of a session in which the cache disagrees, some event that would change the
      list is dropped when it arrives. */
  lemma DisagreementIsHarmful(actions: seq<Action>) returns (ev: StatusEvent)
    requires CleanActions(actions)
    requires var s := Run(Init(), actions); s.phase.InSession? && s.handling.NoEvent? && !Coherent(s)
    ensures var s := Run(Init(), actions);
            CleanEvent(ev) && Step(s, Loop(EventArrived(ev))) == s && ApplyEvent(s.shared.live, ev).0 != s.shared.live
  {
    var s := Run(Init(), actions);
    CleanRun(Init(), actions);
    ev := DisagreementLosesAnEvent(s.shared.live, s.cache);
    OneEvent(s.shared.live, s.cache, ev);
    UnchangedIsDropped(s, ev);
  }

  lemma UnchangedIsDropped(s: State, ev: StatusEvent)
    requires HandleEvent(s.shared.live, s.cache, ev).list == s.shared.live != ApplyEvent(s.shared.live, ev).0
    ensures Step(s, Loop(EventArrived(ev))) == s
  {
  }

  lemma OneEvent(list: seq<ChargePoint>, cache: Cache, ev: StatusEvent)
    ensures RunPlain(list, [ev]) == ApplyEvent(list, ev).0
    ensures RunCached(list, cache, [ev]).0 == HandleEvent(list, cache, ev).list
  {
  }
}
