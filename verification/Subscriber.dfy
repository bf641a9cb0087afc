/** The per-user subscriber: one loop, its consumer session and the inventory pollers of this and
    earlier sessions, all sharing prevInventory and live.  The critical sections are the atomic steps
    of a state machine, and every interleaving is a sequence of such steps. */
module Subscriber {
  import opened Text
  import opened Stations
  import opened Events

  // ----- the critical sections -----

  /** What the lock protects. */
  datatype Shared = Shared(prev: Option<seq<string>>, live: seq<ChargePoint>)

  function InventoryIn(stations: seq<ChargePoint>): seq<string> {
    InventoryOf(Infos(stations))
  }

  /** A fetched list taken over as it is. */
  function TakeOver(stations: seq<ChargePoint>): Shared {
    Shared(Baseline(InventoryIn(stations)), stations)
  }

  predicate Reports(sh: Shared, stations: seq<ChargePoint>) {
    InventoryChanged(sh.prev, InventoryIn(stations))
  }

  /** A poller takes a list over only when it reports a change. */
  function PollCommit(sh: Shared, stations: seq<ChargePoint>): Shared {
    if Reports(sh, stations) then TakeOver(stations) else sh
  }

  function EventCommit(sh: Shared, ev: StatusEvent): Shared {
    sh.(live := ApplyEvent(sh.live, ev).0)
  }

  // ----- the machine -----

  datatype Phase =
    | Fetching                          // at the top of the loop, or asleep before it
    | Committed(uuids: seq<string>)     // list taken over, session not yet started
    | InSession(id: nat)
    | Exited

  datatype Poller =
    | Waiting
    | Fetched(stations: seq<ChargePoint>)
    | Publishing(stations: seq<ChargePoint>)   // has committed a change
    | Cancelling                               // has published it
    | Stopped

  /** What the consumer's handler is doing. */
  datatype Handling =
    | NoEvent
    | Checked(ev: StatusEvent)                              // not blank and not a duplicate
    | Applied(ev: StatusEvent, snapshot: seq<ChargePoint>)  // matched, written into live and copied
    | Remembered(snapshot: seq<ChargePoint>)                // entered into the cache

  /** Sessions are numbered in the order in which they start; session n has poller n.  `ends` lists
      the value of live at the end of every critical section, `shown` every published list. */
  datatype State = State(
    shared: Shared,
    cache: Cache,
    phase: Phase,
    cancelled: bool,
    subscribed: seq<seq<string>>,
    pollers: seq<Poller>,
    commits: seq<nat>,
    ended: set<nat>,
    handling: Handling,
    ends: seq<seq<ChargePoint>>,
    shown: seq<seq<ChargePoint>>)

  /** Steps of the loop, of its consumer session and of the user's context. */
  datatype LoopAction =
    | FetchFailed
    | LoopCommitted(stations: seq<ChargePoint>, watched: bool)
    | TokenMissing
    | SessionStarted
    | EventArrived(ev: StatusEvent)
    | EventCommitted
    | EventRemembered
    | EventPublished
    | SessionEnded
    | UserCancelled
    | LoopExited

  /** Steps of one inventory poller, and the rotation timeout of its session. */
  datatype PollAction =
    | PollFetched(stations: seq<ChargePoint>)
    | PollCommitted
    | PollPublished
    | PollCancelled
    | PollStopped
    | SessionTimedOut

  datatype Action = Loop(l: LoopAction) | Poll(n: nat, p: PollAction)

  function Init(): State {
    State(Shared(None, []), map[], Fetching, false, [], [], [], {}, NoEvent, [], [])
  }

  function LoopStep(s: State, a: LoopAction): State {
    match a
    case FetchFailed => s
    case LoopCommitted(stations, watched) =>
      if !s.phase.Fetching? then s
      else
        var uuids := InventoryIn(stations);
        s.(shared := TakeOver(stations),
           phase := if uuids == [] then Fetching else Committed(uuids),
           ends := s.ends + [stations],
           shown := if Reports(s.shared, stations) && watched then s.shown + [stations] else s.shown)
    case TokenMissing => if s.phase.Committed? then s.(phase := Fetching) else s
    case SessionStarted =>
      if !s.phase.Committed? then s
      else s.(phase := InSession(|s.pollers|),
              subscribed := s.subscribed + [s.phase.uuids],
              pollers := s.pollers + [Waiting],
              commits := s.commits + [0])
    case EventArrived(ev) =>
      if !s.phase.InSession? || !s.handling.NoEvent? then s
      else if TrimSpace(ev.chargeBoxUuid) == "" || IsDuplicate(s.cache, ev) then s
      else s.(handling := Checked(ev))
    case EventCommitted =>
      if !s.handling.Checked? then s
      else
        var (shared, ev) := (EventCommit(s.shared, s.handling.ev), s.handling.ev);
        s.(shared := shared,
           ends := s.ends + [shared.live],
           handling := if ApplyEvent(s.shared.live, ev).1 then Applied(ev, shared.live) else NoEvent)
    case EventRemembered =>
      if !s.handling.Applied? then s
      else s.(cache := Remember(s.cache, s.handling.ev), handling := Remembered(s.handling.snapshot))
    case EventPublished =>
      if !s.handling.Remembered? then s
      else s.(handling := NoEvent, shown := s.shown + [s.handling.snapshot])
    case SessionEnded =>
      if !s.phase.InSession? || !s.handling.NoEvent? then s
      else s.(ended := s.ended + {s.phase.id}, phase := if s.cancelled then Exited else Fetching)
    case UserCancelled => s.(cancelled := true)
    case LoopExited => if s.phase.Fetching? && s.cancelled then s.(phase := Exited) else s
  }

  function PollStep(s: State, n: nat, a: PollAction): State {
    if n >= |s.pollers| || n >= |s.commits| then s
    else
      match (a, s.pollers[n])
      case (PollFetched(stations), Waiting) => s.(pollers := s.pollers[n := Fetched(stations)])
      case (PollCommitted, Fetched(stations)) =>
        var changed := Reports(s.shared, stations);
        s.(shared := PollCommit(s.shared, stations),
           ends := s.ends + [PollCommit(s.shared, stations).live],
           pollers := s.pollers[n := if changed then Publishing(stations) else Waiting],
           commits := if changed then s.commits[n := s.commits[n] + 1] else s.commits)
      case (PollPublished, Publishing(stations)) =>
        s.(pollers := s.pollers[n := Cancelling], shown := s.shown + [stations])
      case (PollCancelled, Cancelling) => s.(pollers := s.pollers[n := Stopped], ended := s.ended + {n})
      case (PollStopped, Waiting) =>
        if n in s.ended || s.cancelled then s.(pollers := s.pollers[n := Stopped]) else s
      case (SessionTimedOut, _) => s.(ended := s.ended + {n})
      case _ => s
  }

  /** One atomic step; an action that is not possible in s leaves s as it is. */
  function Step(s: State, a: Action): State {
    match a
    case Loop(l) => LoopStep(s, l)
    case Poll(n, p) => PollStep(s, n, p)
  }

  function Run(s: State, actions: seq<Action>): State
    decreases |actions|
  {
    if actions == [] then s else Run(Step(s, actions[0]), actions[1..])
  }

  // ----- the stored inventory is always that of the live list -----

  ghost predicate InventoryStored(s: State) {
    s.shared.prev == Baseline(InventoryIn(s.shared.live))
  }

  lemma EventKeepsInventory(sh: Shared, ev: StatusEvent)
    ensures InventoryIn(EventCommit(sh, ev).live) == InventoryIn(sh.live)
  {
    ApplyEventKeepsShape(sh.live, ev);
  }

  lemma InventoryStoredLoop(s: State, a: LoopAction)
    requires InventoryStored(s)
    ensures InventoryStored(LoopStep(s, a))
  {
    match a
    case EventCommitted => if s.handling.Checked? { EventKeepsInventory(s.shared, s.handling.ev); }
    case LoopCommitted(list, _) => assert LoopStep(s, a).shared == s.shared || LoopStep(s, a).shared == TakeOver(list);
    case _ => assert LoopStep(s, a).shared == s.shared;
  }

  lemma PollShared(s: State, n: nat, a: PollAction)
    ensures PollStep(s, n, a).shared == s.shared || a.PollCommitted?
    ensures a.PollCommitted? && n < |s.pollers| && n < |s.commits| && s.pollers[n].Fetched? ==>
              PollStep(s, n, a).shared == PollCommit(s.shared, s.pollers[n].stations)
    ensures !(n < |s.pollers| && n < |s.commits| && s.pollers[n].Fetched?) ==> PollStep(s, n, a).shared == s.shared
  {
  }

  lemma InventoryStoredPoll(s: State, n: nat, a: PollAction)
    requires InventoryStored(s)
    ensures InventoryStored(PollStep(s, n, a))
  {
  }

  lemma InventoryStoredStep(s: State, a: Action)
    requires InventoryStored(s)
    ensures InventoryStored(Step(s, a))
  {
    match a
    case Loop(l) => InventoryStoredLoop(s, l);
    case Poll(n, p) => InventoryStoredPoll(s, n, p);
  }

  // ----- what is shown was live at the end of a critical section -----

  ghost predicate ShownWasLive(s: State) {
    && (s.ends == [] ==> s.shared.live == [])
    && (s.ends != [] ==> s.shared.live == s.ends[|s.ends| - 1])
    && (forall k :: 0 <= k < |s.shown| ==> s.shown[k] in s.ends)
    && (s.handling.Applied? || s.handling.Remembered? ==> s.handling.snapshot in s.ends)
    && (forall n :: 0 <= n < |s.pollers| && s.pollers[n].Publishing? ==> s.pollers[n].stations in s.ends)
  }

  /** A step ends at most one critical section, and records what live is then. */
  lemma EndsLoop(s: State, a: LoopAction)
    ensures var t := LoopStep(s, a);
            (t.ends == s.ends && t.shared.live == s.shared.live) || t.ends == s.ends + [t.shared.live]
  {
  }

  lemma EndsPoll(s: State, n: nat, a: PollAction)
    ensures var t := PollStep(s, n, a);
            (t.ends == s.ends && t.shared.live == s.shared.live) || t.ends == s.ends + [t.shared.live]
  {
  }

  predicate OneMoreShown(before: seq<seq<ChargePoint>>, after: seq<seq<ChargePoint>>) {
    after == before || (|after| == |before| + 1 && after[..|before|] == before)
  }

  lemma ShownByLoop(s: State, a: LoopAction)
    ensures OneMoreShown(s.shown, LoopStep(s, a).shown)
  {
    var t := LoopStep(s, a);
    if a.LoopCommitted? {
      assert t.shown == s.shown || t.shown == s.shown + [a.stations];
    } else if a.EventPublished? && s.handling.Remembered? {
      assert t.shown == s.shown + [s.handling.snapshot];
    } else {
      assert t.shown == s.shown;
    }
  }

  lemma ShownByPoll(s: State, n: nat, a: PollAction)
    ensures OneMoreShown(s.shown, PollStep(s, n, a).shown)
  {
    var t := PollStep(s, n, a);
    if a.PollPublished? && n < |s.pollers| && s.pollers[n].Publishing? {
      assert t.shown == s.shown || t.shown == s.shown + [s.pollers[n].stations];
    } else {
      assert t.shown == s.shown;
    }
  }

  lemma ShownWasLiveLoop(s: State, a: LoopAction)
    requires ShownWasLive(s)
    ensures ShownWasLive(LoopStep(s, a))
  {
    var t := LoopStep(s, a);
    EndsLoop(s, a);
    EndsMembers(s.ends, t.ends, t.shared.live);
  }

  lemma ShownWasLivePoll(s: State, n: nat, a: PollAction)
    requires ShownWasLive(s)
    ensures ShownWasLive(PollStep(s, n, a))
  {
    var t := PollStep(s, n, a);
    EndsPoll(s, n, a);
    EndsMembers(s.ends, t.ends, t.shared.live);
  }

  lemma EndsMembers(before: seq<seq<ChargePoint>>, after: seq<seq<ChargePoint>>, last: seq<ChargePoint>)
    requires after == before || after == before + [last]
    ensures forall x :: x in before ==> x in after
    ensures after == before + [last] ==> last in after
  {
  }

  lemma ShownWasLiveStep(s: State, a: Action)
    requires ShownWasLive(s)
    ensures ShownWasLive(Step(s, a))
  {
    match a
    case Loop(l) => ShownWasLiveLoop(s, l);
    case Poll(n, p) => ShownWasLivePoll(s, n, p);
  }

  // ----- sessions and pollers -----

  /** The poller has committed a change and not yet cancelled its session. */
  predicate InWindow(p: Poller) {
    p.Publishing? || p.Cancelling?
  }

  /** A poller commits at most one change, and once it has it ends its session. */
  predicate PollerSound(s: State, n: nat)
    requires n < |s.pollers| && |s.subscribed| == |s.pollers| == |s.commits|
  {
    && s.subscribed[n] != []
    && match s.pollers[n]
       case Waiting => s.commits[n] == 0
       case Fetched(_) => s.commits[n] == 0
       case Publishing(_) => s.commits[n] == 1
       case Cancelling => s.commits[n] == 1
       case Stopped => s.commits[n] == 0 || (s.commits[n] == 1 && n in s.ended)
  }

  ghost predicate SessionsSound(s: State) {
    && |s.subscribed| == |s.pollers| == |s.commits|
    && (s.phase.InSession? ==> s.phase.id < |s.pollers|)
    && (s.phase.Committed? ==> s.phase.uuids != [])
    && (s.phase.Exited? ==> s.cancelled)
    && (!s.handling.NoEvent? ==> s.phase.InSession?)
    && (forall n :: 0 <= n < |s.pollers| ==> PollerSound(s, n))
  }

  lemma SessionsSoundLoop(s: State, a: LoopAction)
    requires SessionsSound(s)
    ensures SessionsSound(LoopStep(s, a))
  {
    var t := LoopStep(s, a);
    forall n | 0 <= n < |t.pollers|
      ensures |t.subscribed| == |t.pollers| == |t.commits| && PollerSound(t, n)
    {
      if n < |s.pollers| { assert PollerSound(s, n); }
    }
  }

  lemma SessionsSoundPoll(s: State, n: nat, a: PollAction)
    requires SessionsSound(s)
    ensures SessionsSound(PollStep(s, n, a))
  {
    var t := PollStep(s, n, a);
    forall k | 0 <= k < |t.pollers| ensures PollerSound(t, k) {
      assert PollerSound(s, k);
    }
  }

  lemma SessionsSoundStep(s: State, a: Action)
    requires SessionsSound(s)
    ensures SessionsSound(Step(s, a))
  {
    match a
    case Loop(l) => SessionsSoundLoop(s, l);
    case Poll(n, p) => SessionsSoundPoll(s, n, p);
  }

  /** What every interleaving keeps, pollers of ended sessions included: the stored inventory is that
      of the live list (nil exactly when it is empty); every published list was live at the end of a
      critical section; a poller commits at most one change and then ends its session; and the loop
      exits only after cancellation. */
  lemma {:induction false} EveryInterleaving(s: State, actions: seq<Action>)
    requires InventoryStored(s) && ShownWasLive(s) && SessionsSound(s)
    ensures var t := Run(s, actions); InventoryStored(t) && ShownWasLive(t) && SessionsSound(t)
    decreases |actions|
  {
    if actions != [] {
      InventoryStoredStep(s, actions[0]);
      ShownWasLiveStep(s, actions[0]);
      SessionsSoundStep(s, actions[0]);
      EveryInterleaving(Step(s, actions[0]), actions[1..]);
    }
  }

  lemma EveryReachableState(actions: seq<Action>)
    ensures var t := Run(Init(), actions); InventoryStored(t) && ShownWasLive(t) && SessionsSound(t)
  {
    assert UniqueUuids([]) == [];
    EveryInterleaving(Init(), actions);
  }

  // ----- the subscription follows the inventory -----

  /** The session that is being set up, or running and not cancelled, subscribes the stored inventory,
      except from its own poller's commit until that poller cancels it, when it never does. */
  ghost predicate Aligned(s: State)
    requires SessionsSound(s)
  {
    match s.phase
    case Committed(uuids) => s.shared.prev == Some(uuids)
    case InSession(n) =>
      n !in s.ended ==> (s.shared.prev == Some(s.subscribed[n]) <==> !InWindow(s.pollers[n]))
    case _ => true
  }

  /** A change committed by the poller of an earlier session, at a time when it matters: a session is
      being set up, or one is running whose own poller has not committed, or has and the earlier
      poller brings back just what is subscribed. */
  predicate StaleCommit(s: State, a: Action)
    requires SessionsSound(s)
  {
    && a.Poll? && a.p.PollCommitted? && a.n < |s.pollers| && s.pollers[a.n].Fetched?
    && Reports(s.shared, s.pollers[a.n].stations)
    && match s.phase
       case Committed(_) => true
       case InSession(m) =>
         && m != a.n && m !in s.ended
         && (InWindow(s.pollers[m]) ==> s.subscribed[m] == InventoryIn(s.pollers[a.n].stations))
       case _ => false
  }

  lemma AlignedLoop(s: State, a: LoopAction)
    requires SessionsSound(s) && Aligned(s)
    ensures SessionsSound(LoopStep(s, a)) && Aligned(LoopStep(s, a))
  {
    SessionsSoundLoop(s, a);
  }

  lemma AlignedPoll(s: State, n: nat, a: PollAction)
    requires SessionsSound(s) && Aligned(s) && !a.PollCommitted?
    ensures SessionsSound(PollStep(s, n, a)) && Aligned(PollStep(s, n, a))
  {
    SessionsSoundPoll(s, n, a);
  }

  lemma AlignedPollCommit(s: State, n: nat)
    requires SessionsSound(s) && Aligned(s)
    ensures SessionsSound(PollStep(s, n, PollCommitted))
    ensures Aligned(PollStep(s, n, PollCommitted)) <==> !StaleCommit(s, Poll(n, PollCommitted))
  {
    SessionsSoundPoll(s, n, PollCommitted);
    if s.phase.InSession? { assert PollerSound(s, s.phase.id); }
  }

  /** Alignment survives a step exactly when the step is not a stale commit. */
  lemma AlignedStepIff(s: State, a: Action)
    requires SessionsSound(s) && Aligned(s)
    ensures SessionsSound(Step(s, a))
    ensures Aligned(Step(s, a)) <==> !StaleCommit(s, a)
  {
    if a.Loop? { AlignedLoop(s, a.l); }
    else if a.p.PollCommitted? { AlignedPollCommit(s, a.n); }
    else { AlignedPoll(s, a.n, a.p); }
  }

  ghost predicate NoStaleCommit(s: State, actions: seq<Action>)
    requires SessionsSound(s)
    decreases |actions|
  {
    SessionsSoundStep(s, if actions == [] then Loop(FetchFailed) else actions[0]);
    actions == [] || (!StaleCommit(s, actions[0]) && NoStaleCommit(Step(s, actions[0]), actions[1..]))
  }

  lemma {:induction false} AlignedRun(s: State, actions: seq<Action>)
    requires SessionsSound(s) && Aligned(s) && NoStaleCommit(s, actions)
    ensures SessionsSound(Run(s, actions)) && Aligned(Run(s, actions))
    decreases |actions|
  {
    if actions != [] {
      AlignedStepIff(s, actions[0]);
      AlignedRun(Step(s, actions[0]), actions[1..]);
    }
  }

  /** A run has kept alignment after each of its steps exactly when none of them is a stale commit. */
  lemma {:induction false} AlignedThroughoutIff(s: State, actions: seq<Action>)
    requires SessionsSound(s) && Aligned(s)
    ensures (forall k :: 0 <= k <= |actions| ==> AlignedAfter(s, actions, k)) <==> NoStaleCommit(s, actions)
    decreases |actions|
  {
    if actions == [] {
      assert actions[..0] == [];
    } else {
      var t := Step(s, actions[0]);
      AlignedStepIff(s, actions[0]);
      forall k | 0 <= k < |actions| ensures AlignedAfter(t, actions[1..], k) <==> AlignedAfter(s, actions, k + 1) {
        PrefixStep(s, actions, k);
      }
      assert AlignedAfter(s, actions, 0) by { assert actions[..0] == []; }
      assert AlignedAfter(t, actions[1..], 0) <==> Aligned(t) by { assert actions[1..][..0] == []; }
      if Aligned(t) {
        AlignedThroughoutIff(t, actions[1..]);
        if forall k :: 0 <= k <= |actions| - 1 ==> AlignedAfter(t, actions[1..], k) {
          forall k | 0 <= k <= |actions| ensures AlignedAfter(s, actions, k) {
            if k > 0 { assert AlignedAfter(t, actions[1..], k - 1); }
          }
        } else {
          var k :| 0 <= k <= |actions| - 1 && !AlignedAfter(t, actions[1..], k);
          assert !AlignedAfter(s, actions, k + 1);
        }
      } else {
        assert !AlignedAfter(s, actions, 0 + 1);
      }
    }
  }

  ghost predicate AlignedAfter(s: State, actions: seq<Action>, k: nat)
    requires k <= |actions|
  {
    var t := Run(s, actions[..k]);
    SessionsSound(t) && Aligned(t)
  }

  lemma PrefixStep(s: State, actions: seq<Action>, k: nat)
    requires k < |actions|
    ensures Run(s, actions[..k + 1]) == Run(Step(s, actions[0]), actions[1..][..k])
  {
    assert actions[..k + 1][1..] == actions[1..][..k];
  }

  /** From the start: the subscription follows the inventory throughout a run exactly when the run has no
      stale commit. */
  lemma FollowsThroughoutIff(actions: seq<Action>)
    ensures (forall k :: 0 <= k <= |actions| ==> AlignedAfter(Init(), actions, k)) <==> NoStaleCommit(Init(), actions)
  {
    AlignedThroughoutIff(Init(), actions);
  }

  /** In every run without stale commits the subscription follows the inventory. */
  lemma SubscriptionFollowsInventory(actions: seq<Action>)
    requires NoStaleCommit(Init(), actions)
    ensures SessionsSound(Run(Init(), actions)) && Aligned(Run(Init(), actions))
  {
    AlignedRun(Init(), actions);
  }

  lemma {:induction false} RunAppend(s: State, p: seq<Action>, q: seq<Action>)
    ensures Run(s, p + q) == Run(Run(s, p), q)
    decreases |p|
  {
    if p == [] {
      assert p + q == q;
    } else {
      assert (p + q)[1..] == p[1..] + q;
      RunAppend(Step(s, p[0]), p[1..], q);
    }
  }

  lemma RunThree(s: State, a: Action, b: Action, c: Action)
    ensures Run(s, [a, b, c]) == Step(Step(Step(s, a), b), c)
  {
    assert [a, b, c][1..] == [b, c] && [b, c][1..] == [c] && [c][1..] == [];
    assert Run(s, [a, b, c]) == Run(Step(s, a), [b, c]);
    assert Run(Step(s, a), [b, c]) == Run(Step(Step(s, a), b), [c]);
  }

  /** The first session's poller fetches b, then that session ends; a second session is set up for a,
      and only then the first poller commits. */
  function StaleRun(a: seq<ChargePoint>, b: seq<ChargePoint>): seq<Action> {
    [Loop(LoopCommitted(a, true)), Loop(SessionStarted), Poll(0, PollFetched(b))]
    + [Loop(SessionEnded), Loop(LoopCommitted(a, true)), Loop(SessionStarted)]
    + [Poll(0, PollCommitted)]
  }

  /** Such a run leaves the second session subscribed to the wrong stations, whatever the two lists,
      as long as their UUIDs differ and a has some. */
  lemma StalePollerMisleads(a: seq<ChargePoint>, b: seq<ChargePoint>)
    requires UuidSet(Infos(a)) != {} && UuidSet(Infos(a)) != UuidSet(Infos(b))
    ensures var s := Run(Init(), StaleRun(a, b));
            && s.phase == InSession(1) && s.ended == {0} && s.pollers == [Publishing(b), Waiting]
            && |s.subscribed| == 2 && s.subscribed[1] == InventoryIn(a)
            && s.shared.live == b && s.shared.prev != Some(s.subscribed[1])
  {
    var first := [Loop(LoopCommitted(a, true)), Loop(SessionStarted), Poll(0, PollFetched(b))];
    var second := [Loop(SessionEnded), Loop(LoopCommitted(a, true)), Loop(SessionStarted)];
    RunAppend(Init(), first, second);
    RunAppend(Init(), first + second, [Poll(0, PollCommitted)]);
    var s3 := StaleStart(a, b);
    var s6 := StaleMiddle(s3, a, b);
    StaleEnd(s6, a, b);
  }

  lemma StaleStart(a: seq<ChargePoint>, b: seq<ChargePoint>) returns (s3: State)
    requires UuidSet(Infos(a)) != {}
    ensures s3 == Run(Init(), [Loop(LoopCommitted(a, true)), Loop(SessionStarted), Poll(0, PollFetched(b))])
    ensures s3.phase == InSession(0) && s3.pollers == [Fetched(b)] && s3.commits == [0] && s3.ended == {}
    ensures s3.subscribed == [InventoryIn(a)] && s3.handling == NoEvent && !s3.cancelled && InventoryIn(a) != []
  {
    InventoryMeaning(Infos(a));
    assert InventoryIn(a) != [];
    RunThree(Init(), Loop(LoopCommitted(a, true)), Loop(SessionStarted), Poll(0, PollFetched(b)));
    var s2 := LoopStep(LoopStep(Init(), LoopCommitted(a, true)), SessionStarted);
    assert s2.pollers == [Waiting] && s2.phase == InSession(0);
    s3 := PollStep(s2, 0, PollFetched(b));
  }

  lemma StaleMiddle(s3: State, a: seq<ChargePoint>, b: seq<ChargePoint>) returns (s6: State)
    requires s3.phase == InSession(0) && s3.pollers == [Fetched(b)] && s3.commits == [0] && s3.ended == {}
    requires s3.subscribed == [InventoryIn(a)] && s3.handling == NoEvent && !s3.cancelled && InventoryIn(a) != []
    ensures s6 == Run(s3, [Loop(SessionEnded), Loop(LoopCommitted(a, true)), Loop(SessionStarted)])
    ensures s6.phase == InSession(1) && s6.pollers == [Fetched(b), Waiting] && s6.commits == [0, 0] && s6.ended == {0}
    ensures s6.subscribed == [InventoryIn(a), InventoryIn(a)] && s6.shared == TakeOver(a)
  {
    RunThree(s3, Loop(SessionEnded), Loop(LoopCommitted(a, true)), Loop(SessionStarted));
    var s5 := LoopStep(LoopStep(s3, SessionEnded), LoopCommitted(a, true));
    assert s5.phase == Committed(InventoryIn(a)) && s5.shared == TakeOver(a);
    s6 := LoopStep(s5, SessionStarted);
  }

  lemma StaleEnd(s6: State, a: seq<ChargePoint>, b: seq<ChargePoint>)
    requires UuidSet(Infos(a)) != {} && UuidSet(Infos(a)) != UuidSet(Infos(b))
    requires s6.phase == InSession(1) && s6.pollers == [Fetched(b), Waiting] && s6.commits == [0, 0] && s6.ended == {0}
    requires s6.subscribed == [InventoryIn(a), InventoryIn(a)] && s6.shared == TakeOver(a)
    ensures var s := Run(s6, [Poll(0, PollCommitted)]);
            && s.phase == InSession(1) && s.ended == {0} && s.pollers == [Publishing(b), Waiting]
            && |s.subscribed| == 2 && s.subscribed[1] == InventoryIn(a)
            && s.shared.live == b && s.shared.prev != Some(s.subscribed[1])
  {
    ChangeReportedIff(Infos(a), Infos(b));
    assert Run(s6, [Poll(0, PollCommitted)]) == PollStep(s6, 0, PollCommitted);
  }
}
