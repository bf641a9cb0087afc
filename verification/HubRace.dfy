/** The hub's publish as it runs: the user's clients are copied under the lock, and each is sent to
    afterwards, outside it, while clients come and go. */
module HubRace {
  import opened Hub

  type PublishId = nat

  /** A publish under way: the clients still to be sent to, and those of them removed meanwhile. */
  datatype Copy<C(==)> = Copy(user: UserId, payload: string, left: set<C>, removed: set<C>)

  /** `panicked`: a send met a closed channel, and the program is gone. */
  datatype RaceState<C(==)> = RaceState(hub: State<C>, copies: map<PublishId, Copy<C>>, panicked: bool)

  datatype RaceAction<C> =
    | Hubs(a: Action<C>)
    | Copies(p: PublishId, user: UserId, payload: string)
    | Sends(p: PublishId, c: C)

  function Noted<C>(copies: map<PublishId, Copy<C>>, c: C): map<PublishId, Copy<C>> {
    map p | p in copies :: if c in copies[p].left then copies[p].(removed := copies[p].removed + {c}) else copies[p]
  }

  predicate IsStored<C>(s: State<C>, c: C) {
    c in s.conns && c in Members(s, s.conns[c].user)
  }

  /** The hub's other operations; a publish is started by Copies. */
  function HubStep<C>(s: RaceState<C>, a: Action<C>): RaceState<C> {
    match a
    case Publishes(_, _) => s
    case Unregisters(c) =>
      if IsStored(s.hub, c) then s.(hub := Remove(s.hub, c), copies := Noted(s.copies, c)) else s
    case _ => s.(hub := Step(s.hub, a))
  }

  function Copied<C>(s: RaceState<C>, p: PublishId, user: UserId, payload: string): RaceState<C> {
    if p in s.copies then s else s.(copies := s.copies[p := Copy(user, payload, Members(s.hub, user), {})])
  }

  /** One send of a publish: on a closed channel it panics. */
  function SentTo<C>(s: RaceState<C>, p: PublishId, c: C): RaceState<C> {
    if p !in s.copies || c !in s.copies[p].left || c !in s.hub.conns then s
    else if s.hub.conns[c].closings > 0 then s.(panicked := true)
    else
      s.(hub := Served(s.hub, c, s.copies[p].payload),
         copies := s.copies[p := s.copies[p].(left := s.copies[p].left - {c})])
  }

  function RaceStep<C>(s: RaceState<C>, a: RaceAction<C>): RaceState<C> {
    if s.panicked then s
    else
      match a
      case Hubs(b) => HubStep(s, b)
      case Copies(p, user, payload) => Copied(s, p, user, payload)
      case Sends(p, c) => SentTo(s, p, c)
  }

  function RaceRun<C>(s: RaceState<C>, actions: seq<RaceAction<C>>): RaceState<C>
    decreases |actions|
  {
    if actions == [] then s else RaceRun(RaceStep(s, actions[0]), actions[1..])
  }

  function RaceInit<C>(): RaceState<C> {
    RaceState(Init(), map[], false)
  }

  /** Publishes under way change nothing about the hub's other operations. */
  lemma OtherOperations<C>(s: RaceState<C>, a: Action<C>)
    requires !s.panicked && !a.Publishes?
    ensures RaceStep(s, Hubs(a)).hub == Step(s.hub, a) && !RaceStep(s, Hubs(a)).panicked
  {
  }

  // ----- what every interleaving keeps -----

  predicate QueueSound(x: Conn) {
    |x.queue| <= 32
  }

  ghost predicate CopySound<C>(s: State<C>, k: Copy<C>) {
    && k.left <= s.conns.Keys
    && (forall c :: c in k.left ==> s.conns[c].user == k.user && (c in k.removed <==> s.conns[c].closings > 0))
  }

  ghost predicate RaceSound<C>(s: RaceState<C>) {
    && MembersSound(s.hub) && CountsSound(s.hub)
    && (forall c :: c in s.hub.conns ==> QueueSound(s.hub.conns[c]))
    && (forall p :: p in s.copies ==> CopySound(s.hub, s.copies[p]))
  }

  lemma ServedCounts<C>(s: State<C>, c: C, payload: string)
    requires CountsSound(s) && c in s.conns
    ensures CountsSound(Served(s, c, payload))
  {
    ServeOne(s, {}, c, payload);
    assert OfferedTo(s.conns, {}, payload) == s.conns;
    assert {} + {c} == {c};
    OfferedReceived(s.conns, {c}, payload);
    OfferedLost(s.conns, {c}, payload);
  }

  lemma ServedMembers<C>(s: State<C>, c: C, payload: string)
    requires MembersSound(s) && c in s.conns
    ensures MembersSound(Served(s, c, payload))
  {
  }

  /** Copies stay sound while no channel of theirs is closed. */
  lemma CopiesKept<C>(s: State<C>, t: State<C>, k: Copy<C>)
    requires CopySound(s, k) && s.conns.Keys <= t.conns.Keys
    requires forall c :: c in k.left ==>
      t.conns[c].user == s.conns[c].user && t.conns[c].closings == s.conns[c].closings
    ensures CopySound(t, k)
  {
  }

  lemma SendSound<C>(s: RaceState<C>, p: PublishId, c: C)
    requires RaceSound(s)
    ensures RaceSound(SentTo(s, p, c))
  {
    var t := SentTo(s, p, c);
    if t.hub != s.hub || t.copies != s.copies {
      ServedCounts(s.hub, c, s.copies[p].payload);
      ServedMembers(s.hub, c, s.copies[p].payload);
      assert QueueSound(s.hub.conns[c]);
      forall q | q in t.copies ensures CopySound(t.hub, t.copies[q]) {
        assert CopySound(s.hub, s.copies[q]);
        CopiesKept(s.hub, t.hub, s.copies[q]);
      }
    }
  }

  lemma RemovalSound<C>(s: RaceState<C>, c: C)
    requires RaceSound(s) && IsStored(s.hub, c)
    ensures RaceSound(s.(hub := Remove(s.hub, c), copies := Noted(s.copies, c)))
  {
    var t := s.(hub := Remove(s.hub, c), copies := Noted(s.copies, c));
    RemoveMembers(s.hub, c);
    SizesRemove(s.hub.byUser, s.hub.conns[c].user, c);
    SameSums(s.hub.conns, c, Closed(s.hub.conns[c], |s.hub.log|));
    assert QueueSound(s.hub.conns[c]);
    forall p | p in t.copies ensures CopySound(t.hub, t.copies[p]) {
      assert CopySound(s.hub, s.copies[p]);
    }
  }

  lemma ConnectRace<C>(s: RaceState<C>, c: C, user: UserId)
    requires RaceSound(s)
    ensures RaceSound(s.(hub := Connect(s.hub, c, user)))
  {
    var t := s.(hub := Connect(s.hub, c, user));
    ConnectMembers(s.hub, c, user);
    if c !in s.hub.conns {
      ConnectCounts(s.hub, c, user);
    }
    forall p | p in t.copies ensures CopySound(t.hub, t.copies[p]) {
      CopiesKept(s.hub, t.hub, s.copies[p]);
    }
  }

  lemma TakeRace<C>(s: RaceState<C>, c: C)
    requires RaceSound(s)
    ensures RaceSound(s.(hub := Take(s.hub, c)))
  {
    var t := s.(hub := Take(s.hub, c));
    TakeMembers(s.hub, c);
    if c in s.hub.conns {
      var x := s.hub.conns[c];
      assert |Advance(x).taken + Advance(x).queue| == |x.taken + x.queue|;
      SameSums(s.hub.conns, c, Advance(x));
      assert QueueSound(x);
    }
    forall p | p in t.copies ensures CopySound(t.hub, t.copies[p]) {
      CopiesKept(s.hub, t.hub, s.copies[p]);
    }
  }

  lemma HubStepSound<C>(s: RaceState<C>, a: Action<C>)
    requires RaceSound(s)
    ensures RaceSound(HubStep(s, a))
  {
    match a
    case Unregisters(c) => if IsStored(s.hub, c) { RemovalSound(s, c); }
    case Connects(c, user) => ConnectRace(s, c, user);
    case Takes(c) => TakeRace(s, c);
    case _ =>
  }

  lemma RaceStepSound<C>(s: RaceState<C>, a: RaceAction<C>)
    requires RaceSound(s)
    ensures RaceSound(RaceStep(s, a))
  {
    if !s.panicked {
      match a
      case Hubs(b) => HubStepSound(s, b);
      case Copies(_, _, _) =>
      case Sends(p, c) => SendSound(s, p, c);
    }
  }

  lemma {:induction false} RaceRunSound<C>(s: RaceState<C>, actions: seq<RaceAction<C>>)
    requires RaceSound(s)
    ensures RaceSound(RaceRun(s, actions))
    decreases |actions|
  {
    if actions != [] {
      RaceStepSound(s, actions[0]);
      RaceRunSound(RaceStep(s, actions[0]), actions[1..]);
    }
  }

  /** In every interleaving of publishes, registrations and removals: the connection counter is the number
      of stored clients, no stored set is empty, no channel is closed twice, no queue exceeds its capacity,
      a frame reaches only clients of the user it is published to, and the counters are the frames received
      and lost. */
  lemma EveryInterleaving<C>(actions: seq<RaceAction<C>>)
    ensures RaceSound(RaceRun(RaceInit<C>(), actions))
  {
    InitSound<C>();
    RaceRunSound<C>(RaceInit(), actions);
  }

  /** In every interleaving the next send of a publish panics exactly if its client was removed after the
      publish had copied the clients. */
  lemma SendPanicsIff<C>(actions: seq<RaceAction<C>>, p: PublishId, c: C)
    requires var s := RaceRun(RaceInit<C>(), actions); !s.panicked && p in s.copies && c in s.copies[p].left
    ensures var s := RaceRun(RaceInit<C>(), actions);
            RaceStep(s, Sends(p, c)).panicked <==> c in s.copies[p].removed
  {
    EveryInterleaving(actions);
    var s := RaceRun(RaceInit<C>(), actions);
    assert CopySound(s.hub, s.copies[p]);
  }

  /** For any client and payload such a run exists: the client connects, a publish copies it, it goes, and
      the publish sends. */
  lemma RemovalPanics<C>(c: C, user: UserId, payload: string)
    ensures var actions := [Hubs(Connects(c, user)), Copies(0, user, payload), Hubs(Unregisters(c)), Sends(0, c)];
            RaceRun(RaceInit<C>(), actions).panicked
  {
    var s1 := RaceStep(RaceInit<C>(), Hubs(Connects(c, user)));
    var s2 := RaceStep(s1, Copies(0, user, payload));
    assert Members(s1.hub, user) == {c} && s2.copies[0].left == {c};
    var s3 := RaceStep(s2, Hubs(Unregisters(c)));
    assert IsStored(s2.hub, c) && s3.hub.conns[c].closings == 1 && c in s3.copies[0].left;
    var s4 := RaceStep(s3, Sends(0, c));
    assert s4.panicked;
    FourSteps(RaceInit<C>(), Hubs(Connects(c, user)), Copies(0, user, payload), Hubs(Unregisters(c)), Sends(0, c));
  }

  lemma FourSteps<C>(s: RaceState<C>, a1: RaceAction<C>, a2: RaceAction<C>, a3: RaceAction<C>, a4: RaceAction<C>)
    ensures RaceRun(s, [a1, a2, a3, a4]) == RaceStep(RaceStep(RaceStep(RaceStep(s, a1), a2), a3), a4)
  {
    assert [a1, a2, a3, a4][1..] == [a2, a3, a4] && [a2, a3, a4][1..] == [a3, a4];
    assert [a3, a4][1..] == [a4] && [a4][1..] == [];
    var s1 := RaceStep(s, a1);
    var s2 := RaceStep(s1, a2);
    var s3 := RaceStep(s2, a3);
    assert RaceRun(s3, [a4]) == RaceStep(s3, a4);
    assert RaceRun(s2, [a3, a4]) == RaceRun(s3, [a4]);
    assert RaceRun(s1, [a2, a3, a4]) == RaceRun(s2, [a3, a4]);
  }

  // ----- an undisturbed publish is the atomic one -----

  function SendsOf<C>(p: PublishId, order: seq<C>): seq<RaceAction<C>> {
    if order == [] then [] else [Sends(p, order[0])] + SendsOf(p, order[1..])
  }

  function SetOf<C>(order: seq<C>): set<C> {
    set c | c in order
  }

  /** The clients still to be sent to have open channels, and those sent to before are served. */
  ghost predicate UnderWay<C>(s: RaceState<C>, start: State<C>, p: PublishId, done: set<C>, payload: string) {
    && !s.panicked && p in s.copies && s.copies[p].payload == payload && s.copies[p].left !! done
    && s.hub == OfferAll(start, done, payload)
    && (forall c :: c in s.copies[p].left ==> c in start.conns && start.conns[c].closings == 0)
  }

  lemma SendNext<C>(s: RaceState<C>, start: State<C>, p: PublishId, done: set<C>, payload: string, c: C)
    requires UnderWay(s, start, p, done, payload) && c in s.copies[p].left
    ensures var t := SentTo(s, p, c);
            UnderWay(t, start, p, done + {c}, payload) && t.copies[p].left == s.copies[p].left - {c}
  {
    OneOffered(start.conns, done, c, payload);
    ServeOne(start, done, c, payload);
  }

  lemma {:induction false} SendRest<C>(s: RaceState<C>, start: State<C>, p: PublishId, done: set<C>, payload: string,
                                        order: seq<C>)
    requires UnderWay(s, start, p, done, payload) && s.copies[p].left == SetOf(order)
    requires forall i, j :: 0 <= i < j < |order| ==> order[i] != order[j]
    ensures var t := RaceRun(s, SendsOf(p, order));
            !t.panicked && t.hub == OfferAll(start, done + SetOf(order), payload)
    decreases |order|
  {
    if order == [] {
      assert done + SetOf(order) == done;
    } else {
      var c, rest := order[0], order[1..];
      SendNext(s, start, p, done, payload, c);
      assert order == [c] + rest;
      assert SetOf(rest) == SetOf(order) - {c} && done + {c} + SetOf(rest) == done + SetOf(order);
      var acts := SendsOf(p, order);
      assert acts[0] == Sends(p, c) && acts[1..] == SendsOf(p, rest);
      SendRest(SentTo(s, p, c), start, p, done + {c}, payload, rest);
    }
  }

  /** With nothing in between, copying and then sending to every client, in whatever order, does to the hub
      what the one-step publish does, and never panics. */
  lemma UndisturbedIsAtomic<C>(s: RaceState<C>, p: PublishId, user: UserId, payload: string, order: seq<C>)
    requires RaceSound(s) && !s.panicked && p !in s.copies
    requires SetOf(order) == Members(s.hub, user) && forall i, j :: 0 <= i < j < |order| ==> order[i] != order[j]
    ensures var t := RaceRun(s, [Copies(p, user, payload)] + SendsOf(p, order));
            !t.panicked && t.hub.(log := s.hub.log + [Published(user, payload)]) == Publish(s.hub, user, payload)
  {
    var s1 := Copied(s, p, user, payload);
    CopiedUnderWay(s, p, user, payload);
    var acts := [Copies(p, user, payload)] + SendsOf(p, order);
    assert acts[0] == Copies(p, user, payload) && acts[1..] == SendsOf(p, order);
    assert RaceRun(s, acts) == RaceRun(s1, SendsOf(p, order));
    SendRest(s1, s.hub, p, {}, payload, order);
    assert {} + SetOf(order) == SetOf(order);
  }

  lemma CopiedUnderWay<C>(s: RaceState<C>, p: PublishId, user: UserId, payload: string)
    requires RaceSound(s) && !s.panicked && p !in s.copies
    ensures UnderWay(Copied(s, p, user, payload), s.hub, p, {}, payload)
  {
  }
}
