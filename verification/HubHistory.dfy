/** What the hub's operations do to each client, and what every client is owed, told by the actions alone. */
module HubHistory {
  import opened Text
  import opened Hub

  // ----- one operation -----

  predicate Stored<C>(s: State<C>, user: UserId, c: C) {
    user in s.byUser && c in s.byUser[user]
  }

  /** A registered client of the user with fewer than 32 queued frames gets the payload queued; one with 32
      loses it; nobody else is touched, and no client comes or goes. */
  lemma PublishMeaning<C>(s: State<C>, user: UserId, payload: string, c: C)
    requires c in s.conns
    ensures var t := Publish(s, user, payload);
            var (x, y) := (s.conns[c], t.conns[c]);
            && t.byUser == s.byUser && t.total == s.total && t.conns.Keys == s.conns.Keys
            && y == if !Stored(s, user, c) then x
                    else if |x.queue| < 32 then x.(queue := x.queue + [payload])
                    else x.(drops := x.drops + 1)
  {
  }

  /** A new client is stored under its user, with an open and empty channel; nobody else is touched. */
  lemma ConnectMeaning<C>(s: State<C>, c: C, user: UserId, d: C, u: UserId)
    requires c !in s.conns && MembersSound(s)
    ensures var t := Connect(s, c, user);
            && Stored(t, user, c) && t.conns[c].user == user && t.conns[c].closings == 0
            && t.conns[c].queue == [] == t.conns[c].taken && t.conns[c].drops == 0
            && t.total == s.total + 1
            && (d != c && d in s.conns ==> t.conns[d] == s.conns[d])
            && (d != c || u != user ==> (Stored(t, u, d) <==> Stored(s, u, d)))
  {
  }

  /** A removed client is stored no more, its channel closed once, its queued frames kept; nobody else is
      touched. */
  lemma RemoveMeaning<C>(s: State<C>, c: C, d: C, u: UserId)
    requires MembersSound(s) && c in s.conns && Stored(s, s.conns[c].user, c)
    ensures var t := Remove(s, c);
            && !Stored(t, u, c) && t.conns[c].closings == s.conns[c].closings + 1 && t.total == s.total - 1
            && t.conns[c].queue == s.conns[c].queue && t.conns[c].taken == s.conns[c].taken
            && (d != c && d in s.conns ==> t.conns[d] == s.conns[d])
            && (d != c ==> (Stored(t, u, d) <==> Stored(s, u, d)))
  {
  }

  /** The writer takes the oldest frame off the queue. */
  lemma TakeMeaning<C>(s: State<C>, c: C)
    requires c in s.conns && s.conns[c].queue != []
    ensures var (x, y) := (s.conns[c], Take(s, c).conns[c]);
            && y.taken == x.taken + [x.queue[0]] && [x.queue[0]] + y.queue == x.queue
            && y.drops == x.drops && y.closings == x.closings && y.user == x.user
    ensures forall d :: d in s.conns && d != c ==> Take(s, c).conns[d] == s.conns[d]
  {
  }

  /** As many turns of the writer as frames are queued leave nothing queued, also on a closed channel. */
  lemma {:induction false} TurnsDrain<C>(s: State<C>, c: C, n: nat)
    requires c in s.conns && n == |s.conns[c].queue|
    ensures var t := Run(s, seq(n, _ => Takes(c)));
            c in t.conns && t.conns[c].queue == [] && t.conns[c].taken == s.conns[c].taken + s.conns[c].queue
    decreases n
  {
    var turns: seq<Action<C>> := seq(n, _ => Takes(c));
    if n > 0 {
      TakeMeaning(s, c);
      assert turns[0] == Takes(c) && turns[1..] == seq(n - 1, _ => Takes(c));
      TurnsDrain(Take(s, c), c, n - 1);
      assert Run(s, turns) == Run(Take(s, c), turns[1..]);
    }
  }

  // ----- what the actions say -----

  datatype Presence = Never | Here(user: UserId) | Gone

  function NextPresence<C(==)>(before: Presence, a: Action<C>, c: C): Presence {
    match a
    case Connects(d, user) => if d == c && before.Never? then Here(user) else before
    case Unregisters(d) => if d == c && before.Here? then Gone else before
    case _ => before
  }

  /** A client is there from its first connection to its first removal. */
  function PresenceOf<C(==)>(actions: seq<Action<C>>, c: C): Presence {
    if actions == [] then Never
    else NextPresence(PresenceOf(actions[..|actions| - 1], c), actions[|actions| - 1], c)
  }

  function OwedBy<C>(presence: Presence, a: Action<C>): seq<string> {
    if a.Publishes? && presence == Here(a.user) then [a.payload] else []
  }

  /** The payloads published to the client's user while it is there. */
  function Owed<C(==)>(actions: seq<Action<C>>, c: C): seq<string> {
    if actions == [] then []
    else
      var front := actions[..|actions| - 1];
      Owed(front, c) + OwedBy(PresenceOf(front, c), actions[|actions| - 1])
  }

  lemma {:induction false} RunSnoc<C>(s: State<C>, actions: seq<Action<C>>, a: Action<C>)
    ensures Run(s, actions + [a]) == Step(Run(s, actions), a)
    decreases |actions|
  {
    if actions == [] {
      assert [a][1..] == [] && actions + [a] == [a];
    } else {
      assert (actions + [a])[0] == actions[0] && (actions + [a])[1..] == actions[1..] + [a];
      RunSnoc(Step(s, actions[0]), actions[1..], a);
    }
  }

  function Failures<C>(actions: seq<Action<C>>): nat {
    if actions == [] then 0
    else Failures(actions[..|actions| - 1]) + if actions[|actions| - 1].WriteFails? then 1 else 0
  }

  /** The failed writes are counted, and nothing else is counted as one. */
  lemma {:induction false} FailuresCounted<C>(actions: seq<Action<C>>)
    ensures Run(Init<C>(), actions).writeErrors == Failures(actions)
  {
    if actions != [] {
      var front, a := actions[..|actions| - 1], actions[|actions| - 1];
      assert actions == front + [a];
      FailuresCounted(front);
      RunSnoc(Init<C>(), front, a);
    }
  }

  /** The state of a client is what the actions say. */
  ghost predicate Tells<C>(s: State<C>, presence: Presence, owed: seq<string>, c: C) {
    match presence
    case Never => c !in s.conns && owed == []
    case Here(user) =>
      && c in s.conns && s.conns[c].user == user && Stored(s, user, c) && s.conns[c].closings == 0
      && InLog(s.log, s.conns[c]) && s.conns[c].until.None? && Due(s.log, s.conns[c]) == owed
    case Gone =>
      && c in s.conns && !Stored(s, s.conns[c].user, c) && s.conns[c].closings == 1
      && InLog(s.log, s.conns[c]) && s.conns[c].until.Some? && Due(s.log, s.conns[c]) == owed
  }

  lemma TellsConnect<C>(s: State<C>, presence: Presence, owed: seq<string>, c: C, d: C, user: UserId)
    requires MembersSound(s) && Tells(s, presence, owed, c)
    ensures Tells(Connect(s, d, user), if d == c && presence.Never? then Here(user) else presence, owed, c)
  {
    if d !in s.conns {
      ConnectMeaning(s, d, user, c, if c in s.conns then s.conns[c].user else user);
      if d == c {
        assert Due(s.log, NewConn(user, |s.log|)) == [];
      }
    }
  }

  lemma TellsRemove<C>(s: State<C>, presence: Presence, owed: seq<string>, c: C, d: C)
    requires MembersSound(s) && Tells(s, presence, owed, c)
    ensures Tells(Remove(s, d), if d == c && presence.Here? then Gone else presence, owed, c)
  {
    if d in s.conns && Stored(s, s.conns[d].user, d) {
      RemoveMeaning(s, d, c, if c in s.conns then s.conns[c].user else s.conns[d].user);
      if d == c {
        assert Due(s.log, Closed(s.conns[c], |s.log|)) == Due(s.log, s.conns[c]);
      }
    }
  }

  lemma TellsPublish<C>(s: State<C>, presence: Presence, owed: seq<string>, c: C, user: UserId, payload: string)
    requires MembersSound(s) && Tells(s, presence, owed, c)
    ensures Tells(Publish(s, user, payload), presence, owed + (if presence == Here(user) then [payload] else []), c)
  {
    if c in s.conns {
      PublishMeaning(s, user, payload, c);
      DueMore(s.log, s.conns[c], Published(user, payload));
      var t := Publish(s, user, payload);
      assert Due(t.log, t.conns[c]) == Due(t.log, s.conns[c]);
    } else {
      assert owed + [] == owed;
    }
  }

  lemma TellsTake<C>(s: State<C>, presence: Presence, owed: seq<string>, c: C, d: C)
    requires Tells(s, presence, owed, c)
    ensures Tells(Take(s, d), presence, owed, c)
  {
    if d == c && c in s.conns {
      assert Due(s.log, Advance(s.conns[c])) == Due(s.log, s.conns[c]);
    }
  }

  lemma {:induction false} ActionsTell<C>(actions: seq<Action<C>>, c: C)
    ensures Tells(Run(Init<C>(), actions), PresenceOf(actions, c), Owed(actions, c), c)
    decreases |actions|
  {
    if actions != [] {
      var front, a := actions[..|actions| - 1], actions[|actions| - 1];
      ActionsTell(front, c);
      ConnectionsInEveryRun(front);
      assert actions == front + [a];
      RunSnoc(Init<C>(), front, a);
      TellsStep(Run(Init<C>(), front), PresenceOf(front, c), Owed(front, c), c, a);
    }
  }

  lemma TellsStep<C>(s: State<C>, presence: Presence, owed: seq<string>, c: C, a: Action<C>)
    requires MembersSound(s) && Tells(s, presence, owed, c)
    ensures Tells(Step(s, a), NextPresence(presence, a, c), owed + OwedBy(presence, a), c)
  {
    assert owed + [] == owed;
    match a
    case Connects(d, user) => TellsConnect(s, presence, owed, c, d, user);
    case Unregisters(d) => TellsRemove(s, presence, owed, c, d);
    case Publishes(user, payload) => TellsPublish(s, presence, owed, c, user, payload);
    case Takes(d) => TellsTake(s, presence, owed, c, d);
    case WriteFails =>
  }

  // ----- the laws of a run -----

  /** In every run: a client is stored, under its own user and with an open channel, exactly from its
      connection to its removal, and its channel is closed once afterwards; what its writer has taken and
      what is queued are payloads published to its user in between, in order, no more than 32 of them
      queued; all that is missing was dropped. */
  lemma ClientsInEveryRun<C>(actions: seq<Action<C>>, c: C)
    ensures var s := Run(Init<C>(), actions);
            match PresenceOf(actions, c)
            case Never => c !in s.conns
            case Here(user) => c in s.conns && s.conns[c].user == user && Stored(s, user, c) && s.conns[c].closings == 0
            case Gone => c in s.conns && !Stored(s, s.conns[c].user, c) && s.conns[c].closings == 1
    ensures var s := Run(Init<C>(), actions);
            c in s.conns ==>
              var x := s.conns[c];
              && |x.queue| <= 32
              && Subsequence(x.taken + x.queue, Owed(actions, c))
              && |x.taken| + |x.queue| + x.drops == |Owed(actions, c)|
  {
    ActionsTell(actions, c);
    if c in Run(Init<C>(), actions).conns {
      DeliveryInEveryRun(actions, c);
    }
  }

  /** After k actions the client's writer is at most 32 frames behind. */
  ghost predicate KeepsUp<C>(actions: seq<Action<C>>, c: C, k: nat)
    requires k <= |actions|
  {
    var s := Run(Init<C>(), actions[..k]);
    c in s.conns ==> |Owed(actions[..k], c)| <= |s.conns[c].taken| + 32
  }

  /** A client has lost no frame exactly if its writer was never more than 32 frames behind. */
  lemma NothingDroppedIff<C>(actions: seq<Action<C>>, c: C)
    requires c in Run(Init<C>(), actions).conns
    ensures Run(Init<C>(), actions).conns[c].drops == 0 <==> forall k :: 0 <= k <= |actions| ==> KeepsUp(actions, c, k)
  {
    assert actions[..|actions|] == actions;
    DropsFrom(actions, c, |actions|);
  }

  lemma {:induction false} DropsFrom<C>(actions: seq<Action<C>>, c: C, n: nat)
    requires n <= |actions|
    ensures var s := Run(Init<C>(), actions[..n]);
            (c in s.conns ==> s.conns[c].drops == 0) <==> forall k :: 0 <= k <= n ==> KeepsUp(actions, c, k)
    decreases n
  {
    var s := Run(Init<C>(), actions[..n]);
    ClientsInEveryRun(actions[..n], c);
    if n == 0 {
      assert actions[..0] == [];
      assert KeepsUp(actions, c, 0);
    } else {
      DropsFrom(actions, c, n - 1);
      ClientsInEveryRun(actions[..n - 1], c);
      assert actions[..n] == actions[..n - 1] + [actions[n - 1]];
      RunSnoc(Init<C>(), actions[..n - 1], actions[n - 1]);
      ConnectionsInEveryRun(actions[..n - 1]);
      StepDrops(Run(Init<C>(), actions[..n - 1]), actions[n - 1], c);
      assert KeepsUp(actions, c, n) <==> (c in s.conns ==> |s.conns[c].queue| + s.conns[c].drops <= 32);
    }
  }

  /** A step drops a frame only of a client with 32 queued ones, and takes no drop back. */
  lemma StepDrops<C>(s: State<C>, a: Action<C>, c: C)
    requires MembersSound(s)
    ensures var t := Step(s, a);
            && (c in s.conns ==> c in t.conns && t.conns[c].drops >= s.conns[c].drops)
            && (c in s.conns && t.conns[c].drops > s.conns[c].drops ==>
                  |t.conns[c].queue| == |s.conns[c].queue| >= 32 && t.conns[c].taken == s.conns[c].taken)
            && (c in t.conns && c !in s.conns ==> t.conns[c].drops == 0)
  {
    if a.Publishes? && c in s.conns { PublishMeaning(s, a.user, a.payload, c); }
  }
}
