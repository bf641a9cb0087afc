/** From the subscriber's list to a client's screen: the subscriber of one user, the snapshots sent to new
    connections, the farewell on deletion, the printer and the hub, all together. */
module Delivery {
  import opened Text
  import opened Stations
  import opened Payload
  import opened Json
  import Subscriber
  import Hub
  import HubHistory

  /** Who had the hub publish a payload. */
  datatype Source = FromSubscriber | FromConnect | FromDeletion | ForOthers

  /** `fetched`: the lists of the snapshots sent to new connections; `sources`: for each entry of the hub's
      log. */
  datatype State<C(==)> =
    State(sub: Subscriber.State, hub: Hub.State<C>, fetched: seq<seq<ChargePoint>>, sources: seq<Source>)

  datatype Action<C> =
    | SubscriberSteps(a: Subscriber.Action, time: string)
    | SnapshotSent(list: seq<ChargePoint>, time: string)
    | UserDeleted(time: string)
    | OthersPublish(user: string, payload: string)
    | ClientConnects(c: C, user: string)
    | ClientUnregisters(c: C)
    | WriterTakes(c: C)

  /** The frame printed for a list. */
  function FrameOf(user: string, time: string, list: seq<ChargePoint>): string {
    Encode(PayloadJson(PushPayload(user, time, PushStationsOf(list))))
  }

  function Sent<C>(s: State<C>, user: string, payload: string, source: Source): State<C> {
    s.(hub := Hub.Publish(s.hub, user, payload), sources := s.sources + [source])
  }

  function Init<C>(): State<C> {
    State(Subscriber.Init(), Hub.Init(), [], [])
  }

  /** A list that the subscriber has just shown is sent. */
  function WithSubscriber<C>(me: string, s: State<C>, t: Subscriber.State, time: string): State<C> {
    if |t.shown| > |s.sub.shown| then
      Sent(s.(sub := t), me, FrameOf(me, time, t.shown[|t.shown| - 1]), FromSubscriber)
    else s.(sub := t)
  }

  /** One step of the system, seen from the user `me`: when the subscriber shows a list, the hub publishes
      its frame. */
  function Step<C>(me: string, s: State<C>, a: Action<C>): State<C> {
    match a
    case SubscriberSteps(b, time) => WithSubscriber(me, s, Subscriber.Step(s.sub, b), time)
    case SnapshotSent(list, time) => Sent(s.(fetched := s.fetched + [list]), me, FrameOf(me, time, list), FromConnect)
    case UserDeleted(time) => Sent(s, me, FrameOf(me, time, []), FromDeletion)
    case OthersPublish(user, payload) => if user == me then s else Sent(s, user, payload, ForOthers)
    case ClientConnects(c, user) => s.(hub := Hub.Connect(s.hub, c, user))
    case ClientUnregisters(c) => s.(hub := Hub.Remove(s.hub, c))
    case WriterTakes(c) => s.(hub := Hub.Take(s.hub, c))
  }

  function Run<C>(me: string, s: State<C>, actions: seq<Action<C>>): State<C>
    decreases |actions|
  {
    if actions == [] then s else Run(me, Step(me, s, actions[0]), actions[1..])
  }

  /** A run goes on with its next step. */
  lemma {:induction false} RunSnoc<C>(me: string, s: State<C>, actions: seq<Action<C>>, a: Action<C>)
    ensures Run(me, s, actions + [a]) == Step(me, Run(me, s, actions), a)
    decreases |actions|
  {
    if actions == [] {
      assert [a][1..] == [] && actions + [a] == [a];
    } else {
      assert (actions + [a])[0] == actions[0] && (actions + [a])[1..] == actions[1..] + [a];
      RunSnoc(me, Step(me, s, actions[0]), actions[1..], a);
    }
  }

  /** The client's queue has grown by a frame that shows the list. */
  ghost predicate Queued<C>(s: State<C>, t: State<C>, c: C, me: string, time: string, list: seq<ChargePoint>) {
    && c in s.hub.conns && c in t.hub.conns
    && exists frame :: Shows(frame, me, time, list) && t.hub.conns[c].queue == s.hub.conns[c].queue + [frame]
  }

  lemma SentIsQueued<C>(s: State<C>, c: C, me: string, time: string, list: seq<ChargePoint>, source: Source)
    requires c in s.hub.conns && HubHistory.Stored(s.hub, me, c) && |s.hub.conns[c].queue| < 32
    ensures Queued(s, Sent(s, me, FrameOf(me, time, list), source), c, me, time, list)
  {
    HubHistory.PublishMeaning(s.hub, me, FrameOf(me, time, list), c);
    Payload.FrameShows(me, time, list);
  }

  /** Who gets what: a registered client of the user that is not 32 frames behind gets the list of a new
      connection. */
  lemma SnapshotIsQueued<C>(me: string, s: State<C>, c: C, list: seq<ChargePoint>, time: string)
    requires c in s.hub.conns && HubHistory.Stored(s.hub, me, c) && |s.hub.conns[c].queue| < 32
    ensures Queued(s, Step(me, s, SnapshotSent(list, time)), c, me, time, list)
  {
    SentIsQueued(s.(fetched := s.fetched + [list]), c, me, time, list, FromConnect);
  }

  /** It gets the empty list of a deletion. */
  lemma FarewellIsQueued<C>(me: string, s: State<C>, c: C, time: string)
    requires c in s.hub.conns && HubHistory.Stored(s.hub, me, c) && |s.hub.conns[c].queue| < 32
    ensures Queued(s, Step(me, s, UserDeleted(time)), c, me, time, [])
  {
    SentIsQueued(s, c, me, time, [], FromDeletion);
  }

  /** And it gets every list the subscriber shows. */
  lemma ShownIsQueued<C>(me: string, s: State<C>, c: C, t: Subscriber.State, time: string)
    requires c in s.hub.conns && HubHistory.Stored(s.hub, me, c) && |s.hub.conns[c].queue| < 32
    requires |t.shown| > |s.sub.shown|
    ensures var moved := s.(sub := t);
            var sent := Sent(moved, me, FrameOf(me, time, t.shown[|t.shown| - 1]), FromSubscriber);
            Queued(moved, sent, c, me, time, t.shown[|t.shown| - 1])
  {
    SentIsQueued(s.(sub := t), c, me, time, t.shown[|t.shown| - 1], FromSubscriber);
  }

  /** That is the whole effect of a subscriber's step on the hub. */
  lemma WithSubscriberIs<C>(me: string, s: State<C>, t: Subscriber.State, time: string)
    ensures WithSubscriber(me, s, t, time)
         == if |t.shown| > |s.sub.shown|
            then Sent(s.(sub := t), me, FrameOf(me, time, t.shown[|t.shown| - 1]), FromSubscriber)
            else s.(sub := t)
  {
  }

  /** Clients, and the payloads of other users, go through the hub as they are. */
  lemma HubGoesOn<C>(me: string, s: State<C>, c: C, user: string, payload: string)
    ensures forall a, time ::
      Step(me, s, SubscriberSteps(a, time)) == WithSubscriber(me, s, Subscriber.Step(s.sub, a), time)
    ensures Step(me, s, ClientConnects(c, user)).hub == Hub.Step(s.hub, Hub.Connects(c, user))
    ensures Step(me, s, ClientUnregisters(c)).hub == Hub.Step(s.hub, Hub.Unregisters(c))
    ensures Step(me, s, WriterTakes(c)).hub == Hub.Step(s.hub, Hub.Takes(c))
    ensures user != me ==>
      Step(me, s, OthersPublish(user, payload)).hub == Hub.Step(s.hub, Hub.Publishes(user, payload))
  {
  }

  // ----- where a frame comes from -----

  /** A client that decodes the frame sees the user and one of the lists. */
  ghost predicate ShowsOneOf(frame: string, user: string, lists: seq<seq<ChargePoint>>) {
    exists list, time :: list in lists && Shows(frame, user, time, list)
  }

  /** What the frame shows, by its source: a list that was live at the end of one of the subscriber's
      critical sections, a list fetched for a new connection, or the empty list of a deleted user. */
  ghost predicate ShowsBySource<C>(s: State<C>, me: string, frame: string, source: Source) {
    match source
    case FromSubscriber => ShowsOneOf(frame, me, s.sub.ends)
    case FromConnect => ShowsOneOf(frame, me, s.fetched)
    case FromDeletion => ShowsOneOf(frame, me, [[]])
    case ForOthers => false
  }

  ghost predicate Traced<C>(me: string, s: State<C>) {
    && |s.sources| == |s.hub.log|
    && forall i :: 0 <= i < |s.hub.log| && s.hub.log[i].user == me ==>
         ShowsBySource(s, me, s.hub.log[i].payload, s.sources[i])
  }

  ghost predicate Sound<C>(me: string, s: State<C>) {
    Traced(me, s) && Subscriber.ShownWasLive(s.sub) && Hub.Sound(s.hub)
  }

  lemma FrameShows(user: string, time: string, list: seq<ChargePoint>, lists: seq<seq<ChargePoint>>)
    requires list in lists
    ensures ShowsOneOf(FrameOf(user, time, list), user, lists)
  {
    Payload.FrameShows(user, time, list);
  }

  /** Lists are only ever added. */
  ghost predicate Grows<C>(s: State<C>, t: State<C>) {
    && (forall x :: x in s.sub.ends ==> x in t.sub.ends)
    && (forall x :: x in s.fetched ==> x in t.fetched)
  }

  lemma TracedMore<C>(me: string, s: State<C>, t: State<C>)
    requires Traced(me, s) && Grows(s, t) && t.hub.log == s.hub.log && t.sources == s.sources
    ensures Traced(me, t)
  {
  }

  lemma SentTraced<C>(me: string, s: State<C>, user: string, payload: string, source: Source)
    requires Traced(me, s) && (user == me ==> ShowsBySource(s, me, payload, source))
    ensures Traced(me, Sent(s, user, payload, source))
  {
  }

  /** A step of the subscriber shows at most one list more. */
  lemma ShowsAtMostOne(s: Subscriber.State, a: Subscriber.Action)
    ensures Subscriber.OneMoreShown(s.shown, Subscriber.Step(s, a).shown)
  {
    match a
    case Loop(l) => Subscriber.ShownByLoop(s, l);
    case Poll(n, p) => Subscriber.ShownByPoll(s, n, p);
  }

  lemma EndsGrow(s: Subscriber.State, a: Subscriber.Action)
    ensures forall x :: x in s.ends ==> x in Subscriber.Step(s, a).ends
  {
  }

  lemma SubscriberStepSound<C>(me: string, s: State<C>, a: Subscriber.Action, time: string)
    requires Sound(me, s)
    ensures Sound(me, Step(me, s, SubscriberSteps(a, time)))
  {
    Subscriber.ShownWasLiveStep(s.sub, a);
    EndsGrow(s.sub, a);
    WithSubscriberSound(me, s, Subscriber.Step(s.sub, a), time);
  }

  lemma WithSubscriberSound<C>(me: string, s: State<C>, t: Subscriber.State, time: string)
    requires Sound(me, s) && Subscriber.ShownWasLive(t) && forall x :: x in s.sub.ends ==> x in t.ends
    ensures Sound(me, WithSubscriber(me, s, t, time))
  {
    var moved := s.(sub := t);
    MovedSound(me, s, t);
    if |t.shown| > |s.sub.shown| {
      LastShownSound(me, moved, time);
      var frame := FrameOf(me, time, t.shown[|t.shown| - 1]);
      assert WithSubscriber(me, s, t, time) == Sent(moved, me, frame, FromSubscriber);
    } else {
      assert WithSubscriber(me, s, t, time) == moved;
    }
  }

  lemma MovedSound<C>(me: string, s: State<C>, t: Subscriber.State)
    requires Sound(me, s) && Subscriber.ShownWasLive(t) && forall x :: x in s.sub.ends ==> x in t.ends
    ensures Sound(me, s.(sub := t))
  {
  }

  lemma SentSound<C>(me: string, s: State<C>, frame: string, source: Source)
    requires Sound(me, s) && ShowsBySource(s, me, frame, source)
    ensures Sound(me, Sent(s, me, frame, source))
  {
    SentTraced(me, s, me, frame, source);
    Hub.PublishSound(s.hub, me, frame);
  }

  lemma LastShownSound<C>(me: string, s: State<C>, time: string)
    requires Sound(me, s) && s.sub.shown != []
    ensures Sound(me, Sent(s, me, FrameOf(me, time, s.sub.shown[|s.sub.shown| - 1]), FromSubscriber))
  {
    var list := s.sub.shown[|s.sub.shown| - 1];
    assert list in s.sub.ends;
    FrameShows(me, time, list, s.sub.ends);
    SentSound(me, s, FrameOf(me, time, list), FromSubscriber);
  }

  lemma SnapshotSound<C>(me: string, s: State<C>, list: seq<ChargePoint>, time: string)
    requires Sound(me, s)
    ensures Sound(me, Step(me, s, SnapshotSent(list, time)))
  {
    var t := s.(fetched := s.fetched + [list]);
    assert list == t.fetched[|s.fetched|];
    TracedMore(me, s, t);
    FrameShows(me, time, list, t.fetched);
    SentSound(me, t, FrameOf(me, time, list), FromConnect);
  }

  lemma DeletedSound<C>(me: string, s: State<C>, time: string)
    requires Sound(me, s)
    ensures Sound(me, Step(me, s, UserDeleted(time)))
  {
    DeletedShows(me, s, time);
    SentSound(me, s, FrameOf(me, time, []), FromDeletion);
  }

  lemma DeletedShows<C>(me: string, s: State<C>, time: string)
    ensures ShowsBySource(s, me, FrameOf(me, time, []), FromDeletion)
  {
    var empty: seq<ChargePoint> := [];
    assert empty in [empty];
    FrameShows(me, time, empty, [empty]);
  }

  lemma StepSound<C>(me: string, s: State<C>, a: Action<C>)
    requires Sound(me, s)
    ensures Sound(me, Step(me, s, a))
  {
    match a
    case SubscriberSteps(b, time) => SubscriberStepSound(me, s, b, time);
    case SnapshotSent(list, time) => SnapshotSound(me, s, list, time);
    case UserDeleted(time) => DeletedSound(me, s, time);
    case OthersPublish(user, payload) => if user != me { OthersSound(me, s, user, payload); }
    case ClientConnects(c, user) => ConnectSound(me, s, c, user);
    case ClientUnregisters(c) => RemoveSound(me, s, c);
    case WriterTakes(c) => TakeSound(me, s, c);
  }

  lemma ConnectSound<C>(me: string, s: State<C>, c: C, user: string)
    requires Sound(me, s)
    ensures Sound(me, Step(me, s, ClientConnects(c, user)))
  {
    Hub.ConnectSound(s.hub, c, user);
    HubMoves(me, s, Hub.Connect(s.hub, c, user));
  }

  lemma RemoveSound<C>(me: string, s: State<C>, c: C)
    requires Sound(me, s)
    ensures Sound(me, Step(me, s, ClientUnregisters(c)))
  {
    Hub.RemoveSound(s.hub, c);
    HubMoves(me, s, Hub.Remove(s.hub, c));
  }

  lemma TakeSound<C>(me: string, s: State<C>, c: C)
    requires Sound(me, s)
    ensures Sound(me, Step(me, s, WriterTakes(c)))
  {
    Hub.TakeSound(s.hub, c);
    HubMoves(me, s, Hub.Take(s.hub, c));
  }

  lemma OthersSound<C>(me: string, s: State<C>, user: string, payload: string)
    requires Sound(me, s) && user != me
    ensures Sound(me, Step(me, s, OthersPublish(user, payload)))
  {
    SentTraced(me, s, user, payload, ForOthers);
    Hub.PublishSound(s.hub, user, payload);
  }

  lemma HubMoves<C>(me: string, s: State<C>, h: Hub.State<C>)
    requires Sound(me, s) && Hub.Sound(h) && h.log == s.hub.log
    ensures Sound(me, s.(hub := h))
  {
    TracedMore(me, s, s.(hub := h));
  }

  lemma {:induction false} RunSound<C>(me: string, s: State<C>, actions: seq<Action<C>>)
    requires Sound(me, s)
    ensures Sound(me, Run(me, s, actions))
    decreases |actions|
  {
    if actions != [] {
      StepSound(me, s, actions[0]);
      RunSound(me, Step(me, s, actions[0]), actions[1..]);
    }
  }

  lemma InitSound<C>(me: string)
    ensures Sound<C>(me, Init())
  {
  }

  // ----- every list shown is published once, in order -----

  /** The payloads the subscriber had published. */
  function FromSub(log: seq<Hub.Published>, sources: seq<Source>): seq<string>
    requires |log| == |sources|
  {
    if log == [] then []
    else
      var n := |log| - 1;
      FromSub(log[..n], sources[..n]) + if sources[n].FromSubscriber? then [log[n].payload] else []
  }

  ghost predicate PrintedFrom(frame: string, user: string, list: seq<ChargePoint>) {
    exists time :: frame == FrameOf(user, time, list)
  }

  ghost predicate AllShownSent<C>(me: string, s: State<C>) {
    |s.sources| == |s.hub.log| && AllPrinted(FromSub(s.hub.log, s.sources), me, s.sub.shown)
  }

  ghost predicate AllPrinted(frames: seq<string>, user: string, lists: seq<seq<ChargePoint>>) {
    |frames| == |lists| && forall k :: 0 <= k < |frames| ==> PrintedFrom(frames[k], user, lists[k])
  }

  lemma PrintedMore(frames: seq<string>, user: string, lists: seq<seq<ChargePoint>>, frame: string,
                    more: seq<seq<ChargePoint>>)
    requires AllPrinted(frames, user, lists)
    requires |more| == |lists| + 1 && more[..|lists|] == lists && PrintedFrom(frame, user, more[|lists|])
    ensures AllPrinted(frames + [frame], user, more)
  {
    assert forall k :: 0 <= k < |lists| ==> more[k] == more[..|lists|][k];
  }

  lemma SentAppends<C>(s: State<C>, user: string, payload: string, source: Source)
    requires |s.sources| == |s.hub.log|
    ensures var t := Sent(s, user, payload, source);
            && |t.sources| == |t.hub.log|
            && FromSub(t.hub.log, t.sources)
                 == FromSub(s.hub.log, s.sources) + if source.FromSubscriber? then [payload] else []
  {
    var t := Sent(s, user, payload, source);
    assert t.hub.log[..|s.hub.log|] == s.hub.log && t.sources[..|s.sources|] == s.sources;
  }

  lemma WithSubscriberSent<C>(me: string, s: State<C>, t: Subscriber.State, time: string)
    requires AllShownSent(me, s)
    requires Subscriber.OneMoreShown(s.sub.shown, t.shown)
    ensures AllShownSent(me, WithSubscriber(me, s, t, time))
  {
    if |t.shown| > |s.sub.shown| {
      var frame := FrameOf(me, time, t.shown[|t.shown| - 1]);
      SentAppends(s.(sub := t), me, frame, FromSubscriber);
      assert PrintedFrom(frame, me, t.shown[|t.shown| - 1]);
      PrintedMore(FromSub(s.hub.log, s.sources), me, s.sub.shown, frame, t.shown);
    }
  }

  lemma StepSent<C>(me: string, s: State<C>, a: Action<C>)
    requires AllShownSent(me, s)
    ensures AllShownSent(me, Step(me, s, a))
  {
    match a
    case SubscriberSteps(b, time) =>
      ShowsAtMostOne(s.sub, b);
      WithSubscriberSent(me, s, Subscriber.Step(s.sub, b), time);
    case SnapshotSent(list, time) =>
      SentAppends(s.(fetched := s.fetched + [list]), me, FrameOf(me, time, list), FromConnect);
    case UserDeleted(time) => SentAppends(s, me, FrameOf(me, time, []), FromDeletion);
    case OthersPublish(user, payload) => SentAppends(s, user, payload, ForOthers);
    case _ =>
  }

  lemma {:induction false} RunSent<C>(me: string, s: State<C>, actions: seq<Action<C>>)
    requires AllShownSent(me, s)
    ensures AllShownSent(me, Run(me, s, actions))
    decreases |actions|
  {
    if actions != [] {
      StepSent(me, s, actions[0]);
      RunSent(me, Step(me, s, actions[0]), actions[1..]);
    }
  }

  /** In every run the frames the subscriber had published are those of the lists it showed, each once and
      in their order. */
  lemma ShownListsAreSentOnce<C>(me: string, actions: seq<Action<C>>)
    ensures AllShownSent(me, Run(me, Init<C>(), actions))
  {
    RunSent<C>(me, Init(), actions);
  }

  // ----- what clients see -----

  ghost predicate Ascending(at: seq<nat>) {
    forall j, k :: 0 <= j < k < |at| ==> at[j] < at[k]
  }

  /** Where the frames of a subsequence stand in the log. */
  lemma {:induction false} Positions(frames: seq<string>, log: seq<Hub.Published>, user: string) returns (at: seq<nat>)
    requires Hub.Subsequence(frames, Hub.PublishedTo(log, user))
    ensures |at| == |frames| && Ascending(at)
    ensures forall k :: 0 <= k < |at| ==> at[k] < |log| && log[at[k]] == Hub.Published(user, frames[k])
    decreases |log|
  {
    if log == [] || frames == [] {
      at := [];
    } else {
      var front, last := log[..|log| - 1], log[|log| - 1];
      var pubs := Hub.PublishedTo(front, user);
      if last.user != user {
        at := Positions(frames, front, user);
      } else {
        assert (pubs + [last.payload])[..|pubs|] == pubs;
        if Hub.Subsequence(frames, pubs) {
          at := Positions(frames, front, user);
        } else {
          at := Positions(frames[..|frames| - 1], front, user);
          at := at + [|log| - 1];
        }
      }
    }
  }

  /** The received frames stand at these places of the log. */
  ghost predicate Placed(log: seq<Hub.Published>, x: Hub.Conn, at: seq<nat>) {
    && |at| == |x.taken + x.queue| && Ascending(at)
    && (forall k :: 0 <= k < |at| ==>
          && x.since <= at[k] < |log| && (x.until.Some? ==> at[k] < x.until.value)
          && log[at[k]] == Hub.Published(x.user, (x.taken + x.queue)[k]))
  }

  lemma Places(log: seq<Hub.Published>, x: Hub.Conn) returns (at: seq<nat>)
    requires Hub.ClientSound(log, x)
    ensures Placed(log, x, at)
  {
    var window := log[x.since..if x.until.Some? then x.until.value else |log|];
    var inWindow := Positions(x.taken + x.queue, window, x.user);
    at := seq(|inWindow|, k requires 0 <= k < |inWindow| => x.since + inWindow[k]);
    forall k | 0 <= k < |at| ensures log[at[k]] == Hub.Published(x.user, (x.taken + x.queue)[k]) {
      assert log[x.since + inWindow[k]] == window[inWindow[k]];
    }
  }

  /** In every run of the whole system, the frames a client of the user has taken or has queued are frames
      published to that user while it was registered, at ascending places of the log; and each decodes to
      a list that, if the subscriber published it, was live at the end of one of its critical sections, and
      otherwise was fetched for a new connection or is the empty list of the deleted user. */
  lemma ClientsSeeLiveLists<C>(me: string, actions: seq<Action<C>>, c: C) returns (at: seq<nat>)
    requires var h := Run(me, Init<C>(), actions).hub; c in h.conns && h.conns[c].user == me
    ensures var s := Run(me, Init<C>(), actions);
            var x := s.hub.conns[c];
            && Placed(s.hub.log, x, at) && |s.sources| == |s.hub.log|
            && (forall k :: 0 <= k < |at| ==> ShowsBySource(s, me, (x.taken + x.queue)[k], s.sources[at[k]]))
  {
    InitSound<C>(me);
    RunSound<C>(me, Init(), actions);
    at := SoundPlaces(me, Run(me, Init<C>(), actions), c);
  }

  lemma SoundPlaces<C>(me: string, s: State<C>, c: C) returns (at: seq<nat>)
    requires Sound(me, s) && c in s.hub.conns && s.hub.conns[c].user == me
    ensures var x := s.hub.conns[c];
            && Placed(s.hub.log, x, at)
            && (forall k :: 0 <= k < |at| ==> ShowsBySource(s, me, (x.taken + x.queue)[k], s.sources[at[k]]))
  {
    at := Places(s.hub.log, s.hub.conns[c]);
  }
}
