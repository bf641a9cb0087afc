/** The supervisor of the per-user loops: it compares the listed users with the running loops, cancels
    the loops of users that are gone and starts one for every new user. */
module Reconciler {
  type UserId = string

  // ----- the table of loops -----

  /** Loops are numbered in the order in which they start; `owner` gives the user of each, `runs` the
      loop the supervisor holds for a user, `cancelled` the loops whose context it has cancelled. */
  datatype Table = Table(runs: map<UserId, nat>, owner: seq<UserId>, cancelled: set<nat>)

  function CancelGone(t: Table, want: set<UserId>): Table {
    t.(cancelled := t.cancelled + (set u | u in t.runs && u !in want :: t.runs[u]),
       runs := map u | u in t.runs && u in want :: t.runs[u])
  }

  function StartOne(t: Table, u: UserId): Table {
    if u in t.runs then t else t.(runs := t.runs[u := |t.owner|], owner := t.owner + [u])
  }

  function StartMissing(t: Table, users: seq<UserId>): Table {
    if users == [] then t else StartOne(StartMissing(t, users[..|users| - 1]), users[|users| - 1])
  }

  function Elements(users: seq<UserId>): set<UserId> {
    set u | u in users
  }

  /** A reconciliation with the listed users, in the order in which new loops are started. */
  function Reconciled(t: Table, users: seq<UserId>): Table {
    StartMissing(CancelGone(t, Elements(users)), users)
  }

  function CancelAll(t: Table): Table {
    t.(cancelled := t.cancelled + (set u | u in t.runs :: t.runs[u]))
  }

  /** The uncancelled loops are exactly those in the table, each under its own user. */
  ghost predicate Exact(t: Table) {
    && (forall u :: u in t.runs ==> t.runs[u] < |t.owner| && t.owner[t.runs[u]] == u && t.runs[u] !in t.cancelled)
    && (forall n :: 0 <= n < |t.owner| && n !in t.cancelled ==> t.owner[n] in t.runs && t.runs[t.owner[n]] == n)
    && (forall n :: n in t.cancelled ==> n < |t.owner|)
  }

  /** r is t with a new uncancelled loop for every user of `more` that had none. */
  ghost predicate Grown(t: Table, r: Table, more: set<UserId>) {
    && r.runs.Keys == t.runs.Keys + more && r.cancelled == t.cancelled && |t.owner| <= |r.owner|
    && (forall u :: u in t.runs ==> r.runs[u] == t.runs[u])
    && (forall u :: u in r.runs && u !in t.runs ==> r.runs[u] >= |t.owner|)
  }

  lemma GrownTwice(t: Table, s: Table, r: Table, first: set<UserId>, second: set<UserId>)
    requires Grown(t, s, first) && Grown(s, r, second)
    ensures Grown(t, r, first + second)
  {
  }

  lemma StartOneExact(t: Table, u: UserId)
    requires Exact(t)
    ensures Exact(StartOne(t, u)) && Grown(t, StartOne(t, u), {u})
  {
  }

  lemma {:induction false} StartMissingExact(t: Table, users: seq<UserId>)
    requires Exact(t)
    ensures Exact(StartMissing(t, users)) && Grown(t, StartMissing(t, users), Elements(users))
  {
    if users == [] {
      assert Elements(users) == {};
    } else {
      var front, last := users[..|users| - 1], users[|users| - 1];
      StartMissingExact(t, front);
      var middle := StartMissing(t, front);
      StartOneExact(middle, last);
      GrownTwice(t, middle, StartOne(middle, last), Elements(front), {last});
    }
  }

  /** After a reconciliation the table has exactly the listed users; users listed before and after keep
      their loop, loops of users no longer listed are cancelled and no others. */
  lemma ReconciledMeaning(t: Table, users: seq<UserId>)
    requires Exact(t)
    ensures var r := Reconciled(t, users);
            && Exact(r)
            && r.runs.Keys == Elements(users)
            && (forall u :: u in users && u in t.runs ==> r.runs[u] == t.runs[u])
            && (forall u :: u in users && u !in t.runs ==> r.runs[u] >= |t.owner|)
            && (forall n :: n in r.cancelled <==>
                  n in t.cancelled || exists u :: u in t.runs && u !in users && n == t.runs[u])
  {
    var want := Elements(users);
    StartMissingExact(CancelGone(t, want), users);
  }

  /** No user ever has two uncancelled loops. */
  lemma AtMostOneLoop(t: Table, m: nat, n: nat)
    requires Exact(t) && m < |t.owner| && n < |t.owner|
    requires m !in t.cancelled && n !in t.cancelled && t.owner[m] == t.owner[n]
    ensures m == n
  {
  }

  // ----- all runs -----

  /** `parentDone`: the context of the supervisor itself is cancelled, and with it that of every loop;
      `stopped`: the supervisor has returned; `exited`: the loops that have returned. */
  datatype State = State(table: Table, exited: set<nat>, parentDone: bool, stopped: bool)

  datatype Action =
    | ListFailed
    | Listed(users: seq<UserId>)
    | LoopReturned(n: nat)
    | ParentCancelled
    | ShutDown

  function Init(): State {
    State(Table(map[], [], {}), {}, false, false)
  }

  /** A loop returns only once its context is cancelled; an impossible action changes nothing. */
  function Step(s: State, a: Action): State {
    match a
    case ListFailed => s
    case Listed(users) => if s.stopped then s else s.(table := Reconciled(s.table, users))
    case LoopReturned(n) =>
      if n < |s.table.owner| && (s.parentDone || n in s.table.cancelled) then s.(exited := s.exited + {n}) else s
    case ParentCancelled => s.(parentDone := true)
    case ShutDown => if s.parentDone && !s.stopped then s.(table := CancelAll(s.table), stopped := true) else s
  }

  function Run(s: State, actions: seq<Action>): State
    decreases |actions|
  {
    if actions == [] then s else Run(Step(s, actions[0]), actions[1..])
  }

  ghost predicate Sound(s: State) {
    && (!s.stopped ==> Exact(s.table))
    && (s.stopped ==> s.parentDone && forall n :: 0 <= n < |s.table.owner| ==> n in s.table.cancelled)
    && (forall n :: n in s.exited ==> n < |s.table.owner| && (s.parentDone || n in s.table.cancelled))
  }

  lemma SoundStep(s: State, a: Action)
    requires Sound(s)
    ensures Sound(Step(s, a))
  {
    if a.Listed? && !s.stopped {
      ReconciledMeaning(s.table, a.users);
      ReconciledGrows(s.table, a.users);
    }
  }

  lemma ReconciledGrows(t: Table, users: seq<UserId>)
    requires Exact(t)
    ensures |t.owner| <= |Reconciled(t, users).owner| && t.cancelled <= Reconciled(t, users).cancelled
  {
    StartMissingExact(CancelGone(t, Elements(users)), users);
  }

  lemma {:induction false} SoundRun(s: State, actions: seq<Action>)
    requires Sound(s)
    ensures Sound(Run(s, actions))
    decreases |actions|
  {
    if actions != [] {
      SoundStep(s, actions[0]);
      SoundRun(Step(s, actions[0]), actions[1..]);
    }
  }

  /** In every run, until shutdown, the table holds for each of its users a loop of that user, and those
      are the uncancelled loops, all of them; until the supervisor itself is cancelled none of them has
      returned.  After shutdown every loop ever started is cancelled. */
  lemma EveryRun(actions: seq<Action>)
    ensures var s := Run(Init(), actions);
            && (!s.stopped ==> Exact(s.table))
            && (!s.parentDone ==> forall u :: u in s.table.runs ==> s.table.runs[u] !in s.exited)
            && (s.stopped ==> forall n :: 0 <= n < |s.table.owner| ==> n in s.table.cancelled)
  {
    SoundRun(Init(), actions);
  }

  lemma {:induction false} RunSnoc(s: State, actions: seq<Action>, a: Action)
    ensures Run(s, actions + [a]) == Step(Run(s, actions), a)
    decreases |actions|
  {
    if actions == [] {
      assert [a][1..] == [] && actions + [a] == [a];
    } else {
      assert (actions + [a])[0] == actions[0] && (actions + [a])[1..] == actions[1..] + [a];
      RunSnoc(Step(s, actions[0]), actions[1..], a);
    }
  }

  /** In every run, right after the users have been listed the table has exactly those users.  A user
      listed before and after keeps the loop, which is still running; every other user gets a new one;
      exactly the loops of users no longer listed have been cancelled. */
  lemma ListedInEveryRun(actions: seq<Action>, users: seq<UserId>)
    requires !Run(Init(), actions).stopped
    ensures var (s, t) := (Run(Init(), actions).table, Run(Init(), actions + [Listed(users)]).table);
            && t.runs.Keys == Elements(users)
            && (forall u :: u in users ==>
                  t.runs[u] < |t.owner| && t.owner[t.runs[u]] == u && t.runs[u] !in t.cancelled)
            && (forall u :: u in users && u in s.runs ==> t.runs[u] == s.runs[u])
            && (forall u :: u in users && u !in s.runs ==> t.runs[u] >= |s.owner|)
            && (forall n :: n in t.cancelled <==>
                  n in s.cancelled || exists u :: u in s.runs && u !in users && n == s.runs[u])
  {
    SoundRun(Init(), actions);
    RunSnoc(Init(), actions, Listed(users));
    ReconciledMeaning(Run(Init(), actions).table, users);
  }

  /** Shutdown: the supervisor's own cancellation lets every loop return; the supervisor then cancels the
      loops it holds, and starts none afterwards. */
  lemma ShutDownInEveryRun(actions: seq<Action>, users: seq<UserId>, n: nat)
    ensures var s := Run(Init(), actions);
            var t := Run(Init(), actions + [ParentCancelled]);
            var u := Run(Init(), actions + [ParentCancelled] + [ShutDown]);
            && t.parentDone && t.table == s.table && t.exited == s.exited
            && u.stopped && u.table.runs == s.table.runs && u.table.owner == s.table.owner
            && (forall k :: 0 <= k < |u.table.owner| ==> k in u.table.cancelled)
            && Step(u, Listed(users)) == u
            && (n < |s.table.owner| ==>
                  n in Step(t, LoopReturned(n)).exited && Step(t, LoopReturned(n)).table == s.table)
  {
    RunSnoc(Init(), actions, ParentCancelled);
    RunSnoc(Init(), actions + [ParentCancelled], ShutDown);
    SoundRun(Init(), actions + [ParentCancelled] + [ShutDown]);
    SoundRun(Init(), actions);
  }

  /** A cancelled loop can return, an uncancelled one cannot as long as the supervisor runs; a failed listing
      changes nothing. */
  lemma LoopReturnsIff(s: State, n: nat)
    requires n !in s.exited && n < |s.table.owner|
    ensures n in Step(s, LoopReturned(n)).exited <==> s.parentDone || n in s.table.cancelled
    ensures Step(s, ListFailed) == s
    ensures !s.parentDone ==> Step(s, ShutDown) == s
  {
  }

  // ----- the supervisor -----

  class Context {
    ghost const id: nat
    const owner: UserId
    var cancelled: bool

    constructor (ghost id: nat, owner: UserId)
      ensures this.id == id && this.owner == owner && !cancelled
    {
      this.id := id;
      this.owner, cancelled := owner, false;
    }

    method Cancel()
      modifies this
      ensures cancelled
    {
      cancelled := true;
    }
  }

  function Owners(contexts: seq<Context>): (r: seq<UserId>)
    ensures |r| == |contexts| && forall i :: 0 <= i < |r| ==> r[i] == contexts[i].owner
  {
    seq(|contexts|, i requires 0 <= i < |contexts| => contexts[i].owner)
  }

  ghost function Ids(runs: map<UserId, Context>): map<UserId, nat> {
    map u | u in runs :: runs[u].id
  }

  ghost function CancelledOf(contexts: seq<Context>): set<nat>
    reads contexts
  {
    set i | 0 <= i < |contexts| && contexts[i].cancelled
  }

  /** One more loop, uncancelled. */
  lemma OneMore(runs: map<UserId, Context>, contexts: seq<Context>, u: UserId, c: Context)
    requires !c.cancelled && c.owner == u
    ensures Ids(runs[u := c]) == Ids(runs)[u := c.id]
    ensures Owners(contexts + [c]) == Owners(contexts) + [u]
    ensures CancelledOf(contexts + [c]) == CancelledOf(contexts)
  {
  }

  function DropOne(t: Table, u: UserId): Table
    requires u in t.runs
  {
    t.(runs := t.runs - {u}, cancelled := t.cancelled + {t.runs[u]})
  }

  /** One user looked at: dropped unless wanted. */
  lemma DropStep(t: Table, want: set<UserId>, left: set<UserId>, u: UserId)
    requires u in left && u in t.runs
    ensures var now := CancelGone(t, want + left);
            && u in now.runs
            && CancelGone(t, want + (left - {u})) == if u in want then now else DropOne(now, u)
  {
  }

  class Supervisor {
    var runs: map<UserId, Context>
    ghost var started: seq<Context>

    ghost predicate Valid()
      reads this
    {
      && (forall i :: 0 <= i < |started| ==> started[i].id == i)
      && (forall u :: u in runs ==> runs[u].id < |started| && started[runs[u].id] == runs[u])
    }

    /** The table the supervisor's objects stand for. */
    ghost function Value(): Table
      requires Valid()
      reads this, started
    {
      Table(Ids(runs), Owners(started), CancelledOf(started))
    }

    constructor ()
      ensures Valid() && Value() == Table(map[], [], {})
    {
      runs := map[];
      started := [];
    }

    method Drop(u: UserId)
      requires Valid() && u in runs
      modifies `runs, runs[u]
      ensures Valid() && Value() == DropOne(old(Value()), u) && runs == old(runs) - {u}
    {
      runs[u].Cancel();
      runs := runs - {u};
      assert Value().cancelled == old(Value()).cancelled + {old(runs[u].id)};
      assert Value().runs == old(Value()).runs - {u};
    }

    method Start(u: UserId)
      requires Valid()
      modifies this
      ensures Valid() && Value() == StartOne(old(Value()), u)
    {
      if u !in runs {
        var c := new Context(|started|, u);
        OneMore(runs, started, u, c);
        runs := runs[u := c];
        started := started + [c];
        assert CancelledOf(started) == old(CancelledOf(started));
      }
    }

    /** The supervisor's critical section for the users just listed: it cancels and drops the loops of
        users that are gone, then starts the missing ones, in the order in which the set is iterated. */
    method Reconcile(ids: seq<UserId>) returns (ghost order: seq<UserId>)
      requires Valid()
      modifies this, started
      ensures Valid() && Elements(order) == Elements(ids) && Value() == Reconciled(old(Value()), order)
    {
      var want := Elements(ids);
      DropGone(want);
      order := StartAll(want);
    }

    method DropGone(want: set<UserId>)
      requires Valid()
      modifies `runs, started
      ensures Valid() && Value() == CancelGone(old(Value()), want)
    {
      ghost var before := Value();
      var left := runs.Keys;
      while left != {}
        invariant Valid() && left <= runs.Keys && left <= before.runs.Keys
        invariant Value() == CancelGone(before, want + left)
        decreases left
      {
        var u :| u in left;
        DropStep(before, want, left, u);
        if u !in want {
          Drop(u);
        }
        left := left - {u};
      }
      assert want + left == want;
    }

    method StartAll(want: set<UserId>) returns (ghost order: seq<UserId>)
      requires Valid()
      modifies this
      ensures Valid() && Elements(order) == want && Value() == StartMissing(old(Value()), order)
    {
      order := [];
      var left := want;
      ghost var before := Value();
      while left != {}
        invariant Valid() && Elements(order) + left == want
        invariant Value() == StartMissing(before, order)
        decreases left
      {
        var u :| u in left;
        Start(u);
        left := left - {u};
        ghost var next := order + [u];
        assert next[..|next| - 1] == order && Elements(next) == Elements(order) + {u};
        order := next;
      }
    }

    /** On shutdown every remaining loop is cancelled. */
    method ShutDownAll()
      requires Valid()
      modifies started
      ensures Valid() && Value() == CancelAll(old(Value()))
    {
      ghost var before := Value();
      var left := runs.Keys;
      while left != {}
        invariant Valid() && left <= runs.Keys
        invariant forall i :: 0 <= i < |started| ==>
          (started[i].cancelled <==> i in before.cancelled || exists u :: u in runs.Keys - left && runs[u].id == i)
        decreases left
      {
        var u :| u in left;
        runs[u].Cancel();
        left := left - {u};
      }
      forall n ensures n in Value().cancelled <==> n in CancelAll(before).cancelled {
        assert forall u :: u in runs ==> before.runs[u] == runs[u].id;
      }
    }
  }
}
