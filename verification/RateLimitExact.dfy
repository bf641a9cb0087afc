/** Which requests the limiter admits, told by the times of the requests admitted before. */
module RateLimitExact {
  import opened RateLimit

  /** One more request fits: in every window that ends now, the requests admitted so far and this one are no
      more than the burst and what flows in during the window. */
  ghost predicate Fits(cfg: Config, acts: seq<Action>, answers: seq<bool>, ip: string, at: real) {
    forall w :: 0.0 <= w <= at ==> FitsSince(cfg, acts, answers, ip, w, at)
  }

  predicate FitsSince(cfg: Config, acts: seq<Action>, answers: seq<bool>, ip: string, w: real, at: real) {
    Admitted(acts, answers, ip, w, at) as real + 1.0 <= cfg.burst as real + cfg.rate * (at - w)
  }

  // ----- the limiter that never forgets, from its end -----

  function After(cfg: Config, r: Buckets, acts: seq<Action>): Buckets
    decreases |acts|
  {
    if acts == [] then r
    else
      match acts[0]
      case Clean(_) => After(cfg, r, acts[1..])
      case Ask(ip, at) => After(cfg, Remember(cfg, r, ip, at).0, acts[1..])
  }

  function LastAnswer(cfg: Config, r: Buckets, a: Action): seq<bool> {
    match a
    case Clean(_) => []
    case Ask(ip, at) => [Remember(cfg, r, ip, at).1]
  }

  lemma {:induction false} AnswersSnoc(cfg: Config, r: Buckets, acts: seq<Action>, a: Action)
    ensures RememberedAnswers(cfg, r, acts + [a])
         == RememberedAnswers(cfg, r, acts) + LastAnswer(cfg, After(cfg, r, acts), a)
    ensures After(cfg, r, acts + [a])
         == match a
            case Clean(_) => After(cfg, r, acts)
            case Ask(ip, at) => Remember(cfg, After(cfg, r, acts), ip, at).0
    decreases |acts|
  {
    if acts == [] {
      assert acts + [a] == [a] && [a][1..] == [];
    } else {
      assert (acts + [a])[0] == acts[0] && (acts + [a])[1..] == acts[1..] + [a];
      AnswersSnoc(cfg, if acts[0].Clean? then r else Remember(cfg, r, acts[0].ip, acts[0].at).0, acts[1..], a);
    }
  }

  function Asks(acts: seq<Action>): nat {
    if acts == [] then 0 else (if acts[0].Ask? then 1 else 0) + Asks(acts[1..])
  }

  lemma {:induction false} OneAnswerEach(cfg: Config, r: Buckets, acts: seq<Action>)
    ensures |RememberedAnswers(cfg, r, acts)| == Asks(acts)
    decreases |acts|
  {
    if acts != [] {
      OneAnswerEach(cfg, if acts[0].Clean? then r else Remember(cfg, r, acts[0].ip, acts[0].at).0, acts[1..]);
    }
  }

  lemma {:induction false} AdmittedSnoc(acts: seq<Action>, answers: seq<bool>, a: Action, ok: bool, ip: string,
                                        from: real, until: real)
    requires |answers| == Asks(acts)
    ensures Admitted(acts + [a], answers + (if a.Ask? then [ok] else []), ip, from, until)
         == Admitted(acts, answers, ip, from, until)
            + (if a.Ask? && a.ip == ip && from <= a.at <= until && ok then 1 else 0)
    decreases |acts|
  {
    var all, more := acts + [a], answers + (if a.Ask? then [ok] else []);
    if acts == [] {
      assert all == [a] && [a][1..] == [] && answers == [];
      if a.Ask? { assert more == [ok] && [ok][1..] == []; }
    } else {
      assert all[0] == acts[0] && all[1..] == acts[1..] + [a];
      if acts[0].Ask? {
        assert more[0] == answers[0] && more[1..] == answers[1..] + (if a.Ask? then [ok] else []);
        AdmittedSnoc(acts[1..], answers[1..], a, ok, ip, from, until);
      } else {
        AdmittedSnoc(acts[1..], answers, a, ok, ip, from, until);
      }
    }
  }

  lemma {:induction false} OrderedPrefix(now: real, acts: seq<Action>, a: Action)
    requires Ordered(now, acts + [a])
    ensures Ordered(now, acts) && forall k :: 0 <= k < |acts| ==> acts[k].at <= a.at
    ensures now <= a.at
    decreases |acts|
  {
    var all := acts + [a];
    if acts != [] {
      assert all[0] == acts[0] && all[1..] == acts[1..] + [a];
      OrderedPrefix(acts[0].at, acts[1..], a);
    } else {
      assert all[0] == a;
    }
  }

  // ----- the level of a bucket is its tightest window -----

  /** No window leaves less room than the bucket holds, and some window leaves just that. */
  ghost predicate Tight(cfg: Config, acts: seq<Action>, answers: seq<bool>, ip: string, b: Bucket, t: real) {
    && (forall w :: 0.0 <= w <= t ==> RoomIn(cfg, acts, answers, ip, w, t) >= Level(cfg, b, t))
    && (exists w :: 0.0 <= w <= t && RoomIn(cfg, acts, answers, ip, w, t) == Level(cfg, b, t))
  }

  /** What a window leaves room for. */
  function RoomIn(cfg: Config, acts: seq<Action>, answers: seq<bool>, ip: string, w: real, t: real): real {
    cfg.burst as real + cfg.rate * (t - w) - Admitted(acts, answers, ip, w, t) as real
  }

  ghost predicate TightFrom(cfg: Config, acts: seq<Action>, answers: seq<bool>, r: Buckets, ip: string, now: real) {
    forall t :: t >= now ==> Tight(cfg, acts, answers, ip, BucketOf(cfg, r, ip, t), t)
  }

  lemma FitsIff(cfg: Config, acts: seq<Action>, answers: seq<bool>, ip: string, b: Bucket, t: real)
    requires Tight(cfg, acts, answers, ip, b, t)
    ensures Fits(cfg, acts, answers, ip, t) <==> Level(cfg, b, t) >= 1.0
  {
    forall w ensures FitsSince(cfg, acts, answers, ip, w, t) <==> RoomIn(cfg, acts, answers, ip, w, t) >= 1.0 {
    }
    if Level(cfg, b, t) < 1.0 {
      var w :| 0.0 <= w <= t && RoomIn(cfg, acts, answers, ip, w, t) == Level(cfg, b, t);
      assert !FitsSince(cfg, acts, answers, ip, w, t);
    }
  }

  /** Later ends of the window see the same admitted requests. */
  lemma {:induction false} SameCount(acts: seq<Action>, answers: seq<bool>, ip: string, w: real, s: real, t: real)
    requires s <= t && forall k :: 0 <= k < |acts| ==> acts[k].at <= s
    ensures Admitted(acts, answers, ip, w, t) == Admitted(acts, answers, ip, w, s)
    decreases |acts|
  {
    if acts != [] && answers != [] {
      forall k | 0 <= k < |acts| - 1 ensures acts[1..][k].at <= s { assert acts[1..][k] == acts[k + 1]; }
      SameCount(acts[1..], if acts[0].Clean? then answers else answers[1..], ip, w, s, t);
    }
  }

  lemma {:induction false} NoneSince(acts: seq<Action>, answers: seq<bool>, ip: string, w: real, t: real)
    requires forall k :: 0 <= k < |acts| ==> acts[k].at < w
    ensures Admitted(acts, answers, ip, w, t) == 0
    decreases |acts|
  {
    if acts != [] && answers != [] {
      forall k | 0 <= k < |acts| - 1 ensures acts[1..][k].at < w { assert acts[1..][k] == acts[k + 1]; }
      NoneSince(acts[1..], if acts[0].Clean? then answers else answers[1..], ip, w, t);
    }
  }

  /** The room of a window that began before s, at a later end. */
  lemma RoomLater(cfg: Config, acts: seq<Action>, answers: seq<bool>, ip: string, w: real, s: real, t: real)
    requires s <= t && forall k :: 0 <= k < |acts| ==> acts[k].at <= s
    ensures RoomIn(cfg, acts, answers, ip, w, t) == RoomIn(cfg, acts, answers, ip, w, s) + cfg.rate * (t - s)
  {
    SameCount(acts, answers, ip, w, s, t);
    Spread(cfg.rate, w, s, t);
  }

  /** The room of a window that began after everything. */
  lemma RoomFresh(cfg: Config, acts: seq<Action>, answers: seq<bool>, ip: string, w: real, t: real)
    requires forall k :: 0 <= k < |acts| ==> acts[k].at < w
    ensures RoomIn(cfg, acts, answers, ip, w, t) == cfg.burst as real + cfg.rate * (t - w)
  {
    NoneSince(acts, answers, ip, w, t);
  }

  /** An admitted request takes one from every window that has begun. */
  lemma TightAdmitted(cfg: Config, acts: seq<Action>, answers: seq<bool>, ip: string, b: Bucket, at: real, t: real)
    requires cfg.rate >= 0.0 && 0.0 <= at <= t && |answers| == Asks(acts)
    requires forall k :: 0 <= k < |acts| ==> acts[k].at <= at
    requires Tight(cfg, acts, answers, ip, b, at)
    ensures Tight(cfg, acts + [Ask(ip, at)], answers + [true], ip, Bucket(Level(cfg, b, at) - 1.0, at), t)
  {
    var level := Level(cfg, b, at);
    var all, more, c := acts + [Ask(ip, at)], answers + [true], Bucket(level - 1.0, at);
    var inflow := cfg.rate * (t - at);
    LevelAfter(cfg, level - 1.0, at, t);
    forall w | 0.0 <= w <= t ensures RoomIn(cfg, all, more, ip, w, t) >= Level(cfg, c, t) {
      AdmittedRoom(cfg, acts, answers, ip, at, w, t);
      assert w <= at ==> RoomIn(cfg, acts, answers, ip, w, at) >= level;
    }
    var w: real;
    if level - 1.0 + inflow <= cfg.burst as real {
      w :| 0.0 <= w <= at && RoomIn(cfg, acts, answers, ip, w, at) == level;
      AdmittedRoom(cfg, acts, answers, ip, at, w, t);
    } else {
      w := t;
      LevelAtMost(cfg, b, at);
      assert at < t by { assert t == at ==> inflow == 0.0; }
      RoomFresh(cfg, all, more, ip, t, t);
    }
    assert RoomIn(cfg, all, more, ip, w, t) == Level(cfg, c, t);
  }

  lemma LevelAfter(cfg: Config, tokens: real, at: real, t: real)
    requires at <= t
    ensures Level(cfg, Bucket(tokens, at), t) == Min(cfg.burst as real, tokens + cfg.rate * (t - at))
  {
  }

  lemma LevelAtMost(cfg: Config, b: Bucket, t: real)
    ensures Level(cfg, b, t) <= cfg.burst as real
  {
  }

  /** What one more admitted request leaves of a window. */
  lemma AdmittedRoom(cfg: Config, acts: seq<Action>, answers: seq<bool>, ip: string, at: real, w: real, t: real)
    requires cfg.rate >= 0.0 && at <= t && w <= t && |answers| == Asks(acts)
    requires forall k :: 0 <= k < |acts| ==> acts[k].at <= at
    ensures var room := RoomIn(cfg, acts + [Ask(ip, at)], answers + [true], ip, w, t);
            if w <= at then room == RoomIn(cfg, acts, answers, ip, w, at) - 1.0 + cfg.rate * (t - at)
            else room >= cfg.burst as real
  {
    if w <= at {
      RoomOneLess(cfg, acts, answers, ip, at, w, t);
      RoomLater(cfg, acts, answers, ip, w, at, t);
    } else {
      RoomFresh(cfg, acts + [Ask(ip, at)], answers + [true], ip, w, t);
      NonNegative(cfg.rate, t - w);
    }
  }

  lemma RoomOneLess(cfg: Config, acts: seq<Action>, answers: seq<bool>, ip: string, at: real, w: real, t: real)
    requires w <= at <= t && |answers| == Asks(acts)
    ensures RoomIn(cfg, acts + [Ask(ip, at)], answers + [true], ip, w, t) == RoomIn(cfg, acts, answers, ip, w, t) - 1.0
  {
    AdmittedSnoc(acts, answers, Ask(ip, at), true, ip, w, t);
    var n := Admitted(acts, answers, ip, w, t);
    assert (n + 1) as real == n as real + 1.0;
  }

  /** A request of another address, or a rejected one, changes no window. */
  lemma TightOther(cfg: Config, acts: seq<Action>, answers: seq<bool>, a: Action, ok: bool, ip: string, b: Bucket,
                   t: real)
    requires |answers| == Asks(acts) && Tight(cfg, acts, answers, ip, b, t)
    requires a.Ask? ==> a.ip != ip || !ok
    ensures Tight(cfg, acts + [a], answers + (if a.Ask? then [ok] else []), ip, b, t)
  {
    var all, more := acts + [a], answers + (if a.Ask? then [ok] else []);
    forall w ensures RoomIn(cfg, all, more, ip, w, t) == RoomIn(cfg, acts, answers, ip, w, t) {
      AdmittedSnoc(acts, answers, a, ok, ip, w, t);
    }
    var w :| 0.0 <= w <= t && RoomIn(cfg, acts, answers, ip, w, t) == Level(cfg, b, t);
    assert RoomIn(cfg, all, more, ip, w, t) == Level(cfg, b, t);
  }

  lemma TightStep(cfg: Config, acts: seq<Action>, answers: seq<bool>, r: Buckets, ip: string, now: real, a: Action)
    requires cfg.rate >= 0.0 && 0.0 <= now <= a.at && |answers| == Asks(acts)
    requires forall k :: 0 <= k < |acts| ==> acts[k].at <= a.at
    requires TightFrom(cfg, acts, answers, r, ip, now)
    ensures var r' := if a.Ask? then Remember(cfg, r, a.ip, a.at).0 else r;
            TightFrom(cfg, acts + [a], answers + LastAnswer(cfg, r, a), r', ip, a.at)
  {
    var r' := if a.Ask? then Remember(cfg, r, a.ip, a.at).0 else r;
    var ok := a.Ask? && Remember(cfg, r, a.ip, a.at).1;
    assert LastAnswer(cfg, r, a) == if a.Ask? then [ok] else [];
    forall t | t >= a.at
      ensures Tight(cfg, acts + [a], answers + LastAnswer(cfg, r, a), ip, BucketOf(cfg, r', ip, t), t)
    {
      var b := BucketOf(cfg, r, ip, t);
      assert Tight(cfg, acts, answers, ip, b, t);
      if a.Ask? && a.ip == ip && ok {
        assert Tight(cfg, acts, answers, ip, BucketOf(cfg, r, ip, a.at), a.at);
        TightAdmitted(cfg, acts, answers, ip, BucketOf(cfg, r, ip, a.at), a.at, t);
      } else {
        TightOther(cfg, acts, answers, a, ok, ip, b, t);
        SameLevel(cfg, r, a, ip, t);
      }
    }
  }

  /** A rejected request, or one of another address, leaves the level. */
  lemma SameLevel(cfg: Config, r: Buckets, a: Action, ip: string, t: real)
    requires cfg.rate >= 0.0 && t >= a.at && (a.Ask? && a.ip == ip ==> !Remember(cfg, r, a.ip, a.at).1)
    ensures var r' := if a.Ask? then Remember(cfg, r, a.ip, a.at).0 else r;
            Level(cfg, BucketOf(cfg, r', ip, t), t) == Level(cfg, BucketOf(cfg, r, ip, t), t)
  {
    NonNegative(cfg.rate, t - a.at);
  }

  lemma {:induction false} TightRun(cfg: Config, acts: seq<Action>, ip: string, now: real)
    requires cfg.rate >= 0.0 && 0.0 <= now && Ordered(0.0, acts) && forall k :: 0 <= k < |acts| ==> acts[k].at <= now
    ensures TightFrom(cfg, acts, RememberedAnswers(cfg, map[], acts), After(cfg, map[], acts), ip, now)
    decreases |acts|
  {
    if acts == [] {
      forall t | t >= now ensures Tight(cfg, [], [], ip, Full(cfg, t), t) {
        forall w | 0.0 <= w <= t ensures RoomIn(cfg, [], [], ip, w, t) >= cfg.burst as real {
          NonNegative(cfg.rate, t - w);
        }
        assert RoomIn(cfg, [], [], ip, t, t) == Level(cfg, Full(cfg, t), t);
      }
    } else {
      var front, a := acts[..|acts| - 1], acts[|acts| - 1];
      assert acts == front + [a];
      OrderedPrefix(0.0, front, a);
      assert forall k :: 0 <= k < |front| ==> front[k].at <= a.at;
      TightRun(cfg, front, ip, a.at);
      AnswersSnoc(cfg, map[], front, a);
      OneAnswerEach(cfg, map[], front);
      TightStep(cfg, front, RememberedAnswers(cfg, map[], front), After(cfg, map[], front), ip, a.at, a);
      assert TightFrom(cfg, acts, RememberedAnswers(cfg, map[], acts), After(cfg, map[], acts), ip, a.at);
    }
  }

  /** Every answer of the limiter: in any run of requests and cleanups, if five minutes refill a bucket, a
      request is admitted exactly if it fits, in every window that ends with it, into the burst and what
      flows in during the window. */
  lemma AnsweredIff(cfg: Config, acts: seq<Action>, ip: string, at: real)
    requires cfg.rate >= 0.0 && 300.0 * cfg.rate >= cfg.burst as real
    requires Ordered(0.0, acts + [Ask(ip, at)])
    ensures Answers(cfg, map[], acts + [Ask(ip, at)])
         == Answers(cfg, map[], acts) + [Fits(cfg, acts, Answers(cfg, map[], acts), ip, at)]
  {
    OrderedPrefix(0.0, acts, Ask(ip, at));
    ForgettingHarmless(cfg, map[], map[], 0.0, acts + [Ask(ip, at)]);
    ForgettingHarmless(cfg, map[], map[], 0.0, acts);
    AnswersSnoc(cfg, map[], acts, Ask(ip, at));
    TightRun(cfg, acts, ip, at);
    var r := After(cfg, map[], acts);
    assert Tight(cfg, acts, RememberedAnswers(cfg, map[], acts), ip, BucketOf(cfg, r, ip, at), at);
    FitsIff(cfg, acts, RememberedAnswers(cfg, map[], acts), ip, BucketOf(cfg, r, ip, at), at);
  }

  predicate FitsConfigured(acts: seq<Action>, answers: seq<bool>, ip: string, w: real, at: real) {
    Admitted(acts, answers, ip, w, at) as real + 1.0 <= 10.0 + (at - w) / 4.0
  }

  /** With the configured limits: ten requests at once, and one more every four seconds. */
  lemma ConfiguredAnswers(acts: seq<Action>, ip: string, at: real)
    requires Ordered(0.0, acts + [Ask(ip, at)])
    ensures Answers(V1_LIMITS, map[], acts + [Ask(ip, at)])
         == Answers(V1_LIMITS, map[], acts)
            + [forall w :: 0.0 <= w <= at ==> FitsConfigured(acts, Answers(V1_LIMITS, map[], acts), ip, w, at)]
  {
    AnsweredIff(V1_LIMITS, acts, ip, at);
    var answers := Answers(V1_LIMITS, map[], acts);
    forall w ensures FitsSince(V1_LIMITS, acts, answers, ip, w, at) <==> FitsConfigured(acts, answers, ip, w, at) {
    }
  }
}
