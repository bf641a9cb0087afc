/** The per-IP rate limiter: a token bucket per address, forgotten after five idle minutes and created
    full again.  Time is a real number of seconds on one clock. */
module RateLimit {

  /** Tokens per second, and the capacity of a bucket. */
  datatype Config = Config(rate: real, burst: nat)

  /** The tokens at time `last`. */
  datatype Bucket = Bucket(tokens: real, last: real)

  const IDLE_SECONDS := 300.0

  function Min(a: real, b: real): real { if a < b then a else b }

  function Max(a: real, b: real): real { if a < b then b else a }

  /** The tokens at time t. */
  function Level(cfg: Config, b: Bucket, t: real): real {
    Min(cfg.burst as real, b.tokens + cfg.rate * Max(0.0, t - b.last))
  }

  function Full(cfg: Config, t: real): Bucket {
    Bucket(cfg.burst as real, t)
  }

  function Allow(cfg: Config, b: Bucket, t: real): (Bucket, bool) {
    var level := Level(cfg, b, t);
    if level >= 1.0 then (Bucket(level - 1.0, t), true) else (b, false)
  }

  // ----- the limiter that forgets, and one that never does -----

  datatype Entry = Entry(bucket: Bucket, last: real)

  type Clients = map<string, Entry>

  /** An address without an entry has a full bucket. */
  function EntryBucket(cfg: Config, m: Clients, ip: string, now: real): Bucket {
    if ip in m then m[ip].bucket else Full(cfg, now)
  }

  /** Every request, admitted or not, renews `last`. */
  function Request(cfg: Config, m: Clients, ip: string, now: real): (Clients, bool) {
    var (after, ok) := Allow(cfg, EntryBucket(cfg, m, ip, now), now);
    (m[ip := Entry(after, now)], ok)
  }

  predicate Expired(e: Entry, now: real) { now - e.last > IDLE_SECONDS }

  function Cleanup(m: Clients, now: real): Clients {
    map ip | ip in m && !Expired(m[ip], now) :: m[ip]
  }

  /** Exactly the entries without a request for more than 300 seconds go; a request renews its own entry and
      touches no other. */
  lemma EntriesKept(cfg: Config, m: Clients, now: real, ip: string, other: string)
    ensures ip in Cleanup(m, now) <==> ip in m && now - m[ip].last <= 300.0
    ensures ip in Cleanup(m, now) ==> Cleanup(m, now)[ip] == m[ip]
    ensures var r := Request(cfg, m, ip, now).0;
            && ip in r && r[ip].last == now
            && (other != ip ==> (other in r <==> other in m) && (other in m ==> r[other] == m[other]))
  {
  }

  type Buckets = map<string, Bucket>

  function BucketOf(cfg: Config, r: Buckets, ip: string, now: real): Bucket {
    if ip in r then r[ip] else Full(cfg, now)
  }

  function Remember(cfg: Config, r: Buckets, ip: string, now: real): (Buckets, bool) {
    var (after, ok) := Allow(cfg, BucketOf(cfg, r, ip, now), now);
    (r[ip := after], ok)
  }

  // ----- runs -----

  datatype Action = Ask(ip: string, at: real) | Clean(at: real)

  /** Times never decrease, starting at `now`. */
  predicate Ordered(now: real, acts: seq<Action>)
    decreases |acts|
  {
    acts == [] || (now <= acts[0].at && Ordered(acts[0].at, acts[1..]))
  }

  function Answers(cfg: Config, m: Clients, acts: seq<Action>): seq<bool>
    decreases |acts|
  {
    if acts == [] then []
    else
      match acts[0]
      case Clean(at) => Answers(cfg, Cleanup(m, at), acts[1..])
      case Ask(ip, at) => var (m', ok) := Request(cfg, m, ip, at); [ok] + Answers(cfg, m', acts[1..])
  }

  function RememberedAnswers(cfg: Config, r: Buckets, acts: seq<Action>): seq<bool>
    decreases |acts|
  {
    if acts == [] then []
    else
      match acts[0]
      case Clean(_) => RememberedAnswers(cfg, r, acts[1..])
      case Ask(ip, at) => var (r', ok) := Remember(cfg, r, ip, at); [ok] + RememberedAnswers(cfg, r', acts[1..])
  }

  // ----- forgetting is harmless -----

  lemma Scale(rate: real, a: real, b: real)
    requires rate >= 0.0 && a <= b
    ensures rate * a <= rate * b
  {
  }

  lemma NonNegative(rate: real, a: real)
    requires rate >= 0.0 && a >= 0.0
    ensures rate * a >= 0.0
  {
  }

  lemma Spread(rate: real, a: real, b: real, c: real)
    ensures rate * (b - a) + rate * (c - b) == rate * (c - a)
  {
  }

  /** Buckets that cannot be told apart from `now` on. */
  predicate Alike(cfg: Config, a: Bucket, b: Bucket, now: real) {
    a == b || (Level(cfg, a, now) == cfg.burst as real == Level(cfg, b, now))
  }

  predicate SoundBucket(cfg: Config, b: Bucket, now: real) {
    0.0 <= b.tokens <= cfg.burst as real && b.last <= now
  }

  /** Every remembered entry has the bucket of the limiter that never forgets, or both are full; every
      forgotten one is full there. */
  ghost predicate Matches(cfg: Config, m: Clients, r: Buckets, now: real) {
    && m.Keys <= r.Keys
    && (forall ip :: ip in r ==> SoundBucket(cfg, r[ip], now))
    && (forall ip :: ip in m ==>
          SoundBucket(cfg, m[ip].bucket, m[ip].last) && m[ip].last <= now && Alike(cfg, m[ip].bucket, r[ip], now))
    && (forall ip :: ip in r && ip !in m ==> Level(cfg, r[ip], now) == cfg.burst as real)
  }

  lemma FullStaysFull(cfg: Config, b: Bucket, now: real, later: real)
    requires cfg.rate >= 0.0 && now <= later && Level(cfg, b, now) == cfg.burst as real
    ensures Level(cfg, b, later) == cfg.burst as real
  {
    Scale(cfg.rate, Max(0.0, now - b.last), Max(0.0, later - b.last));
  }

  lemma IdleIsFull(cfg: Config, e: Entry, now: real)
    requires IDLE_SECONDS * cfg.rate >= cfg.burst as real && cfg.rate >= 0.0
    requires SoundBucket(cfg, e.bucket, e.last) && Expired(e, now)
    ensures Level(cfg, e.bucket, now) == cfg.burst as real
  {
  }

  lemma MatchesLater(cfg: Config, m: Clients, r: Buckets, now: real, later: real)
    requires cfg.rate >= 0.0 && now <= later && Matches(cfg, m, r, now)
    ensures Matches(cfg, m, r, later)
  {
    forall ip | ip in m && m[ip].bucket != r[ip] ensures Alike(cfg, m[ip].bucket, r[ip], later) {
      FullStaysFull(cfg, m[ip].bucket, now, later);
      FullStaysFull(cfg, r[ip], now, later);
    }
    forall ip | ip in r && ip !in m ensures Level(cfg, r[ip], later) == cfg.burst as real {
      FullStaysFull(cfg, r[ip], now, later);
    }
  }

  lemma CleanupMatches(cfg: Config, m: Clients, r: Buckets, now: real)
    requires IDLE_SECONDS * cfg.rate >= cfg.burst as real && cfg.rate >= 0.0
    requires Matches(cfg, m, r, now)
    ensures Matches(cfg, Cleanup(m, now), r, now)
  {
    forall ip | ip in m && Expired(m[ip], now) ensures Level(cfg, r[ip], now) == cfg.burst as real {
      IdleIsFull(cfg, m[ip], now);
    }
  }

  lemma {:induction false} ForgettingHarmless(cfg: Config, m: Clients, r: Buckets, now: real, acts: seq<Action>)
    requires IDLE_SECONDS * cfg.rate >= cfg.burst as real && cfg.rate >= 0.0
    requires Matches(cfg, m, r, now) && Ordered(now, acts)
    ensures Answers(cfg, m, acts) == RememberedAnswers(cfg, r, acts)
    decreases |acts|
  {
    if acts != [] {
      var at := acts[0].at;
      MatchesLater(cfg, m, r, now, at);
      match acts[0]
      case Clean(_) =>
        CleanupMatches(cfg, m, r, at);
        ForgettingHarmless(cfg, Cleanup(m, at), r, at, acts[1..]);
      case Ask(ip, _) =>
        ForgettingHarmless(cfg, Request(cfg, m, ip, at).0, Remember(cfg, r, ip, at).0, at, acts[1..]);
    }
  }

  // ----- and harmful otherwise -----

  function Repeat(ip: string, at: real, n: nat): seq<Action> {
    if n == 0 then [] else [Ask(ip, at)] + Repeat(ip, at, n - 1)
  }

  function Yes(n: nat): seq<bool> {
    seq(n, _ => true)
  }

  lemma Overwrite<V>(m: map<string, V>, k: string, a: V, b: V)
    ensures m[k := a][k := b] == m[k := b]
  {
  }

  lemma {:induction false} OrderedRepeat(now: real, ip: string, at: real, n: nat, rest: seq<Action>)
    requires now <= at && Ordered(at, rest)
    ensures Ordered(now, Repeat(ip, at, n) + rest)
    decreases n
  {
    var acts := Repeat(ip, at, n) + rest;
    if n == 0 {
      assert acts == rest;
      if rest != [] { assert now <= rest[0].at; }
    } else {
      assert acts[0] == Ask(ip, at) && acts[1..] == Repeat(ip, at, n - 1) + rest;
      OrderedRepeat(at, ip, at, n - 1, rest);
    }
  }

  lemma AnswersRepeat(cfg: Config, m: Clients, ip: string, at: real, n: nat, rest: seq<Action>)
    requires n > 0
    ensures var (m', ok) := Request(cfg, m, ip, at);
            Answers(cfg, m, Repeat(ip, at, n) + rest) == [ok] + Answers(cfg, m', Repeat(ip, at, n - 1) + rest)
  {
    var acts := Repeat(ip, at, n) + rest;
    assert acts[0] == Ask(ip, at) && acts[1..] == Repeat(ip, at, n - 1) + rest;
  }

  lemma RememberedRepeat(cfg: Config, r: Buckets, ip: string, at: real, n: nat, rest: seq<Action>)
    requires n > 0
    ensures var (r', ok) := Remember(cfg, r, ip, at);
            RememberedAnswers(cfg, r, Repeat(ip, at, n) + rest)
              == [ok] + RememberedAnswers(cfg, r', Repeat(ip, at, n - 1) + rest)
  {
    var acts := Repeat(ip, at, n) + rest;
    assert acts[0] == Ask(ip, at) && acts[1..] == Repeat(ip, at, n - 1) + rest;
  }

  lemma YesMore(n: nat, answers: seq<bool>)
    ensures [true] + (Yes(n) + answers) == Yes(n + 1) + answers
  {
  }

  /** n requests at one moment, n no more than the level, are admitted and use n tokens. */
  lemma {:induction false} Drain(cfg: Config, m: Clients, ip: string, at: real, n: nat, rest: seq<Action>)
    requires n > 0
    requires Level(cfg, EntryBucket(cfg, m, ip, at), at) >= n as real
    ensures var level := Level(cfg, EntryBucket(cfg, m, ip, at), at);
            Answers(cfg, m, Repeat(ip, at, n) + rest)
              == Yes(n) + Answers(cfg, Left(m, ip, level, n, at), rest)
    decreases n
  {
    var level := Level(cfg, EntryBucket(cfg, m, ip, at), at);
    AnswersRepeat(cfg, m, ip, at, n, rest);
    var m' := Left(m, ip, level, 1, at);
    if n == 1 {
    } else {
      Drain(cfg, m', ip, at, n - 1, rest);
      LeftTwice(m, ip, level, n, at);
      YesMore(n - 1, Answers(cfg, Left(m, ip, level, n, at), rest));
    }
  }

  /** n tokens less. */
  function Left(m: Clients, ip: string, level: real, n: nat, at: real): Clients {
    m[ip := Entry(Bucket(level - n as real, at), at)]
  }

  lemma LeftTwice(m: Clients, ip: string, level: real, n: nat, at: real)
    requires n > 0
    ensures Left(Left(m, ip, level, 1, at), ip, level - 1.0, n - 1, at) == Left(m, ip, level, n, at)
  {
    Overwrite(m, ip, Entry(Bucket(level - 1.0, at), at), Entry(Bucket(level - n as real, at), at));
  }

  /** The same for the limiter that never forgets. */
  lemma {:induction false} DrainRemembered(cfg: Config, r: Buckets, ip: string, at: real, n: nat, rest: seq<Action>)
    requires n > 0 && Level(cfg, BucketOf(cfg, r, ip, at), at) >= n as real
    ensures var level := Level(cfg, BucketOf(cfg, r, ip, at), at);
            RememberedAnswers(cfg, r, Repeat(ip, at, n) + rest)
              == Yes(n) + RememberedAnswers(cfg, r[ip := Bucket(level - n as real, at)], rest)
    decreases n
  {
    var level := Level(cfg, BucketOf(cfg, r, ip, at), at);
    var r' := r[ip := Bucket(level - 1.0, at)];
    assert Remember(cfg, r, ip, at) == (r', true);
    RememberedRepeat(cfg, r, ip, at, n, rest);
    if n == 1 {
    } else {
      DrainRemembered(cfg, r', ip, at, n - 1, rest);
      Overwrite(r, ip, Bucket(level - 1.0, at), Bucket(level - n as real, at));
      YesMore(n - 1, RememberedAnswers(cfg, r[ip := Bucket(level - n as real, at)], rest));
    }
  }

  /** Below n tokens, n requests at one moment are not all admitted. */
  lemma {:induction false} ShortBatch(cfg: Config, r: Buckets, ip: string, at: real, n: nat)
    requires n > 0 && Level(cfg, BucketOf(cfg, r, ip, at), at) < n as real
    ensures RememberedAnswers(cfg, r, Repeat(ip, at, n)) != Yes(n)
    decreases n
  {
    var acts := Repeat(ip, at, n);
    var (r', ok) := Remember(cfg, r, ip, at);
    assert acts[0] == Ask(ip, at) && acts[1..] == Repeat(ip, at, n - 1);
    var tail := RememberedAnswers(cfg, r', acts[1..]);
    assert RememberedAnswers(cfg, r, acts) == [ok] + tail;
    assert ([ok] + tail)[0] == ok && ([ok] + tail)[1..] == tail;
    assert Yes(n)[0] && Yes(n)[1..] == Yes(n - 1);
    if ok {
      ShortBatch(cfg, r', ip, at, n - 1);
    }
  }

  /** A moment after five idle minutes at which a drained bucket is not yet full again. */
  lemma LateButNotFull(cfg: Config) returns (at: real)
    requires cfg.rate >= 0.0 && IDLE_SECONDS * cfg.rate < cfg.burst as real
    ensures at > IDLE_SECONDS && cfg.rate * at < cfg.burst as real
  {
    if cfg.rate == 0.0 {
      at := IDLE_SECONDS + 1.0;
    } else {
      var gap := (cfg.burst as real - IDLE_SECONDS * cfg.rate) / cfg.rate;
      assert gap * cfg.rate == cfg.burst as real - IDLE_SECONDS * cfg.rate;
      assert gap > 0.0;
      at := IDLE_SECONDS + gap / 2.0;
      assert cfg.rate * at == IDLE_SECONDS * cfg.rate + (gap * cfg.rate) / 2.0;
    }
  }

  function DrainedTwice(ip: string, n: nat, at: real): seq<Action> {
    Repeat(ip, 0.0, n) + ([Clean(at)] + Repeat(ip, at, n))
  }

  /** Then one address can empty its bucket, be forgotten, and find it full again too early. */
  lemma ForgettingShows(cfg: Config, ip: string) returns (acts: seq<Action>)
    requires cfg.rate >= 0.0 && IDLE_SECONDS * cfg.rate < cfg.burst as real
    ensures Ordered(0.0, acts) && Answers(cfg, map[], acts) != RememberedAnswers(cfg, map[], acts)
  {
    var at := LateButNotFull(cfg);
    var n := cfg.burst;
    acts := DrainedTwice(ip, n, at);
    DrainedTwiceOrdered(cfg, ip, at);
    TwiceAdmitted(cfg, ip, at);
    SecondTimeShort(cfg, ip, at);
  }

  lemma DrainedTwiceOrdered(cfg: Config, ip: string, at: real)
    requires at >= 0.0
    ensures Ordered(0.0, DrainedTwice(ip, cfg.burst, at))
  {
    var second := Repeat(ip, at, cfg.burst);
    assert second + [] == second;
    OrderedRepeat(at, ip, at, cfg.burst, []);
    OrderedRepeat(0.0, ip, 0.0, cfg.burst, [Clean(at)] + second);
  }

  /** The limiter that forgets admits both batches. */
  lemma TwiceAdmitted(cfg: Config, ip: string, at: real)
    requires at > IDLE_SECONDS && cfg.burst > 0
    ensures Answers(cfg, map[], DrainedTwice(ip, cfg.burst, at)) == Yes(cfg.burst) + Yes(cfg.burst)
  {
    var n := cfg.burst;
    var second := Repeat(ip, at, n);
    var rest := [Clean(at)] + second;
    Drain(cfg, map[], ip, 0.0, n, rest);
    var spent := map[ip := Entry(Bucket(0.0, 0.0), 0.0)];
    assert Cleanup(spent, at) == map[];
    assert rest[1..] == second && second + [] == second;
    Drain(cfg, map[], ip, at, n, []);
  }

  /** The limiter that never forgets rejects some request of the second batch. */
  lemma SecondTimeShort(cfg: Config, ip: string, at: real)
    requires at > 0.0 && cfg.burst > 0 && cfg.rate * at < cfg.burst as real
    ensures RememberedAnswers(cfg, map[], DrainedTwice(ip, cfg.burst, at)) != Yes(cfg.burst) + Yes(cfg.burst)
  {
    var n := cfg.burst;
    var second := Repeat(ip, at, n);
    var rest := [Clean(at)] + second;
    DrainRemembered(cfg, map[], ip, 0.0, n, rest);
    var spent := map[ip := Bucket(0.0, 0.0)];
    assert rest[1..] == second;
    ShortBatch(cfg, spent, ip, at, n);
    SameTail(Yes(n), RememberedAnswers(cfg, spent, second), Yes(n));
  }

  lemma SameTail<T>(front: seq<T>, a: seq<T>, b: seq<T>)
    ensures front + a == front + b ==> a == b
  {
    assert (front + a)[|front|..] == a && (front + b)[|front|..] == b;
  }

  /** Deleting entries idle for more than five minutes and creating them full again gives the same
      answer to every request of every run as never forgetting, exactly when five minutes refill a
      bucket. */
  lemma ForgettingHarmlessIff(cfg: Config)
    requires cfg.rate >= 0.0
    ensures (forall acts :: Ordered(0.0, acts) ==> Answers(cfg, map[], acts) == RememberedAnswers(cfg, map[], acts))
        <==> 300.0 * cfg.rate >= cfg.burst as real
  {
    if IDLE_SECONDS * cfg.rate >= cfg.burst as real {
      forall acts | Ordered(0.0, acts) ensures Answers(cfg, map[], acts) == RememberedAnswers(cfg, map[], acts) {
        ForgettingHarmless(cfg, map[], map[], 0.0, acts);
      }
    } else {
      var acts := ForgettingShows(cfg, "");
    }
  }

  // ----- the bound on admitted requests -----

  /** The admitted requests of one address whose times lie in [from, until]. */
  function Admitted(acts: seq<Action>, answers: seq<bool>, ip: string, from: real, until: real): nat
    decreases |acts|
  {
    if acts == [] || answers == [] then 0
    else if acts[0].Clean? then Admitted(acts[1..], answers, ip, from, until)
    else
      (if acts[0].ip == ip && from <= acts[0].at <= until && answers[0] then 1 else 0)
      + Admitted(acts[1..], answers[1..], ip, from, until)
  }

  /** What a window open from `open` until `until` has room for: the tokens there when it opens, and
      those that flow in while it is open. */
  function Room(cfg: Config, r: Buckets, ip: string, open: real, until: real): real {
    Level(cfg, BucketOf(cfg, r, ip, open), open) + cfg.rate * (until - open)
  }

  ghost predicate SoundBuckets(cfg: Config, r: Buckets, now: real) {
    forall k :: k in r ==> SoundBucket(cfg, r[k], now)
  }

  lemma LevelNonNegative(cfg: Config, b: Bucket, t: real)
    requires cfg.rate >= 0.0 && b.tokens >= 0.0
    ensures Level(cfg, b, t) >= 0.0
  {
  }

  lemma RoomNonNegative(cfg: Config, r: Buckets, ip: string, open: real, until: real)
    requires cfg.rate >= 0.0 && open <= until && SoundBuckets(cfg, r, open)
    ensures Room(cfg, r, ip, open, until) >= 0.0
  {
    var b := BucketOf(cfg, r, ip, open);
    assert b.tokens >= 0.0 by { assert ip !in r ==> b.tokens == cfg.burst as real; }
    LevelNonNegative(cfg, b, open);
    NonNegative(cfg.rate, until - open);
    var level, inflow := Level(cfg, b, open), cfg.rate * (until - open);
    assert level >= 0.0 && inflow >= 0.0;
    assert Room(cfg, r, ip, open, until) == level + inflow;
  }

  lemma RoomBound(cfg: Config, r: Buckets, ip: string, open: real, until: real)
    ensures Room(cfg, r, ip, open, until) <= cfg.burst as real + cfg.rate * (until - open)
  {
  }

  /** Opening the window later leaves no more room in it. */
  lemma RoomShrinks(cfg: Config, r: Buckets, ip: string, open: real, later: real, until: real)
    requires cfg.rate >= 0.0 && open <= later && SoundBuckets(cfg, r, open)
    ensures Room(cfg, r, ip, later, until) <= Room(cfg, r, ip, open, until)
  {
    Spread(cfg.rate, open, later, until);
    NonNegative(cfg.rate, later - open);
    if ip in r {
      Spread(cfg.rate, r[ip].last, open, later);
    }
  }

  lemma RememberedSound(cfg: Config, r: Buckets, who: string, at: real)
    requires cfg.rate >= 0.0 && SoundBuckets(cfg, r, at)
    ensures SoundBuckets(cfg, Remember(cfg, r, who, at).0, at)
  {
  }

  /** A request leaves no more room than before, and an admitted one takes exactly one request's worth. */
  lemma RoomAfter(cfg: Config, r: Buckets, who: string, ip: string, at: real, open: real, until: real)
    requires cfg.rate >= 0.0 && at <= open && SoundBuckets(cfg, r, at)
    ensures var (r', ok) := Remember(cfg, r, who, at);
            && Room(cfg, r', ip, open, until) <= Room(cfg, r, ip, open, until)
            && (ok && who == ip && open == at ==> Room(cfg, r', ip, open, until) == Room(cfg, r, ip, open, until) - 1.0)
  {
    var b := BucketOf(cfg, r, who, at);
    Spread(cfg.rate, b.last, at, open);
    NonNegative(cfg.rate, open - at);
  }

  /** From `now` on, no more requests are admitted in the window than it has room for. */
  lemma {:induction false} WindowBound(cfg: Config, r: Buckets, acts: seq<Action>, ip: string, now: real,
                                       from: real, until: real)
    requires cfg.rate >= 0.0 && Ordered(now, acts) && SoundBuckets(cfg, r, now)
    ensures var count := Admitted(acts, RememberedAnswers(cfg, r, acts), ip, from, until);
            if Max(now, from) > until then count == 0
            else count as real <= Room(cfg, r, ip, Max(now, from), until)
    decreases |acts|
  {
    var open := Max(now, from);
    if open <= until { RoomNonNegative(cfg, r, ip, open, until); }
    if acts != [] {
      var at := acts[0].at;
      var later := Max(at, from);
      RoomShrinks(cfg, r, ip, open, later, until);
      match acts[0]
      case Clean(_) => WindowBound(cfg, r, acts[1..], ip, at, from, until);
      case Ask(who, _) =>
        var (r', ok) := Remember(cfg, r, who, at);
        RememberedSound(cfg, r, who, at);
        RoomAfter(cfg, r, who, ip, at, later, until);
        WindowBound(cfg, r', acts[1..], ip, at, from, until);
    }
  }

  predicate WithinBound(cfg: Config, acts: seq<Action>, ip: string, from: real, until: real) {
    Admitted(acts, Answers(cfg, map[], acts), ip, from, until) as real <= cfg.burst as real + cfg.rate * (until - from)
  }

  /** In any run of requests and cleanups, in any window of time, one address is admitted at most
      burst + rate * length times, however often it is forgotten meanwhile, if five minutes refill a
      bucket. */
  lemma AdmittedInWindow(cfg: Config, acts: seq<Action>, ip: string, from: real, until: real)
    requires cfg.rate >= 0.0 && IDLE_SECONDS * cfg.rate >= cfg.burst as real
    requires Ordered(0.0, acts) && 0.0 <= from <= until
    ensures WithinBound(cfg, acts, ip, from, until)
  {
    ForgettingHarmless(cfg, map[], map[], 0.0, acts);
    WindowBound(cfg, map[], acts, ip, 0.0, from, until);
    RoomBound(cfg, map[], ip, from, until);
    assert Max(0.0, from) == from;
  }

  lemma RepeatFirst(ip: string, at: real, n: nat, rest: seq<Action>)
    requires n > 0
    ensures Repeat(ip, at, n) + rest == [Ask(ip, at)] + (Repeat(ip, at, n - 1) + rest)
  {
  }

  lemma {:induction false} AllAdmitted(ip: string, at: real, n: nat, rest: seq<Action>, answers: seq<bool>,
                                       from: real, until: real)
    requires from <= at <= until
    ensures Admitted(Repeat(ip, at, n) + rest, Yes(n) + answers, ip, from, until)
         == n + Admitted(rest, answers, ip, from, until)
    decreases n
  {
    if n == 0 {
      assert Repeat(ip, at, 0) + rest == rest && Yes(0) + answers == answers;
    } else {
      RepeatFirst(ip, at, n, rest);
      YesMore(n - 1, answers);
      AllAdmitted(ip, at, n - 1, rest, answers, from, until);
    }
  }

  /** An address that empties its bucket twice is admitted twice its burst between the two moments. */
  lemma TwiceCounted(ip: string, n: nat, at: real)
    requires at >= 0.0
    ensures Admitted(DrainedTwice(ip, n, at), Yes(n) + Yes(n), ip, 0.0, at) == 2 * n
  {
    var second := Repeat(ip, at, n);
    AllAdmitted(ip, 0.0, n, [Clean(at)] + second, Yes(n), 0.0, at);
    assert ([Clean(at)] + second)[1..] == second;
    AllAdmitted(ip, at, n, [], [], 0.0, at);
    assert second + [] == second && Yes(n) + [] == Yes(n);
  }

  /** The bound on one address holds in every window of every run exactly when five minutes refill a
      bucket. */
  lemma AdmittedBoundIff(cfg: Config, ip: string)
    requires cfg.rate >= 0.0
    ensures (forall acts, from, until :: Ordered(0.0, acts) && 0.0 <= from <= until ==>
              WithinBound(cfg, acts, ip, from, until))
        <==> 300.0 * cfg.rate >= cfg.burst as real
  {
    if IDLE_SECONDS * cfg.rate >= cfg.burst as real {
      forall acts, from, until | Ordered(0.0, acts) && 0.0 <= from <= until
        ensures WithinBound(cfg, acts, ip, from, until)
      {
        AdmittedInWindow(cfg, acts, ip, from, until);
      }
    } else {
      var at := LateButNotFull(cfg);
      DrainedTwiceOrdered(cfg, ip, at);
      TwiceAdmitted(cfg, ip, at);
      TwiceCounted(ip, cfg.burst, at);
      assert !WithinBound(cfg, DrainedTwice(ip, cfg.burst, at), ip, 0.0, at);
    }
  }

  /** The limits the service is configured with satisfy the condition. */
  const V1_LIMITS := Config(0.25, 10)

  lemma ConfiguredLimits(acts: seq<Action>, ip: string, from: real, until: real)
    requires Ordered(0.0, acts) && 0.0 <= from <= until
    ensures Answers(V1_LIMITS, map[], acts) == RememberedAnswers(V1_LIMITS, map[], acts)
    ensures Admitted(acts, Answers(V1_LIMITS, map[], acts), ip, from, until) as real <= 10.0 + 0.25 * (until - from)
  {
    ForgettingHarmless(V1_LIMITS, map[], map[], 0.0, acts);
    AdmittedInWindow(V1_LIMITS, acts, ip, from, until);
  }

  // ----- the middleware -----

  class ClientEntry {
    var bucket: Bucket
    var last: real

    constructor (bucket: Bucket, last: real)
      ensures this.bucket == bucket && this.last == last
    {
      this.bucket, this.last := bucket, last;
    }
  }

  class RateLimiter {
    const cfg: Config
    var clients: map<string, ClientEntry>

    /** No two addresses share an entry. */
    ghost predicate Valid()
      reads this
    {
      forall a, b :: a in clients && b in clients && a != b ==> clients[a] != clients[b]
    }

    ghost function Value(): Clients
      reads this, clients.Values
    {
      map ip | ip in clients :: Entry(clients[ip].bucket, clients[ip].last)
    }

    constructor (cfg: Config)
      ensures Valid() && Value() == map[] && this.cfg == cfg
    {
      this.cfg := cfg;
      clients := map[];
    }

    /** One request: the entry is found or made, its time renewed, its bucket asked. */
    method Handle(ip: string, now: real) returns (ok: bool)
      requires Valid()
      modifies this, clients.Values
      ensures Valid()
      ensures (Value(), ok) == Request(cfg, old(Value()), ip, now)
    {
      ghost var before := Value();
      if ip !in clients {
        var e := new ClientEntry(Full(cfg, now), now);
        clients := clients[ip := e];
      }
      var e := clients[ip];
      e.last := now;
      var (after, admitted) := Allow(cfg, e.bucket, now);
      e.bucket := after;
      ok := admitted;
      assert Value() == before[ip := Entry(after, now)];
    }

    /** The cleanup tick: entries idle for more than five minutes are deleted. */
    method CleanUp(now: real)
      requires Valid()
      modifies `clients
      ensures Valid()
      ensures Value() == Cleanup(old(Value()), now)
    {
      ghost var was := clients;
      var left := clients.Keys;
      while left != {}
        invariant Valid() && left <= clients.Keys <= was.Keys
        invariant forall ip :: ip in clients ==> clients[ip] == was[ip]
        invariant forall ip :: ip in was && ip !in left ==> (ip in clients <==> now - was[ip].last <= IDLE_SECONDS)
        decreases left
      {
        var ip :| ip in left;
        left := left - {ip};
        if now - clients[ip].last > IDLE_SECONDS {
          clients := clients - {ip};
        }
      }
    }
  }
}
