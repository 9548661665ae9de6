/** The bounded table of token buckets, which answers as an unbounded one would. */
module Limits {
  import opened Items
  import opened TokenBuckets

  /** All the table needs of a bucket. */
  datatype Policy<!B> = Policy(make: Time -> B, take: (B, Time) -> (B, Answer), idle: (B, Time) -> bool)

  datatype Table<B> = Table(held: map<nat, B>, max: nat, lastSweep: Option<Time>)

  // ---- One request ----

  predicate SweepDue<B>(t: Table<B>, now: Time) { t.lastSweep == None || Elapsed(t.lastSweep.value, now) >= 1.0 }

  function Swept<B>(p: Policy<B>, t: Table<B>, now: Time): Table<B> {
    t.(held := map k | k in t.held && !p.idle(t.held[k], now) :: t.held[k], lastSweep := Some(now))
  }

  predicate Sweeps<B>(t: Table<B>, key: nat, now: Time) { key !in t.held && |t.held| >= t.max && SweepDue(t, now) }

  /** The table as the request finds it: swept, if the key is new and the table full and a sweep due. */
  function Room<B>(p: Policy<B>, t: Table<B>, key: nat, now: Time): Table<B> {
    if Sweeps(t, key, now) then Swept(p, t, now) else t
  }

  /** A new key is turned away. */
  predicate Full<B>(p: Policy<B>, t: Table<B>, key: nat, now: Time) {
    key !in t.held && |Room(p, t, key, now).held| >= t.max
  }

  function BucketOf<B>(p: Policy<B>, held: map<nat, B>, key: nat, now: Time): B {
    if key in held then held[key] else p.make(now)
  }

  /** The table after a request, and what the bucket answered unless the key was turned away. */
  function Take<B>(p: Policy<B>, t: Table<B>, key: nat, now: Time): (Table<B>, Option<Answer>) {
    var room := Room(p, t, key, now);
    if Full(p, t, key, now) then (room, None)
    else
      var (b, a) := p.take(BucketOf(p, room.held, key, now), now);
      (room.(held := room.held[key := b]), Some(a))
  }

  ghost predicate Bounded<B>(t: Table<B>) { 1 <= t.max && |t.held| <= t.max }

  lemma TakeStaysBounded<B>(p: Policy<B>, t: Table<B>, key: nat, now: Time)
    requires Bounded(t)
    ensures Bounded(Take(p, t, key, now).0)
  {
    var t', room := Take(p, t, key, now).0, Room(p, t, key, now);
    SubsetSize(room.held.Keys, t.held.Keys);
    if key in t.held {
      assert t'.held.Keys == t.held.Keys;
    } else if !Full(p, t, key, now) {
      assert t'.held.Keys == room.held.Keys + {key};
    }
  }

  /** Exactly who is turned away: a new key that finds the table full, with no sweep due or nobody idle. */
  lemma TurnedAwayExactly<B>(p: Policy<B>, t: Table<B>, key: nat, now: Time)
    requires Bounded(t)
    ensures Full(p, t, key, now) <==>
            && key !in t.held && |t.held| == t.max
            && (!SweepDue(t, now) || forall k :: k in t.held ==> !p.idle(t.held[k], now))
  {
    if Sweeps(t, key, now) {
      var left := Swept(p, t, now).held;
      if k :| k in t.held && p.idle(t.held[k], now) {
        SubsetSize(left.Keys, t.held.Keys - {k});
        assert |t.held.Keys - {k}| == |t.held| - 1;
      } else {
        assert left == t.held;
      }
    }
  }

  // ---- The table in use ----

  function TokenPolicy(rate: real, burst: nat): Policy<TokenBucket> {
    Policy(now => New(rate, burst, now), (b, now) => TryTake(b, now), (b, now) => IsIdle(b, now))
  }

  /** How long a full table makes a new key wait: one full refill. */
  function FullWait(rate: real, burst: nat): real { Burst(burst) / Rate(rate) }

  class Buckets {
    var buckets: map<nat, TokenBucket>
    const max: nat
    const rate: real
    const burst: nat
    var lastSweep: Option<Time>

    function Value(): Table<TokenBucket>
      reads this
    {
      Table(buckets, max, lastSweep)
    }

    constructor (max: nat, rate: real, burst: nat)
      ensures Bounded(Value()) && Value() == EmptyTable(max)
      ensures this.rate == rate && this.burst == burst
    {
      this.buckets, this.max, this.rate, this.burst, this.lastSweep := map[], Max(max, 1), rate, burst, None;
    }

    method TakeOne(key: nat, now: Time) returns (answer: Answer)
      requires Bounded(Value())
      modifies this
      ensures Bounded(Value())
      ensures var (t, a) := Take(TokenPolicy(rate, burst), old(Value()), key, now);
              Value() == t && answer == if a == None then Wait(FullWait(rate, burst)) else a.value
    {
      ghost var p, before := TokenPolicy(rate, burst), Value();
      TakeStaysBounded(p, before, key, now);
      if key in buckets {
        answer := Draw(key, buckets[key], now);
        return;
      }
      if |buckets| >= max {
        MakeRoom(now);
        assert Value() == Room(p, before, key, now);
        if |buckets| >= max {
          return Wait(FullWait(rate, burst));
        }
      }
      answer := Draw(key, New(rate, burst, now), now);
    }

    /** At most one sweep a second. */
    method MakeRoom(now: Time)
      modifies this
      ensures Value() ==
              if SweepDue(old(Value()), now) then Swept(TokenPolicy(rate, burst), old(Value()), now) else old(Value())
    {
      var due := lastSweep == None || Elapsed(lastSweep.value, now) >= 1.0;
      if due {
        buckets := map k | k in buckets && !IsIdle(buckets[k], now) :: buckets[k];
        lastSweep := Some(now);
      }
    }

    method Draw(key: nat, bucket: TokenBucket, now: Time) returns (answer: Answer)
      modifies `buckets
      ensures var (b, a) := TokenPolicy(rate, burst).take(bucket, now);
              buckets == old(buckets)[key := b] && answer == a
    {
      var (b, a) := TryTake(bucket, now);
      buckets := buckets[key := b];
      answer := a;
    }
  }

  // ---- The unbounded table it stands for ----

  /** What the argument relies on: `ok(b, t)` says `b` is one of this policy's buckets, last used by `t`. */
  ghost predicate Lawful<B(!new)>(p: Policy<B>, ok: (B, Time) -> bool) {
    && (forall now :: ok(p.make(now), now))
    && (forall b, t, now {:trigger ok(b, t), ok(b, now)} :: ok(b, t) && t <= now ==> ok(b, now))
    && (forall b, t, now {:trigger ok(b, t), p.take(b, now)} :: ok(b, t) && t <= now ==> ok(p.take(b, now).0, now))
    && (forall b, t, now :: ok(b, t) && t <= now && p.idle(b, now) ==> p.take(b, now) == p.take(p.make(now), now))
    && (forall b, t, now :: ok(b, t) && t <= now && p.idle(b, t) ==> p.idle(b, now))
  }

  /** The table holds the ideal's buckets, except ones idle by now. */
  ghost predicate StandsFor<B>(p: Policy<B>, ok: (B, Time) -> bool, t: Table<B>, ideal: map<nat, B>, now: Time) {
    && (forall k :: k in ideal ==> ok(ideal[k], now))
    && (forall k :: k in t.held ==> k in ideal && ideal[k] == t.held[k])
    && (forall k :: k in ideal && k !in t.held ==> p.idle(ideal[k], now))
  }

  function TakeIdeal<B>(p: Policy<B>, ideal: map<nat, B>, key: nat, now: Time): (map<nat, B>, Answer) {
    var (b, a) := p.take(BucketOf(p, ideal, key, now), now);
    (ideal[key := b], a)
  }

  /** One request: unless turned away, it is answered, and leaves the table standing, as the ideal would. */
  lemma TakeStandsFor<B(!new)>(p: Policy<B>, ok: (B, Time) -> bool, t: Table<B>, ideal: map<nat, B>, key: nat,
                        from: Time, now: Time)
    requires Lawful(p, ok) && StandsFor(p, ok, t, ideal, from) && from <= now
    ensures var (t', a) := Take(p, t, key, now);
            if Full(p, t, key, now) then a == None && StandsFor(p, ok, t', ideal, now)
            else var (ideal', a') := TakeIdeal(p, ideal, key, now);
                 a == Some(a') && StandsFor(p, ok, t', ideal', now)
  {
  }

  datatype Request = Request(key: nat, at: Time)

  ghost predicate InOrder(run: seq<Request>, from: Time)
    decreases |run|
  {
    run == [] || (from <= run[0].at && InOrder(run[1..], run[0].at))
  }

  function Answers<B>(p: Policy<B>, t: Table<B>, run: seq<Request>): (r: seq<Option<Answer>>)
    ensures |r| == |run|
    decreases |run|
  {
    if run == [] then []
    else
      var (t', a) := Take(p, t, run[0].key, run[0].at);
      [a] + Answers(p, t', run[1..])
  }

  /** What an unbounded table answers to the requests of a run that were not turned away. */
  function IdealAnswers<B>(p: Policy<B>, ideal: map<nat, B>, run: seq<Request>): (r: seq<Answer>)
    ensures |r| == |run|
    decreases |run|
  {
    if run == [] then []
    else
      var (ideal', a) := TakeIdeal(p, ideal, run[0].key, run[0].at);
      [a] + IdealAnswers(p, ideal', run[1..])
  }

  /** The requests that were answered by a bucket, and their answers. */
  function Served(run: seq<Request>, answers: seq<Option<Answer>>): seq<Request>
    requires |run| == |answers|
  {
    if run == [] then []
    else (if answers[0].Some? then [run[0]] else []) + Served(run[1..], answers[1..])
  }

  function Given(answers: seq<Option<Answer>>): seq<Answer> {
    if answers == [] then [] else (if answers[0].Some? then [answers[0].value] else []) + Given(answers[1..])
  }

  /** Over any run in which time does not go back, everyone not turned away is answered as by the unbounded table. */
  lemma {:induction false} AnswersAsUnbounded<B(!new)>(p: Policy<B>, ok: (B, Time) -> bool, t: Table<B>,
                                                ideal: map<nat, B>,
                                                       run: seq<Request>, from: Time)
    requires Lawful(p, ok) && StandsFor(p, ok, t, ideal, from) && InOrder(run, from)
    ensures Given(Answers(p, t, run)) == IdealAnswers(p, ideal, Served(run, Answers(p, t, run)))
    decreases |run|
  {
    if run != [] {
      var (key, now) := (run[0].key, run[0].at);
      TakeStandsFor(p, ok, t, ideal, key, from, now);
      var (t', a) := Take(p, t, key, now);
      var answers := Answers(p, t, run);
      assert answers[1..] == Answers(p, t', run[1..]);
      var served := Served(run[1..], answers[1..]);
      if Full(p, t, key, now) {
        AnswersAsUnbounded(p, ok, t', ideal, run[1..], now);
        assert Served(run, answers) == served;
      } else {
        AnswersAsUnbounded(p, ok, t', TakeIdeal(p, ideal, key, now).0, run[1..], now);
        assert Served(run, answers) == [run[0]] + served;
        assert ([run[0]] + served)[1..] == served;
      }
    }
  }

  predicate Tokens(b: TokenBucket, rate: real, burst: nat, used: Time) {
    b.rate == Rate(rate) && b.burst == Burst(burst) && b.last <= used
  }

  lemma TokensAreLawful(rate: real, burst: nat)
    ensures Lawful(TokenPolicy(rate, burst), (b, t) => Tokens(b, rate, burst, t))
  {
    var p := TokenPolicy(rate, burst);
    forall b: TokenBucket, t, now | Tokens(b, rate, burst, t) && t <= now && p.idle(b, now)
      ensures p.take(b, now) == p.take(p.make(now), now)
    {
      IdleIsNew(b, rate, burst, now);
    }
  }

  // ---- What a sender can get ----

  /** `level` counts the tokens there: a new bucket has `burst`, time earns at most `rate`, a token taken costs one. */
  ghost predicate Accounts<B(!new)>(p: Policy<B>, ok: (B, Time) -> bool, level: (B, Time) -> real, rate: real,
                             burst: real) {
    && (forall now :: level(p.make(now), now) == burst)
    && (forall b, t, now {:trigger ok(b, t), level(b, now)} :: ok(b, t) && t <= now ==>
          0.0 <= level(b, now) <= level(b, t) + Earned(rate, t, now))
    && (forall b, t, now {:trigger ok(b, t), p.take(b, now)} :: ok(b, t) && t <= now ==>
          level(p.take(b, now).0, now) == level(b, now) - (if p.take(b, now).1 == Taken then 1.0 else 0.0))
  }

  function LevelOf<B>(ideal: map<nat, B>, level: (B, Time) -> real, burst: real, key: nat, now: Time): real {
    if key in ideal then level(ideal[key], now) else burst
  }

  function TakenBy(key: nat, run: seq<Request>, answers: seq<Option<Answer>>): nat
    requires |run| == |answers|
  {
    if run == [] then 0
    else (if run[0].key == key && answers[0] == Some(Taken) then 1 else 0) + TakenBy(key, run[1..], answers[1..])
  }

  function End(run: seq<Request>, from: Time): Time { if run == [] then from else run[|run| - 1].at }

  lemma LevelGrowsOf<B(!new)>(p: Policy<B>, ok: (B, Time) -> bool, level: (B, Time) -> real, rate: real, burst: real,
                              ideal: map<nat, B>, key: nat, from: Time, now: Time)
    requires Accounts(p, ok, level, rate, burst) && 0.0 < rate && from <= now
    requires forall k :: k in ideal ==> ok(ideal[k], from)
    ensures LevelOf(ideal, level, burst, key, now) <= LevelOf(ideal, level, burst, key, from) + Earned(rate, from, now)
  {
    EarnedGrows(rate, from, now);
    if key in ideal {
      assert ok(ideal[key], from) && level(ideal[key], now) >= 0.0;
    }
  }

  lemma LevelAfterTake<B(!new)>(p: Policy<B>, ok: (B, Time) -> bool, level: (B, Time) -> real, rate: real, burst: real,
                                ideal: map<nat, B>, key: nat, from: Time, now: Time)
    requires Lawful(p, ok) && Accounts(p, ok, level, rate, burst) && from <= now
    requires forall k :: k in ideal ==> ok(ideal[k], from)
    ensures var (next, a) := TakeIdeal(p, ideal, key, now);
            LevelOf(next, level, burst, key, now) + (if a == Taken then 1.0 else 0.0) ==
                LevelOf(ideal, level, burst, key, now)
  {
    var b := BucketOf(p, ideal, key, now);
    if key in ideal {
      assert ok(b, from);
    } else {
      assert ok(b, now);
    }
    assert level(p.take(b, now).0, now) == level(b, now) - (if p.take(b, now).1 == Taken then 1.0 else 0.0);
  }

  lemma {:induction false} LevelBoundsTaken<B(!new)>(p: Policy<B>, ok: (B, Time) -> bool, level: (B, Time) -> real,
                                                     rate: real, burst: real, t: Table<B>, ideal: map<nat, B>,
                                                     key: nat, run: seq<Request>, from: Time)
    requires Lawful(p, ok) && Accounts(p, ok, level, rate, burst) && 0.0 < rate && 0.0 <= burst
    requires StandsFor(p, ok, t, ideal, from) && InOrder(run, from)
    ensures TakenBy(key, run, Answers(p, t, run)) as real <=
            LevelOf(ideal, level, burst, key, from) + Earned(rate, from, End(run, from))
    decreases |run|
  {
    if run == [] {
      EarnedGrows(rate, from, from);
      assert key in ideal ==> ok(ideal[key], from) && level(ideal[key], from) >= 0.0;
    } else {
      var r := run[0];
      TakeStandsFor(p, ok, t, ideal, r.key, from, r.at);
      LevelGrowsOf(p, ok, level, rate, burst, ideal, key, from, r.at);
      LevelAfterTake(p, ok, level, rate, burst, ideal, r.key, from, r.at);
      var (t', a) := Take(p, t, r.key, r.at);
      var next := if a == None then ideal else TakeIdeal(p, ideal, r.key, r.at).0;
      var first := if r.key == key && a == Some(Taken) then 1 else 0;
      assert LevelOf(next, level, burst, key, r.at) + first as real <= LevelOf(ideal, level, burst, key, r.at);
      LevelBoundsTaken(p, ok, level, rate, burst, t', next, key, run[1..], r.at);
      TakenSplits(p, t, key, run);
      EarnedAdds(rate, from, r.at, End(run, from));
    }
  }

  lemma TakenSplits<B>(p: Policy<B>, t: Table<B>, key: nat, run: seq<Request>)
    requires run != []
    ensures var (t', a) := Take(p, t, run[0].key, run[0].at);
            TakenBy(key, run, Answers(p, t, run)) ==
            (if run[0].key == key && a == Some(Taken) then 1 else 0) + TakenBy(key, run[1..], Answers(p, t', run[1..]))
    ensures End(run[1..], run[0].at) == End(run, run[0].at)
  {
    var t' := Take(p, t, run[0].key, run[0].at).0;
    assert Answers(p, t, run)[1..] == Answers(p, t', run[1..]);
  }

  lemma TokensAreAccounted(rate: real, burst: nat)
    ensures Accounts(TokenPolicy(rate, burst), (b, t) => Tokens(b, rate, burst, t), (b, t) => Level(b, t), Rate(rate),
            Burst(burst))
  {
    var p := TokenPolicy(rate, burst);
    forall now ensures Level(p.make(now), now) == Burst(burst) {
      NewIsFull(rate, burst, now);
    }
    forall b: TokenBucket, t, now | Tokens(b, rate, burst, t) && t <= now
      ensures Level(b, now) <= Level(b, t) + Earned(Rate(rate), t, now)
      ensures Level(p.take(b, now).0, now) == Level(b, now) - (if p.take(b, now).1 == Taken then 1.0 else 0.0)
    {
      LevelGrows(b, t, now);
      TakingCosts(b, now);
    }
  }

  function EmptyTable(max: nat): Table<TokenBucket> { Table(map[], Max(max, 1), None) }

  /**
   * A new table of token buckets, over any run in which time does not go back: those not turned
   * away are answered as if no bucket were ever evicted, and, what the limiter is for, one key is
   * granted at most its burst and what its rate has earned since the start.
   */
  lemma TableLimitsEveryKey(max: nat, rate: real, burst: nat, key: nat, run: seq<Request>, from: Time)
    requires InOrder(run, from)
    ensures var p, t := TokenPolicy(rate, burst), EmptyTable(max);
            && Given(Answers(p, t, run)) == IdealAnswers(p, map[], Served(run, Answers(p, t, run)))
            && TakenBy(key, run, Answers(p, t, run)) as real <= Burst(burst) + Earned(Rate(rate), from, End(run, from))
  {
    var p, t := TokenPolicy(rate, burst), EmptyTable(max);
    var ok, level := (b, t) => Tokens(b, rate, burst, t), (b, t) => Level(b, t);
    TokensAreLawful(rate, burst);
    TokensAreAccounted(rate, burst);
    assert StandsFor(p, ok, t, map[], from);
    AnswersAsUnbounded(p, ok, t, map[], run, from);
    LevelBoundsTaken(p, ok, level, Rate(rate), Burst(burst), t, map[], key, run, from);
  }

  // ---- Sweeps ----

  /** When the run swept the table. */
  function SweepTimes<B>(p: Policy<B>, t: Table<B>, run: seq<Request>): seq<Time>
    decreases |run|
  {
    if run == [] then []
    else (if Sweeps(t, run[0].key, run[0].at) then [run[0].at] else []) +
         SweepTimes(p, Take(p, t, run[0].key, run[0].at).0, run[1..])
  }

  /** A second after the last sweep, if any, and after each other, none before `from`. */
  ghost predicate Apart(times: seq<Time>, last: Option<Time>, from: Time) {
    && (forall k :: 0 <= k < |times| ==> from <= times[k])
    && (last.Some? ==> forall k :: 0 <= k < |times| ==> times[k] >= last.value + 1.0)
    && (forall j, k :: 0 <= j < k < |times| ==> times[k] >= times[j] + 1.0)
  }

  lemma SweepIsNoted<B>(p: Policy<B>, t: Table<B>, key: nat, now: Time)
    ensures Take(p, t, key, now).0.lastSweep == if Sweeps(t, key, now) then Some(now) else t.lastSweep
    ensures Sweeps(t, key, now) && t.lastSweep.Some? ==> now >= t.lastSweep.value + 1.0
  {
  }

  lemma OneMoreSweep(now: Time, rest: seq<Time>, last: Option<Time>, from: Time)
    requires Apart(rest, Some(now), now) && from <= now && (last.Some? ==> now >= last.value + 1.0)
    ensures Apart([now] + rest, last, from)
  {
  }

  lemma NoSweepYet(times: seq<Time>, last: Option<Time>, from: Time, now: Time)
    requires Apart(times, last, now) && from <= now
    ensures Apart(times, last, from)
  {
  }

  /** Sweeps are at least a second apart. */
  lemma {:induction false} SweepsAreApart<B>(p: Policy<B>, t: Table<B>, run: seq<Request>, from: Time)
    requires InOrder(run, from) && (t.lastSweep.Some? ==> t.lastSweep.value <= from)
    ensures Apart(SweepTimes(p, t, run), t.lastSweep, from)
    decreases |run|
  {
    if run != [] {
      var (key, now) := (run[0].key, run[0].at);
      var t' := Take(p, t, key, now).0;
      SweepIsNoted(p, t, key, now);
      SweepsAreApart(p, t', run[1..], now);
      var rest := SweepTimes(p, t', run[1..]);
      if Sweeps(t, key, now) {
        OneMoreSweep(now, rest, t.lastSweep, from);
      } else {
        NoSweepYet(rest, t.lastSweep, from, now);
        assert SweepTimes(p, t, run) == rest;
      }
    }
  }
}
