/** The rolling-minute weight budget: what has been booked in the last minute, waiting until a
    request fits, and the bound this puts on every minute of every run. */
module Pacer {
  import opened Fixed

  const PACE_WINDOW: real := 60.0

  datatype Booking = Booking(at: real, weight: nat)

  ghost predicate Chronological(s: seq<Booking>) {
    forall i, j :: 0 <= i < j < |s| ==> s[i].at <= s[j].at
  }

  ghost predicate UpTo(s: seq<Booking>, now: real) {
    forall i :: 0 <= i < |s| ==> s[i].at <= now
  }

  /** The weight booked in the half-open minute `(t - 60, t]`. */
  function InMinute(s: seq<Booking>, t: real): nat {
    if s == [] then 0
    else
      var b := s[|s| - 1];
      InMinute(s[..|s| - 1], t) + (if t - PACE_WINDOW < b.at <= t then b.weight else 0)
  }

  function Total(s: seq<Booking>): nat {
    if s == [] then 0 else Total(s[..|s| - 1]) + s[|s| - 1].weight
  }

  ghost predicate Expired(s: seq<Booking>, now: real) {
    forall i :: 0 <= i < |s| ==> s[i].at <= now - PACE_WINDOW
  }

  ghost predicate Live(s: seq<Booking>, now: real) {
    forall i :: 0 <= i < |s| ==> now - PACE_WINDOW < s[i].at <= now
  }

  lemma {:induction false} MinuteOfSplit(a: seq<Booking>, b: seq<Booking>, t: real)
    ensures InMinute(a + b, t) == InMinute(a, t) + InMinute(b, t)
  {
    if b == [] {
      assert a + b == a;
    } else {
      MinuteOfSplit(a, b[..|b| - 1], t);
      assert (a + b)[..|a + b| - 1] == a + b[..|b| - 1];
    }
  }

  lemma {:induction false} MinuteOfExpired(s: seq<Booking>, t: real)
    requires Expired(s, t)
    ensures InMinute(s, t) == 0
  {
    if s != [] {
      MinuteOfExpired(s[..|s| - 1], t);
    }
  }

  lemma {:induction false} MinuteOfLive(s: seq<Booking>, t: real)
    requires Live(s, t)
    ensures InMinute(s, t) == Total(s)
  {
    if s != [] {
      MinuteOfLive(s[..|s| - 1], t);
    }
  }

  /** As time passes over unchanged books the minute only empties. */
  lemma {:induction false} MinuteShrinks(s: seq<Booking>, t: real, u: real)
    requires t <= u && UpTo(s, t)
    ensures InMinute(s, u) <= InMinute(s, t)
  {
    if s != [] {
      MinuteShrinks(s[..|s| - 1], t, u);
    }
  }

  /** `weight` more fits the minute up to `t`, or that is empty. */
  ghost predicate Fits(s: seq<Booking>, t: real, weight: nat, perMin: int) {
    InMinute(s, t) == 0 || InMinute(s, t) + weight <= perMin
  }

  /** The books never hold more than `cap` in any minute whatsoever. */
  ghost predicate Capped(s: seq<Booking>, cap: nat) {
    forall t: real :: InMinute(s, t) <= cap
  }

  /** Booking at `at` what was admitted at an earlier reading `now` keeps every minute capped. */
  lemma BookingKeepsCap(s: seq<Booking>, cap: nat, perMin: int, now: real, at: real, asked: nat, weight: nat)
    requires Capped(s, cap) && UpTo(s, now) && now <= at && weight <= asked <= cap && perMin <= cap
    requires InMinute(s, now) == 0 || InMinute(s, now) + asked <= perMin
    ensures Capped(s + [Booking(at, weight)], cap)
  {
    var next := s + [Booking(at, weight)];
    assert next[..|next| - 1] == s;
    forall t: real
      ensures InMinute(next, t) <= cap
    {
      if at <= t {
        MinuteShrinks(s, now, t);
      }
    }
  }

  /** The injected clock: readings never go back, and a sleep lasts at least as long as asked. */
  class Clock {
    var now: real
    /** How long was asked to be slept. */
    var asked: real

    constructor (start: real)
      ensures now == start && asked == 0.0
    {
      now, asked := start, 0.0;
    }

    method Read() returns (t: real)
      modifies this`now
      ensures now >= old(now) && t == now
    {
      var reading: real := *;
      now := if reading < now then now else reading;
      t := now;
    }

    method Sleep(pause: real)
      requires pause >= 0.0
      modifies this
      ensures now >= old(now) + pause && asked == old(asked) + pause
    {
      asked := asked + pause;
      var reading: real := *;
      now := if reading < now + pause then now + pause else reading;
    }
  }

  class WeightPacer {
    const perMin: int
    const clock: Clock
    var booked: seq<Booking>
    /** The bookings already popped. */
    ghost var gone: seq<Booking>

    /** Every booking ever made. */
    ghost function History(): seq<Booking>
      reads this
    {
      gone + booked
    }

    ghost predicate Valid()
      reads this, clock
    {
      ValidAt(clock.now)
    }

    ghost predicate ValidAt(now: real)
      reads this
    {
      Chronological(gone + booked) && UpTo(gone + booked, now) && Expired(gone, now)
    }

    constructor (perMin: int, clock: Clock)
      ensures Valid() && this.perMin == perMin && this.clock == clock && History() == []
    {
      this.perMin, this.clock := perMin, clock;
      booked, gone := [], [];
    }

    lemma ValidLater(before: real, now: real)
      requires ValidAt(before) && before <= now
      ensures ValidAt(now)
    {
    }

    /** Once the front is inside the minute, so is everything booked. */
    lemma FrontIsOldest(now: real)
      requires ValidAt(now) && (booked != [] ==> now - PACE_WINDOW < booked[0].at)
      ensures Live(booked, now) && InMinute(History(), now) == Total(booked)
    {
      forall i | 0 <= i < |booked|
        ensures now - PACE_WINDOW < booked[i].at <= now
      {
        assert booked[0] == (gone + booked)[|gone|] && booked[i] == (gone + booked)[|gone| + i];
      }
      MinuteOfSplit(gone, booked, now);
      MinuteOfExpired(gone, now);
      MinuteOfLive(booked, now);
    }

    /** Popping only from the front leaves exactly the last minute's bookings. */
    method Spent(now: real) returns (spent: nat)
      requires ValidAt(now)
      modifies this`booked, this`gone
      ensures ValidAt(now) && Live(booked, now) && History() == old(History())
      ensures spent == Total(booked) == InMinute(History(), now)
      ensures |booked| <= old(|booked|)
      ensures old(booked) != [] && old(booked)[0].at <= now - PACE_WINDOW ==> |booked| < old(|booked|)
    {
      while booked != [] && booked[0].at <= now - PACE_WINDOW
        invariant ValidAt(now) && History() == old(History())
        invariant |booked| <= old(|booked|)
        invariant |booked| == old(|booked|) ==> booked == old(booked)
        decreases |booked|
      {
        assert gone + booked == (gone + [booked[0]]) + booked[1..];
        gone := gone + [booked[0]];
        booked := booked[1..];
      }
      FrontIsOldest(now);
      spent := Sum();
    }

    method Sum() returns (sum: nat)
      ensures sum == Total(booked)
    {
      sum := 0;
      for i := 0 to |booked|
        invariant sum == Total(booked[..i])
      {
        assert booked[..i + 1][..i] == booked[..i];
        sum := sum + booked[i].weight;
      }
      assert booked[..|booked|] == booked;
    }

    /** Waits until `weight` more fits the rolling minute, or the minute is empty; not at all when it does
        already, and never for more than the minute. It returns: every wait outlasts the oldest booking, so
        the next look retires it. */
    method Acquire(weight: nat) returns (waited: real)
      requires Valid()
      modifies this`booked, this`gone, clock
      ensures Valid() && 0.0 <= waited <= PACE_WINDOW && History() == old(History())
      ensures waited == clock.asked - old(clock.asked)
      ensures Fits(History(), clock.now, weight, perMin)
      ensures old(Fits(History(), clock.now, weight, perMin)) ==> waited == 0.0
    {
      waited := 0.0;
      ghost var slept, start := false, clock.now;
      while true
        invariant Valid() && 0.0 <= waited <= PACE_WINDOW && History() == old(History())
        invariant waited == clock.asked - old(clock.asked) && start + waited <= clock.now
        invariant UpTo(History(), start)
        invariant slept ==> !Fits(History(), start, weight, perMin)
        invariant !slept ==> waited == 0.0
        invariant slept ==> booked != [] && booked[0].at <= clock.now - PACE_WINDOW
        decreases |booked|, !slept
      {
        ghost var before := clock.now;
        var now := clock.Read();
        ValidLater(before, now);
        var spent := Spent(now);
        if spent == 0 || spent + weight <= perMin {
          return;
        }
        MinuteShrinks(History(), start, now);
        assert booked[0] == History()[|gone|];
        var pause := booked[0].at + PACE_WINDOW - now;
        clock.Sleep(pause);
        ValidLater(now, clock.now);
        waited := waited + pause;
        slept := true;
      }
    }

    method Record(weight: nat)
      requires Valid()
      modifies this`booked, clock
      ensures Valid() && clock.now >= old(clock.now)
      ensures History() == old(History()) + [Booking(clock.now, weight)]
    {
      ghost var before := clock.now;
      var now := clock.Read();
      ValidLater(before, now);
      booked := booked + [Booking(now, weight)];
      assert History() == old(History()) + [Booking(now, weight)];
    }

    /** One paced request: what it turns out to weigh is at most what it asked for. */
    method Request(asked: nat, weight: nat, ghost cap: nat)
      requires Valid() && Capped(History(), cap) && weight <= asked <= cap && perMin <= cap
      modifies this, clock
      ensures Valid() && Capped(History(), cap) && |History()| == |old(History())| + 1
      ensures old(History()) < History() && History()[|History()| - 1].weight == weight
    {
      var _ := Acquire(asked);
      ghost var now, books := clock.now, History();
      Record(weight);
      BookingKeepsCap(books, cap, perMin, now, clock.now, asked, weight);
    }
  }

  /** Any run of paced requests: the weight booked in every minute of it is at most the budget, or
      the heaviest request when that alone is over it. */
  method PacedRun(perMin: int, start: real, asked: seq<nat>, weights: seq<nat>, heaviest: nat) returns (p: WeightPacer)
    requires |asked| == |weights| && forall i :: 0 <= i < |asked| ==> weights[i] <= asked[i] <= heaviest
    ensures fresh(p) && p.Valid() && |p.History()| == |asked|
    ensures forall i :: 0 <= i < |asked| ==> p.History()[i].weight == weights[i]
    ensures forall t: real :: InMinute(p.History(), t) <= Max(perMin, heaviest)
  {
    var clock := new Clock(start);
    p := new WeightPacer(perMin, clock);
    ghost var cap: nat := Max(perMin, heaviest);
    for i := 0 to |asked|
      invariant fresh(p) && fresh(p.clock) && p.perMin == perMin
      invariant p.Valid() && Capped(p.History(), cap) && |p.History()| == i
      invariant forall j :: 0 <= j < i ==> p.History()[j].weight == weights[j]
    {
      p.Request(asked[i], weights[i], cap);
    }
  }
}
