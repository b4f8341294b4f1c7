/** The burst limiter of one user over whole lives of its record: created, asked, collected and created again. */
module BurstLimiter {
  import opened Options

  datatype Record = Record(timestamp: int, nActions: nat)

  /** One uid: its record if there is one, when its requests were granted, and the last reading of the clock. */
  datatype Life = Life(record: Option<Record>, grants: seq<int>, clock: int)

  /** Line 349. */
  predicate InBurst(r: Record, now: int, sec: nat) { now < r.timestamp + sec }

  /** verify_burst, lines 352-369; `now` is the reading of line 347 and `stamp` that of line 356. */
  predicate Allows(r: Record, now: int, sec: nat, max: nat) { !InBurst(r, now, sec) || r.nActions < max }

  function Asked(r: Record, now: int, stamp: int, sec: nat, max: nat): Record {
    if !InBurst(r, now, sec) then Record(stamp, 0)
    else if r.nActions >= max then r
    else r.(nActions := r.nActions + 1)
  }

  /** When the request counts as granted: at its last reading of the clock. */
  function GrantTime(r: Record, now: int, stamp: int, sec: nat): int { if InBurst(r, now, sec) then now else stamp }

  // ---------------------------------------------------------------- counting grants

  /** How many of `gs` lie in lo <= g < hi. */
  function Count(gs: seq<int>, lo: int, hi: int): nat {
    if gs == [] then 0 else Count(gs[..|gs| - 1], lo, hi) + if lo <= gs[|gs| - 1] < hi then 1 else 0
  }

  lemma {:induction false} CountWithin(gs: seq<int>, lo: int, hi: int, lo': int, hi': int)
    requires lo' <= lo && hi <= hi'
    ensures Count(gs, lo, hi) <= Count(gs, lo', hi')
  {
    if gs != [] {
      CountWithin(gs[..|gs| - 1], lo, hi, lo', hi');
    }
  }

  lemma {:induction false} CountSplit(gs: seq<int>, lo: int, mid: int, hi: int)
    requires lo <= mid <= hi
    ensures Count(gs, lo, hi) == Count(gs, lo, mid) + Count(gs, mid, hi)
  {
    if gs != [] {
      CountSplit(gs[..|gs| - 1], lo, mid, hi);
    }
  }

  lemma {:induction false} CountNone(gs: seq<int>, lo: int, hi: int)
    requires forall i :: 0 <= i < |gs| ==> gs[i] < lo
    ensures Count(gs, lo, hi) == 0
  {
    if gs != [] {
      CountNone(gs[..|gs| - 1], lo, hi);
    }
  }

  lemma CountOne(gs: seq<int>, g: int, lo: int, hi: int)
    ensures Count(gs + [g], lo, hi) == Count(gs, lo, hi) + if lo <= g < hi then 1 else 0
  {
    assert (gs + [g])[..|gs|] == gs;
  }

  // ---------------------------------------------------------------- the invariant

  predicate AllBefore(gs: seq<int>, t: int) { forall i :: 0 <= i < |gs| ==> gs[i] < t }

  /** At most `most` grants in the `sec` seconds before `t`. */
  predicate FewBefore(gs: seq<int>, t: int, sec: nat, most: nat) { Count(gs, t - sec, t) <= most }

  /** The grants in the closed interval of `sec` seconds from `t`. */
  function InWindow(gs: seq<int>, t: int, sec: nat): nat { Count(gs, t, t + sec + 1) }

  ghost predicate Windows(gs: seq<int>, sec: nat, max: nat) {
    forall t :: InWindow(gs, t, sec) <= 2 * (max + 1)
  }

  ghost predicate Inv(v: Life, sec: nat, max: nat) {
    && Windows(v.grants, sec, max)
    && match v.record
       case None => AllBefore(v.grants, v.clock) && FewBefore(v.grants, v.clock, sec, max + 1)
       case Some(r) =>
         && r.timestamp <= v.clock && r.nActions <= max
         && AllBefore(v.grants, r.timestamp + sec) && AllBefore(v.grants, v.clock + 1)
         && FewBefore(v.grants, r.timestamp, sec, max + 1)
         && Count(v.grants, r.timestamp, r.timestamp + sec) <= r.nActions + 1
  }

  lemma NothingYet(clock: int, sec: nat, max: nat)
    ensures Inv(Life(None, [], clock), sec, max)
  {
  }

  /** Time passes. */
  lemma Waits(v: Life, now: int, sec: nat, max: nat)
    requires Inv(v, sec, max) && now >= v.clock
    ensures Inv(v.(clock := now), sec, max)
  {
    if v.record.None? {
      FewLater(v.grants, v.clock, now, sec, max + 1);
    }
  }

  lemma FewLater(gs: seq<int>, t: int, t': int, sec: nat, most: nat)
    requires AllBefore(gs, t) && FewBefore(gs, t, sec, most) && t <= t'
    ensures FewBefore(gs, t', sec, most)
  {
    if t <= t' - sec {
      CountNone(gs, t' - sec, t');
    } else {
      CountSplit(gs, t' - sec, t, t');
      CountNone(gs, t, t');
      CountWithin(gs, t' - sec, t, t - sec, t);
    }
  }

  /** find_user makes a record, lines 385-393. */
  lemma Created(v: Life, now: int, sec: nat, max: nat)
    requires Inv(v, sec, max) && v.record.None? && now >= v.clock && sec >= 1
    ensures Inv(Life(Some(Record(now, 0)), v.grants, now), sec, max)
  {
    FewLater(v.grants, v.clock, now, sec, max + 1);
    CountNone(v.grants, now, now + sec);
  }

  /** user_gc drops the record, lines 580-588. */
  lemma Removed(v: Life, now: int, sec: nat, max: nat)
    requires Inv(v, sec, max) && v.record.Some? && now >= v.clock && !InBurst(v.record.value, now, sec)
    ensures Inv(Life(None, v.grants, now), sec, max)
  {
    PeriodOver(v.grants, v.record.value, now, sec, max);
  }

  /** Once a period is over, its grants are all there were in the last `sec` seconds. */
  lemma PeriodOver(gs: seq<int>, r: Record, now: int, sec: nat, max: nat)
    requires AllBefore(gs, r.timestamp + sec) && Count(gs, r.timestamp, r.timestamp + sec) <= r.nActions + 1
    requires r.nActions <= max
    requires now >= r.timestamp + sec
    ensures AllBefore(gs, now) && FewBefore(gs, now, sec, max + 1)
  {
    CountSplit(gs, r.timestamp, r.timestamp + sec, now);
    CountNone(gs, r.timestamp + sec, now);
    CountWithin(gs, now - sec, now, r.timestamp, now);
  }

  /** verify_burst, granted or not. */
  lemma Verified(v: Life, now: int, stamp: int, sec: nat, max: nat)
    requires Inv(v, sec, max) && v.record.Some? && v.clock <= now <= stamp && sec >= 1
    ensures var r := v.record.value;
      Inv(Life(Some(Asked(r, now, stamp, sec, max)),
               if Allows(r, now, sec, max) then v.grants + [GrantTime(r, now, stamp, sec)] else v.grants, stamp), sec,
                 max)
  {
    var r := v.record.value;
    if !InBurst(r, now, sec) {
      Restarted(v, now, stamp, sec, max);
    } else if r.nActions < max {
      hide Windows, FewBefore, Count;
      GrantKept(v.grants, now, r.(nActions := r.nActions + 1), sec, max);
    }
  }

  /** A new period starts with a grant, lines 354-359. */
  lemma Restarted(v: Life, now: int, stamp: int, sec: nat, max: nat)
    requires Inv(v, sec, max) && v.record.Some? && v.clock <= now <= stamp && sec >= 1
    requires !InBurst(v.record.value, now, sec)
    ensures Inv(Life(Some(Record(stamp, 0)), v.grants + [stamp], stamp), sec, max)
  {
    hide Windows, FewBefore, Count;
    PeriodOver(v.grants, v.record.value, now, sec, max);
    FewLater(v.grants, now, stamp, sec, max + 1);
    CountNone(v.grants, stamp, stamp + sec);
    GrantKept(v.grants, stamp, Record(stamp, 0), sec, max);
  }

  /** A grant at `g` in the period of `r`, whose count already includes it, keeps every bound. */
  lemma GrantKept(gs: seq<int>, g: int, r: Record, sec: nat, max: nat)
    requires Windows(gs, sec, max) && AllBefore(gs, g + 1) && r.timestamp <= g < r.timestamp + sec && r.nActions <= max
    requires FewBefore(gs, r.timestamp, sec, max + 1) && Count(gs, r.timestamp, r.timestamp + sec) <= r.nActions
    ensures Windows(gs + [g], sec, max) && FewBefore(gs + [g], r.timestamp, sec, max + 1)
    ensures Count(gs + [g], r.timestamp, r.timestamp + sec) <= r.nActions + 1
  {
    CountOne(gs, g, r.timestamp - sec, r.timestamp);
    CountOne(gs, g, r.timestamp, r.timestamp + sec);
    forall t ensures InWindow(gs + [g], t, sec) <= 2 * (max + 1) {
      assert InWindow(gs, t, sec) <= 2 * (max + 1);
      CountOne(gs, g, t, t + sec + 1);
      if t <= g < t + sec + 1 {
        WindowKept(gs, g, r, sec, max, t);
      }
    }
  }

  /** A window that contains the grant meets at most two periods. */
  lemma WindowKept(gs: seq<int>, g: int, r: Record, sec: nat, max: nat, t: int)
    requires AllBefore(gs, g + 1) && r.timestamp <= g < r.timestamp + sec && r.nActions <= max && t <= g <= t + sec
    requires FewBefore(gs, r.timestamp, sec, max + 1) && Count(gs, r.timestamp, r.timestamp + sec) <= r.nActions
    ensures Count(gs, t, t + sec + 1) + 1 <= 2 * (max + 1)
  {
    var b := r.timestamp;
    if t < b {
      CountSplit(gs, t, b, t + sec + 1);
      CountWithin(gs, t, b, b - sec, b);
      CountWithin(gs, b, t + sec + 1, b, b + sec);
    } else {
      CountSplit(gs, t, g + 1, t + sec + 1);
      CountNone(gs, g + 1, t + sec + 1);
      CountWithin(gs, t, g + 1, b, b + sec);
    }
  }
}
