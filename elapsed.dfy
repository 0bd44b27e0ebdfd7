/** Elapsed-time arithmetic of Python's `datetime` subtraction. Instants are
    whole seconds since an epoch; `later - earlier` is a `timedelta` whose
    `days` is the floor of the difference in days and whose `seconds` is the
    non-negative remainder. Dafny's `/` and `%` by a positive divisor are
    exactly floor division and its remainder. */
module Elapsed {

  const SecondsPerDay: int := 86400

  /** `(later - earlier).days` */
  function Days(later: int, earlier: int): int
  {
    (later - earlier) / SecondsPerDay
  }

  /** `(later - earlier).seconds` */
  function Seconds(later: int, earlier: int): int
  {
    (later - earlier) % SecondsPerDay
  }

  /** The two fields reassemble the difference, and `seconds` stays within a day. */
  lemma DeltaParts(later: int, earlier: int)
    ensures Days(later, earlier) * SecondsPerDay + Seconds(later, earlier) == later - earlier
    ensures 0 <= Seconds(later, earlier) < SecondsPerDay
  {
  }

  /** "More than n whole days" means at least n + 1 full days of seconds. */
  lemma {:induction false} DaysAbove(later: int, earlier: int, n: int)
    ensures Days(later, earlier) > n <==> later - earlier >= (n + 1) * SecondsPerDay
  {
    var d := later - earlier;
    DeltaParts(later, earlier);
    var q := Days(later, earlier);
    if q > n {
      assert q >= n + 1;
      assert q * SecondsPerDay >= (n + 1) * SecondsPerDay;
    } else {
      assert q <= n;
      assert q * SecondsPerDay <= n * SecondsPerDay;
    }
  }

  /** `days == 0 and seconds > 0` holds exactly for a difference strictly
      between zero and one day. */
  lemma {:induction false} WithinOneDay(later: int, earlier: int)
    ensures (Days(later, earlier) == 0 && Seconds(later, earlier) > 0)
        <==> 0 < later - earlier < SecondsPerDay
  {
    DeltaParts(later, earlier);
    var q := Days(later, earlier);
    if q >= 1 {
      assert q * SecondsPerDay >= SecondsPerDay;
    } else if q <= -1 {
      assert q * SecondsPerDay <= -SecondsPerDay;
    }
  }
}
