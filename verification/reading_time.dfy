/**
  * The `reading_time` template filter: minutes to read a post of a given
  * word count at 200 words a minute, rounded half to even (Python's
  * `round`), never less than one.
  */
module ReadingTime {

  const WordsPerMinute: nat := 200

  /** The filter's argument after `int(...)`: a whole number, or a value `int` rejects. */
  datatype WordCount = WholeCount(n: int) | NotConvertible

  /** `q` is `n / 200` rounded to the nearest whole number, an exact half to the even one. */
  predicate IsRoundedMinutes(n: nat, q: nat)
  {
    && (2 * q - 1) * WordsPerMinute <= 2 * n <= (2 * q + 1) * WordsPerMinute
    && (2 * n == (2 * q - 1) * WordsPerMinute || 2 * n == (2 * q + 1) * WordsPerMinute ==> q % 2 == 0)
  }

  /** `round(n / 200)` for `n >= 0`. */
  function RoundedMinutes(n: nat): (q: nat)
    ensures IsRoundedMinutes(n, q)
  {
    var q := n / WordsPerMinute;
    var rem := n % WordsPerMinute;
    if 2 * rem > WordsPerMinute then q + 1
    else if 2 * rem < WordsPerMinute then q
    else if q % 2 == 0 then q
    else q + 1
  }

  /** The rounding rule leaves no choice: one whole number satisfies it. */
  lemma RoundedMinutesUnique(n: nat, q: nat)
    requires IsRoundedMinutes(n, q)
    ensures q == RoundedMinutes(n)
  {
    var r := RoundedMinutes(n);
    assert q < r ==> (2 * q + 1) * WordsPerMinute <= (2 * r - 1) * WordsPerMinute;
    assert r < q ==> (2 * r + 1) * WordsPerMinute <= (2 * q - 1) * WordsPerMinute;
  }

  /**
    * `reading_time`: one minute for a count that is not a number or not
    * positive, otherwise the rounded minutes but at least one.
    */
  function Minutes(w: WordCount): (m: nat)
    ensures m >= 1
    ensures w.NotConvertible? || w.n <= 100 ==> m == 1
    ensures w.WholeCount? && w.n > 100 ==> IsRoundedMinutes(w.n, m)
  {
    match w
    case NotConvertible => 1
    case WholeCount(n) =>
      if n <= 0 then 1
      else
        var minutes := RoundedMinutes(n);
        if minutes < 1 then 1 else minutes
  }

  /** 500 words read in 2 minutes (2.5 rounds down to even), 300 in 2 (1.5 rounds up), 900 in 4. */
  lemma MinutesExamples()
    ensures Minutes(WholeCount(500)) == 2
    ensures Minutes(WholeCount(300)) == 2
    ensures Minutes(WholeCount(900)) == 4
    ensures Minutes(WholeCount(100)) == 1 && Minutes(WholeCount(0)) == 1 && Minutes(NotConvertible) == 1
  {
  }

  /** More words never take less time. */
  lemma {:induction false} MinutesMonotone(a: int, b: int)
    requires a <= b
    ensures Minutes(WholeCount(a)) <= Minutes(WholeCount(b))
  {
    if a > 0 {
      var qa, qb := RoundedMinutes(a), RoundedMinutes(b);
      assert qa > qb ==> (2 * qb + 1) * WordsPerMinute <= (2 * qa - 1) * WordsPerMinute;
    }
  }
}
