/**
  The arithmetic behind the clock faces drawn by draw_clock: a clock in
  seconds is split with divmod(t, 60) and shown as f"{m:02d}:{s:02d}".
*/
module Display {
  import opened Decimal
  import Command

  /**
    Python's divmod(t, 60). Python floors the quotient; with the positive
    divisor 60 that agrees with Dafny's Euclidean / and %, also for t < 0.
  */
  function DivMod60(t: int): (r: (int, int))
    ensures 0 <= r.1 < 60
    ensures r.0 * 60 + r.1 == t
    ensures 0 <= t ==> 0 <= r.0 <= t
  {
    (t / 60, t % 60)
  }

  /** divmod's result is the only (minutes, seconds) pair with seconds in [0, 60). */
  lemma DivMod60Unique(t: int, minutes: int, seconds: int)
    requires 0 <= seconds < 60 && minutes * 60 + seconds == t
    ensures DivMod60(t) == (minutes, seconds)
  {
  }

  /** The MM:SS text of a clock holding t seconds. */
  function ClockText(t: int): (s: string)
    ensures 0 <= t < 6000 ==> |s| == 5 && s[2] == ':'
  {
    var (m, sec) := DivMod60(t);
    Format02d(m) + ":" + Format02d(sec)
  }

  /** Reading the MM:SS text back recovers the clock's seconds. */
  lemma ClockTextReadsBack(t: int)
    ensures var fields := Command.Split(ClockText(t));
            |fields| == 2 &&
            ParseInt(fields[0]).Some? && ParseInt(fields[1]).Some? &&
            ParseInt(fields[0]).value * 60 + ParseInt(fields[1]).value == t &&
            0 <= ParseInt(fields[1]).value < 60
  {
    var (m, sec) := DivMod60(t);
    Command.SplitSeparated(Format02d(m), Format02d(sec));
    Command.SplitUnseparated(Format02d(sec));
    ParseIntOfFormat02d(m);
    ParseIntOfFormat02d(sec);
  }
}
