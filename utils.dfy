/** The integer and string helpers of services/frontend/src/lib/utils.ts:
    formatDuration and getStatusColor. */
module Utils {
  import opened Text

  /** formatDuration for a whole number of seconds. */
  function FormatDuration(seconds: int): (r: string)
    ensures r == Render(SplitDuration(seconds))
  {
    if seconds < 60 then IntToString(seconds) + "s"
    else if seconds < 3600 then NatToString(seconds / 60) + "m " + NatToString(seconds % 60) + "s"
    else
      var hours := seconds / 3600;
      var minutes := (seconds % 3600) / 60;
      NatToString(hours) + "h " + NatToString(minutes) + "m"
  }

  /** The quantities a duration is shown as. */
  datatype Duration = Secs(total: int) | MinSecs(m: nat, s: nat) | HoursMins(h: nat, m: nat)

  /** The unique decomposition the three formats stand for: seconds alone
      below a minute, whole minutes and leftover seconds below an hour, whole
      hours and leftover whole minutes from an hour on (seconds dropped). */
  function SplitDuration(seconds: int): (d: Duration)
    ensures d.Secs? <==> seconds < 60
    ensures d.Secs? ==> d.total == seconds
    ensures d.MinSecs? <==> 60 <= seconds < 3600
    ensures d.MinSecs? ==> 1 <= d.m < 60 && d.s < 60 && d.m * 60 + d.s == seconds
    ensures d.HoursMins? ==>
      1 <= d.h && d.m < 60 && d.h * 3600 + d.m * 60 <= seconds < d.h * 3600 + d.m * 60 + 60
  {
    if seconds < 60 then Secs(seconds)
    else if seconds < 3600 then MinSecs(seconds / 60, seconds % 60)
    else HoursMins(seconds / 3600, (seconds % 3600) / 60)
  }

  function Render(d: Duration): string {
    match d
    case Secs(s) => IntToString(s) + "s"
    case MinSecs(m, s) => NatToString(m) + "m " + NatToString(s) + "s"
    case HoursMins(h, m) => NatToString(h) + "h " + NatToString(m) + "m"
  }

  /** Below an hour nothing is lost: distinct non-negative durations are
      formatted differently. */
  lemma FormatDurationInjectiveBelowHour(a: nat, b: nat)
    requires a < 3600 && b < 3600
    requires FormatDuration(a) == FormatDuration(b)
    ensures a == b
  {
    var da, db := SplitDuration(a), SplitDuration(b);
    if da.Secs? && db.Secs? {
      SecondsFormatUnique(a, b);
    } else if da.Secs? && db.MinSecs? {
      DigitPrefixUnique(NatToString(a), "s", NatToString(db.m), "m " + NatToString(db.s) + "s");
    } else if da.MinSecs? && db.Secs? {
      DigitPrefixUnique(NatToString(b), "s", NatToString(da.m), "m " + NatToString(da.s) + "s");
    } else if da.MinSecs? && db.MinSecs? {
      MinutesFormatUnique(da.m, da.s, db.m, db.s);
    }
  }

  lemma SecondsFormatUnique(a: nat, b: nat)
    requires NatToString(a) + "s" == NatToString(b) + "s"
    ensures a == b
  {
    DigitPrefixUnique(NatToString(a), "s", NatToString(b), "s");
    NatToStringInjective(a, b);
  }

  lemma MinutesFormatUnique(ma: nat, sa: nat, mb: nat, sb: nat)
    requires NatToString(ma) + "m " + NatToString(sa) + "s" == NatToString(mb) + "m " + NatToString(sb) + "s"
    ensures ma == mb && sa == sb
  {
    DigitFieldsUnique(NatToString(ma), NatToString(sa), NatToString(mb), NatToString(sb), "m ", "s");
    NatToStringInjective(ma, mb);
    NatToStringInjective(sa, sb);
  }

  /** From an hour on the seconds are dropped: a whole hour and a second
      short of the next minute read the same. */
  lemma FormatDurationDropsSeconds()
    ensures FormatDuration(3600) == FormatDuration(3659) == "1h 0m"
  {
  }

  const Green := "text-green-600 bg-green-100"
  const Yellow := "text-yellow-600 bg-yellow-100"
  const Red := "text-red-600 bg-red-100"
  const Gray := "text-gray-600 bg-gray-100"

  /** getStatusColor: a switch on the lower-cased status. */
  function GetStatusColor(status: string): (r: string)
    ensures r in {Green, Yellow, Red, Gray}
    ensures r == Green <==> Lower(status) in {"success", "completed", "healthy"}
    ensures r == Yellow <==> Lower(status) in {"running", "pending"}
    ensures r == Red <==> Lower(status) in {"failed", "error", "unhealthy"}
  {
    var s := Lower(status);
    if s == "success" || s == "completed" || s == "healthy" then Green
    else if s == "running" || s == "pending" then Yellow
    else if s == "failed" || s == "error" || s == "unhealthy" then Red
    else Gray
  }

  /** Case does not matter: a status and its lower-case form get the same colour. */
  lemma StatusColorCaseInsensitive(status: string)
    ensures GetStatusColor(status) == GetStatusColor(Lower(status))
  {
    LowerIdempotent(status);
  }

  /** An upper-case spelling of a keyword is recognised. */
  lemma StatusColorUpperCase()
    ensures GetStatusColor("FAILED") == Red
  {
    LowerOfUpper("FAILED");
    assert Lower("FAILED") == "failed";
  }
}
