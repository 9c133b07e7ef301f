/** The countdown the printer's job list shows next to each open job. The
    time left is given in milliseconds (the job's end minus the browser's
    clock); whole days, hours and minutes are taken from it by integer
    division, and the largest non-zero unit decides the wording. */
module Countdown {
  import opened Wrappers
  import opened Text

  const MsPerMinute: nat := 60000
  const MsPerHour: nat := 3600000
  const MsPerDay: nat := 86400000

  const NotAvailable: string := "N/A"
  const Closed: string := "Closed"
  const Remaining: string := " remaining"

  datatype TimeLeft = TimeLeft(days: nat, hours: nat, minutes: nat)

  /** The whole days, the hours past them, and the minutes past those. */
  function Split(diff: nat): (t: TimeLeft)
    ensures t.hours < 24 && t.minutes < 60
    ensures t.days * MsPerDay + t.hours * MsPerHour + t.minutes * MsPerMinute <= diff
    ensures diff < t.days * MsPerDay + t.hours * MsPerHour + t.minutes * MsPerMinute + MsPerMinute
  {
    var days := diff / MsPerDay;
    var hours := (diff % MsPerDay) / MsPerHour;
    var minutes := (diff % MsPerHour) / MsPerMinute;
    SplitBounds(diff, days, hours, minutes);
    TimeLeft(days, hours, minutes)
  }

  /** Division by m of q * m + r, for 0 <= r < m, gives back q and r. */
  lemma DivModUnique(x: int, q: int, r: int, m: int)
    requires m > 0 && 0 <= r < m && x == q * m + r
    ensures x / m == q && x % m == r
  {
    var q', r' := x / m, x % m;
    assert (q' - q) * m == r - r';
    assert q' - q >= 1 ==> (q' - q) * m >= m;
    assert q - q' >= 1 ==> (q - q') * m >= m;
  }

  lemma SplitBounds(diff: nat, days: nat, hours: nat, minutes: nat)
    requires days == diff / MsPerDay
    requires hours == (diff % MsPerDay) / MsPerHour
    requires minutes == (diff % MsPerHour) / MsPerMinute
    ensures hours < 24 && minutes < 60
    ensures days * MsPerDay + hours * MsPerHour + minutes * MsPerMinute <= diff
    ensures diff < days * MsPerDay + hours * MsPerHour + minutes * MsPerMinute + MsPerMinute
  {
    var r1 := diff % MsPerDay;
    var r2 := r1 % MsPerHour;
    assert r1 == hours * MsPerHour + r2;
    assert diff == (days * 24 + hours) * MsPerHour + r2;
    DivModUnique(diff, days * 24 + hours, r2, MsPerHour);
    assert r2 == minutes * MsPerMinute + r2 % MsPerMinute;
  }

  /** `formatTimeRemaining`: "N/A" without an end date, "Closed" once the
      end has passed, else the two largest units from days, or hours and
      minutes, or minutes alone. */
  function FormatTimeRemaining(endDate: Option<string>, diff: int): (r: string)
    ensures endDate.None? || endDate == Some("") ==> r == NotAvailable
    ensures endDate.Some? && endDate.value != "" && diff <= 0 ==> r == Closed
    ensures endDate.Some? && endDate.value != "" && diff > 0 ==>
              var t := Split(diff);
              (t.days > 0 ==> r == NatToString(t.days) + "d " + NatToString(t.hours) + "h" + Remaining) &&
              (t.days == 0 && t.hours > 0 ==> r == NatToString(t.hours) + "h " + NatToString(t.minutes) + "m" + Remaining) &&
              (t.days == 0 && t.hours == 0 ==> r == NatToString(t.minutes) + "m" + Remaining)
  {
    if endDate.None? || endDate.value == "" then NotAvailable
    else if diff <= 0 then Closed
    else
      var t := Split(diff);
      if t.days > 0 then NatToString(t.days) + "d " + NatToString(t.hours) + "h" + Remaining
      else if t.hours > 0 then NatToString(t.hours) + "h " + NatToString(t.minutes) + "m" + Remaining
      else NatToString(t.minutes) + "m" + Remaining
  }

  /** The split is unique: any days, hours below 24 and minutes below 60 that
      bracket the time left to within a minute are the ones `Split` finds. */
  lemma SplitUnique(diff: nat, t: TimeLeft)
    requires t.hours < 24 && t.minutes < 60
    requires t.days * MsPerDay + t.hours * MsPerHour + t.minutes * MsPerMinute <= diff
    requires diff < t.days * MsPerDay + t.hours * MsPerHour + t.minutes * MsPerMinute + MsPerMinute
    ensures Split(diff) == t
  {
    var total := (t.days * 24 + t.hours) * 60 + t.minutes;
    var rest := diff - total * MsPerMinute;
    assert diff == total * MsPerMinute + rest;
    var s := Split(diff);
    var total' := (s.days * 24 + s.hours) * 60 + s.minutes;
    var rest' := diff - total' * MsPerMinute;
    DivModUnique(diff, total, rest, MsPerMinute);
    DivModUnique(diff, total', rest', MsPerMinute);
    DivModUnique(total, t.days * 24 + t.hours, t.minutes, 60);
    DivModUnique(total, s.days * 24 + s.hours, s.minutes, 60);
    DivModUnique(t.days * 24 + t.hours, t.days, t.hours, 24);
    DivModUnique(s.days * 24 + s.hours, s.days, s.hours, 24);
  }

  /** Under a minute left still reads as running, as "0m remaining". */
  lemma LastMinuteShowsZero(endDate: string, diff: int)
    requires endDate != "" && 0 < diff < MsPerMinute
    ensures FormatTimeRemaining(Some(endDate), diff) == "0m remaining"
  {
    assert Split(diff) == TimeLeft(0, 0, 0) by {
      SplitUnique(diff, TimeLeft(0, 0, 0));
    }
  }

  /** Exactly one day left reads "1d 0h remaining". */
  lemma OneDayLeft(endDate: string)
    requires endDate != ""
    ensures FormatTimeRemaining(Some(endDate), MsPerDay) == "1d 0h remaining"
  {
    assert Split(MsPerDay) == TimeLeft(1, 0, 0) by {
      SplitUnique(MsPerDay, TimeLeft(1, 0, 0));
    }
  }
}
