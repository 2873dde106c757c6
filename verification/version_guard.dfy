/** The version guard compares timestamps as text; what that says about time. */
module VersionGuard {
  import opened Decimals

  /** Year, month, day, hour, minute, second, as a clock shows them. */
  type Clock = seq<nat>

  const WIDTHS: seq<nat> := [4, 2, 2, 2, 2, 2]
  const MARKS: seq<string> := ["-", "-", "T", ":", ":", ""]

  predicate Proper(c: Clock) {
    |c| == 6 && c[0] < 10_000 && forall i :: 1 <= i < 6 ==> c[i] < 100
  }

  /** The text from part k on, as RFC 3339 has it, less fraction and zone. */
  function Face(c: Clock, k: nat): string
    requires Proper(c) && k <= 6
    decreases 6 - k
  {
    if k == 6 then "" else Format(c[k], WIDTHS[k]) + (MARKS[k] + Face(c, k + 1))
  }

  /** Earlier, by the parts from k on. */
  predicate Before(a: Clock, b: Clock, k: nat)
    requires Proper(a) && Proper(b) && k <= 6
    decreases 6 - k
  {
    k < 6 && (a[k] < b[k] || (a[k] == b[k] && Before(a, b, k + 1)))
  }

  lemma {:induction false} LessAfter(a: string, b: string, x: string, y: string)
    requires |a| == |b|
    ensures Less(a + x, b + y) <==> Less(a, b) || (a == b && Less(x, y))
  {
    if a == "" {
      assert a + x == x && b + y == y;
    } else {
      assert (a + x)[1..] == a[1..] + x && (b + y)[1..] == b[1..] + y;
      LessAfter(a[1..], b[1..], x, y);
      assert a == [a[0]] + a[1..] && b == [b[0]] + b[1..];
    }
  }

  lemma {:induction false} WidthsHold(c: Clock, k: nat)
    requires Proper(c) && k < 6
    ensures WIDTHS[k] >= 1 && c[k] < Power(10, WIDTHS[k])
  {
    assert Power(10, 2) == 100;
    assert Power(10, 4) == 10_000;
  }

  lemma {:induction false} FaceStep(c: Clock, k: nat, x: string)
    requires Proper(c) && k <= 6
    ensures Face(c, k) + x == if k == 6 then x else Format(c[k], WIDTHS[k]) + (MARKS[k] + (Face(c, k + 1) + x))
  {
    hide Format;
    if k < 6 {
      Regroup(Format(c[k], WIDTHS[k]), MARKS[k], Face(c, k + 1), x);
    }
  }

  lemma {:induction false} Regroup(a: string, b: string, c: string, d: string)
    ensures (a + (b + c)) + d == a + (b + (c + d))
  {
  }

  /** Texts of two clocks compare as the clocks do, and then as what follows them. */
  lemma {:induction false} FacesCompare(a: Clock, b: Clock, k: nat, x: string, y: string)
    requires Proper(a) && Proper(b) && k <= 6
    ensures Less(Face(a, k) + x, Face(b, k) + y) <==> Before(a, b, k) || (a[k..] == b[k..] && Less(x, y))
    decreases 6 - k
  {
    hide Less, Format, Face;
    FaceStep(a, k, x);
    FaceStep(b, k, y);
    if k == 6 {
    } else {
      var m := MARKS[k];
      WidthsHold(a, k);
      WidthsHold(b, k);
      FormatsCompare(a[k], b[k], WIDTHS[k]);
      FacesCompare(a, b, k + 1, x, y);
      LessAfter(Format(a[k], WIDTHS[k]), Format(b[k], WIDTHS[k]), m + (Face(a, k + 1) + x), m + (Face(b, k + 1) + y));
      LessAfter(m, m, Face(a, k + 1) + x, Face(b, k + 1) + y);
      NotLessThanItself(m);
      assert a[k..] == [a[k]] + a[k + 1..] && b[k..] == [b[k]] + b[k + 1..];
    }
  }

  lemma {:induction false} NotLessThanItself(s: string)
    ensures !Less(s, s)
  {
    if s != "" {
      NotLessThanItself(s[1..]);
    }
  }

  /** The end of the provider's timestamps: UTC, with or without a fraction of a second. */
  predicate RemoteEnd(end: string) {
    end == "Z" || (|end| > 0 && end[0] == '.')
  }

  /** Z, or an offset such as +02:00. */
  predicate Zone(zone: string) {
    zone == "Z" || (|zone| > 0 && (zone[0] == '+' || zone[0] == '-'))
  }

  /** UpdatePageProperties refuses: the page's timestamp is the greater text. */
  predicate Refuses(current: string, expected: string) {
    expected != "" && current != "" && Less(expected, current)
  }

  /** The guard compares what the clocks show, to the second: fractions never count, and a page
      of the same second is refused exactly when the expected version is not in UTC. */
  lemma {:induction false} GuardReadsTheClocks(seen: Clock, zone: string, remote: Clock, end: string)
    requires Proper(seen) && Proper(remote) && Zone(zone) && RemoteEnd(end)
    ensures Refuses(Face(remote, 0) + end, Face(seen, 0) + zone) <==>
              Before(seen, remote, 0) || (seen == remote && zone != "Z")
  {
    FacesCompare(seen, remote, 0, zone, end);
    assert seen[0..] == seen && remote[0..] == remote;
    assert Less(zone, end) <==> zone != "Z" by {
      assert zone == "Z" && end == "Z" ==> !Less(zone[1..], end[1..]);
    }
  }

  /** In UTC that is the comparison of times in whole seconds. */
  lemma {:induction false} GuardInUtc(seen: Clock, remote: Clock, end: string)
    requires Proper(seen) && Proper(remote) && RemoteEnd(end)
    ensures Refuses(Face(remote, 0) + end, Face(seen, 0) + "Z") <==> Before(seen, remote, 0)
  {
    GuardReadsTheClocks(seen, "Z", remote, end);
  }

  // ---------------------------------------------------------------- the time a clock shows

  predicate Leap(year: nat) {
    year % 4 == 0 && (year % 100 != 0 || year % 400 == 0)
  }

  function MonthDays(year: nat, month: nat): nat {
    if month == 2 then (if Leap(year) then 29 else 28)
    else if month == 4 || month == 6 || month == 9 || month == 11 then 30
    else 31
  }

  /** Days of the year before the first of the month. */
  function DaysToMonth(year: nat, month: nat): nat {
    if month <= 1 then 0 else DaysToMonth(year, month - 1) + MonthDays(year, month - 1)
  }

  /** Days before the first of January. */
  function DaysToYear(year: nat): nat {
    if year == 0 then 0 else DaysToYear(year - 1) + DaysToMonth(year - 1, 13)
  }

  /** A clock shows a date that exists and a time of day. */
  predicate Valid(c: Clock) {
    && Proper(c) && 1 <= c[1] <= 12 && 1 <= c[2] <= MonthDays(c[0], c[1])
    && c[3] < 24 && c[4] < 60 && c[5] < 60
  }

  function Day(c: Clock): int
    requires Valid(c)
  {
    DaysToYear(c[0]) + DaysToMonth(c[0], c[1]) + c[2] - 1
  }

  function SecondOfDay(c: Clock): (s: nat)
    requires Valid(c)
    ensures s < 86_400
  {
    c[3] * 3600 + c[4] * 60 + c[5]
  }

  /** The instant of a clock that is this many minutes ahead of UTC. */
  function Instant(c: Clock, offset: int): int
    requires Valid(c)
  {
    Day(c) * 86_400 + SecondOfDay(c) - offset * 60
  }

  lemma {:induction false} MonthsAddUp(year: nat, month: nat, later: nat)
    requires 1 <= month < later
    ensures DaysToMonth(year, month) + MonthDays(year, month) <= DaysToMonth(year, later)
    decreases later
  {
    if month < later - 1 {
      MonthsAddUp(year, month, later - 1);
    }
  }

  lemma {:induction false} YearsAddUp(year: nat, later: nat)
    requires year < later
    ensures DaysToYear(year) + DaysToMonth(year, 13) <= DaysToYear(later)
    decreases later
  {
    if year < later - 1 {
      YearsAddUp(year, later - 1);
    }
  }

  /** A date before another is a smaller day. */
  lemma {:induction false} DatesAddUp(a: Clock, b: Clock)
    requires Valid(a) && Valid(b)
    requires a[0] < b[0] || (a[0] == b[0] && (a[1] < b[1] || (a[1] == b[1] && a[2] < b[2])))
    ensures Day(a) < Day(b)
  {
    hide MonthDays, DaysToMonth, DaysToYear;
    if a[0] < b[0] {
      MonthsAddUp(a[0], a[1], 13);
      YearsAddUp(a[0], b[0]);
    } else if a[1] < b[1] {
      MonthsAddUp(a[0], a[1], b[1]);
    }
  }

  lemma {:induction false} BeforeByParts(a: Clock, b: Clock)
    requires Proper(a) && Proper(b)
    ensures Before(a, b, 0) <==>
              || a[0] < b[0]
              || (a[0] == b[0] && (a[1] < b[1] || (a[1] == b[1] && (a[2] < b[2] || (a[2] == b[2] && Before(a, b, 3))))))
    ensures Before(a, b, 3) <==>
              a[3] < b[3] || (a[3] == b[3] && (a[4] < b[4] || (a[4] == b[4] && a[5] < b[5])))
  {
    assert Before(a, b, 2) <==> a[2] < b[2] || (a[2] == b[2] && Before(a, b, 3));
    assert Before(a, b, 5) <==> a[5] < b[5];
  }

  /** Of two clocks on one offset the one that shows less shows the earlier instant. */
  lemma {:induction false} BeforeIsEarlier(a: Clock, b: Clock, offset: int)
    requires Valid(a) && Valid(b)
    ensures Before(a, b, 0) ==> Instant(a, offset) < Instant(b, offset)
    ensures a != b ==> Before(a, b, 0) || Before(b, a, 0)
  {
    BeforeByParts(a, b);
    BeforeByParts(b, a);
    hide Before, MonthDays, DaysToMonth, DaysToYear;
    if a[0] == b[0] && a[1] == b[1] && a[2] == b[2] {
      assert a != b ==> a[3] != b[3] || a[4] != b[4] || a[5] != b[5];
    } else if Before(a, b, 0) {
      DatesAddUp(a, b);
    }
  }

  lemma {:induction false} EarlierExactly(a: Clock, b: Clock, offset: int)
    requires Valid(a) && Valid(b)
    ensures Before(a, b, 0) <==> Instant(a, offset) < Instant(b, offset)
    ensures a == b <==> Instant(a, offset) == Instant(b, offset)
  {
    hide Before, Instant;
    BeforeIsEarlier(a, b, offset);
    BeforeIsEarlier(b, a, offset);
  }

  // ---------------------------------------------------------------- the guard and time

  /** How RFC 3339 writes an offset in minutes: Z for none. */
  function ZoneText(offset: int): string {
    if offset == 0 then "Z"
    else
      var minutes := if offset < 0 then -offset else offset;
      (if offset < 0 then "-" else "+") + Format(minutes / 60, 2) + ":" + Format(minutes % 60, 2)
  }

  lemma {:induction false} ZoneTextIsAZone(offset: int)
    ensures Zone(ZoneText(offset)) && (ZoneText(offset) == "Z" <==> offset == 0)
  {
    hide Format;
    assert offset != 0 ==> ZoneText(offset)[0] == '-' || ZoneText(offset)[0] == '+';
  }

  /** The page is refused. seen is the expected version as a clock at offset shows it, remote the
      page's version as the provider's clock in UTC does. */
  predicate GuardRefuses(seen: Clock, offset: int, remote: Clock, end: string)
    requires Valid(seen) && Valid(remote)
  {
    Refuses(Face(remote, 0) + end, Face(seen, 0) + ZoneText(offset))
  }

  /** The guard compares the page's instant with the expected one shifted by the offset; an equal
      one is refused as well, unless the offset is zero. */
  lemma {:induction false} GuardIsOffByTheOffset(seen: Clock, offset: int, remote: Clock, end: string)
    requires Valid(seen) && Valid(remote) && RemoteEnd(end)
    ensures GuardRefuses(seen, offset, remote, end) <==>
              || Instant(seen, offset) + offset * 60 < Instant(remote, 0)
              || (Instant(seen, offset) + offset * 60 == Instant(remote, 0) && offset != 0)
  {
    hide Face, Refuses, Before, ZoneText;
    ZoneTextIsAZone(offset);
    GuardReadsTheClocks(seen, ZoneText(offset), remote, end);
    EarlierExactly(seen, remote, 0);
  }

  /** A clock in UTC one second from another, within the same minute. */
  function Nudged(c: Clock): (d: Clock)
    requires Valid(c)
    ensures Valid(d)
    ensures Instant(d, 0) == Instant(c, 0) + if c[5] == 0 then 1 else -1
  {
    var d := c[5 := if c[5] == 0 then 1 else c[5] - 1];
    assert Day(d) == Day(c);
    d
  }

  /** The guard tells later instants from others. */
  ghost predicate GuardIsRight(seen: Clock, offset: int, end: string)
    requires Valid(seen)
  {
    forall remote :: Valid(remote) ==>
                       (GuardRefuses(seen, offset, remote, end) <==> Instant(seen, offset) < Instant(remote, 0))
  }

  lemma {:induction false} SecondsAgree(seen: Clock, offset: int, utc: Clock)
    requires Valid(seen) && Valid(utc) && Instant(utc, 0) == Instant(seen, offset)
    ensures seen[5] == utc[5]
  {
    hide Day, MonthDays, DaysToMonth, DaysToYear;
    var a, b := Day(utc) * 1440 + utc[3] * 60 + utc[4], Day(seen) * 1440 + seen[3] * 60 + seen[4] - offset;
    assert 60 * a + utc[5] == 60 * b + seen[5];
  }

  /** A version that a clock at some other offset shows, and what it gets wrong: behind UTC the page
      is refused although nothing changed; ahead of it, a later edit is let through. */
  lemma {:induction false} OffsetMisleads(seen: Clock, offset: int, utc: Clock, end: string) returns (remote: Clock)
    requires Valid(seen) && Valid(utc) && RemoteEnd(end) && offset != 0
    requires Instant(utc, 0) == Instant(seen, offset)
    ensures Valid(remote)
    ensures offset < 0 ==> remote == utc && GuardRefuses(seen, offset, remote, end)
    ensures offset > 0 ==>
              !GuardRefuses(seen, offset, remote, end)
              && Instant(seen, offset) < Instant(remote, 0) < Instant(seen, offset) + offset * 60
  {
    hide GuardRefuses, Valid, Instant;
    if offset < 0 {
      remote := utc;
    } else {
      SecondsAgree(seen, offset, utc);
      InstantOnOffset(seen, offset);
      remote := if seen[5] == 0 then Nudged(utc) else Nudged(seen);
    }
    GuardIsOffByTheOffset(seen, offset, remote, end);
  }

  lemma {:induction false} InstantOnOffset(c: Clock, offset: int)
    requires Valid(c)
    ensures Instant(c, 0) == Instant(c, offset) + offset * 60 && |c| == 6
  {
  }

  /** For every version the ledger holds, the guard refuses exactly the pages edited later, whatever
      the edit, if and only if the version is written in UTC. */
  lemma {:induction false} GuardIsRightExactly(seen: Clock, offset: int, utc: Clock, end: string)
    requires Valid(seen) && Valid(utc) && RemoteEnd(end)
    requires Instant(utc, 0) == Instant(seen, offset)
    ensures GuardIsRight(seen, offset, end) <==> ZoneText(offset) == "Z"
  {
    hide GuardRefuses, Valid, Instant, ZoneText;
    ZoneTextIsAZone(offset);
    if offset == 0 {
      forall remote | Valid(remote)
        ensures GuardRefuses(seen, offset, remote, end) <==> Instant(seen, offset) < Instant(remote, 0)
      {
        GuardIsOffByTheOffset(seen, offset, remote, end);
      }
    } else {
      var remote := OffsetMisleads(seen, offset, utc, end);
      assert GuardRefuses(seen, offset, remote, end) <==> !(Instant(seen, offset) < Instant(remote, 0));
    }
  }

  lemma {:induction false} ThreeClocks()
    ensures var seen, utc, remote := [2026, 1, 2, 12, 0, 0], [2026, 1, 2, 10, 0, 0], [2026, 1, 2, 11, 0, 0];
            && Valid(seen) && Valid(utc) && Valid(remote)
            && Instant(utc, 0) == Instant(seen, 120)
            && Instant(remote, 0) == Instant(seen, 120) + 3600
  {
    var seen, utc, remote := [2026, 1, 2, 12, 0, 0], [2026, 1, 2, 10, 0, 0], [2026, 1, 2, 11, 0, 0];
    hide DaysToYear, DaysToMonth, Leap;
    assert Valid(seen) && Valid(utc) && Valid(remote);
    assert Day(seen) == Day(utc) == Day(remote);
  }

  /** Noon at +02:00 is ten o'clock UTC, and so hides an edit of eleven. */
  lemma {:induction false} OffsetHidesAnEdit()
    ensures var seen, utc, remote := [2026, 1, 2, 12, 0, 0], [2026, 1, 2, 10, 0, 0], [2026, 1, 2, 11, 0, 0];
            && Valid(seen) && Valid(utc) && Valid(remote)
            && Instant(seen, 120) == Instant(utc, 0) < Instant(remote, 0)
            && !GuardRefuses(seen, 120, remote, ".000Z")
  {
    hide Valid, Instant, GuardRefuses;
    ThreeClocks();
    GuardIsOffByTheOffset([2026, 1, 2, 12, 0, 0], 120, [2026, 1, 2, 11, 0, 0], ".000Z");
  }
}
