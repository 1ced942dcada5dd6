/**
  The integer part of the `humanizeDuration` template helper: for a duration
  `v` with `|v| >= 1` second it takes the sign, cuts `|v|` to whole seconds
  `n = int64(|v|)`, splits `n` into days, hours, minutes and seconds with
  Go's truncating `/` and `%`, and writes the largest non-zero unit first.
  The float itself is not modelled: a call is described by the sign, by `n`
  and by the text Go's `%.4g` verb makes of `|v|`, which only the
  under-a-minute form prints.
 */
module Duration {
  import opened Wrappers
  import opened GoInt
  import opened Decimal

  const SecondsPerMinute: nat := 60
  const MinutesPerHour: nat := 60
  const HoursPerDay: nat := 24
  /** `SecondsPerMinute * MinutesPerHour`. */
  const SecondsPerHour: nat := 3600
  /** `SecondsPerHour * HoursPerDay`. */
  const SecondsPerDay: nat := 86400

  /** The four components `humanizeDuration` computes from the whole second count. */
  datatype Parts = Parts(days: nat, hours: nat, minutes: nat, seconds: nat)

  /** Whether `p` is a well-formed split of `n` seconds: each unit below its carry point, summing to `n`. */
  predicate IsSplitOf(p: Parts, n: int) {
    && p.seconds < SecondsPerMinute
    && p.minutes < MinutesPerHour
    && p.hours < HoursPerDay
    && p.days * 86400 + p.hours * 3600 + p.minutes * 60 + p.seconds == n
  }

  /**
    The split of a whole, positive second count `n`:
    `seconds = n % 60`, `minutes = (n / 60) % 60`, `hours = (n / 60 / 60) % 24`,
    `days = n / 60 / 60 / 24`.
   */
  function Decompose(n: int64): (p: Parts)
    requires n >= 1
    ensures IsSplitOf(p, n as int)
  {
    var v := n as int;
    var toMinutes := Quot(v, 60);
    var toHours := Quot(toMinutes, 60);
    var p := Parts(Quot(toHours, 24), Rem(toHours, 24), Rem(toMinutes, 60), Rem(v, 60));
    assert toHours == 24 * p.days + p.hours;
    assert toMinutes == 60 * toHours + p.minutes;
    assert v == 60 * toMinutes + p.seconds;
    p
  }

  /**
    The split is the only one: any well-formed split of `n` is the one
    `Decompose` computes.
   */
  lemma DecomposeUnique(n: int64, p: Parts)
    requires n >= 1
    requires IsSplitOf(p, n as int)
    ensures p == Decompose(n)
  {
    var v := n as int;
    var toMinutes := p.days * 1440 + p.hours * 60 + p.minutes;
    var toHours := p.days * 24 + p.hours;
    assert v == 60 * toMinutes + p.seconds;
    QuotUnique(v, 60, toMinutes);
    assert toMinutes == 60 * toHours + p.minutes;
    QuotUnique(toMinutes, 60, toHours);
    QuotUnique(toHours, 24, p.days);
  }

  /** In a well-formed split a unit is non-zero exactly when the total reaches one of that unit. */
  lemma SplitMagnitude(p: Parts, n: int)
    requires IsSplitOf(p, n)
    ensures p.days != 0 <==> n >= SecondsPerDay
    ensures p.days == 0 ==> (p.hours != 0 <==> n >= SecondsPerHour)
    ensures p.days == 0 && p.hours == 0 ==> (p.minutes != 0 <==> n >= SecondsPerMinute)
  {
    assert SecondsPerHour == 3600 && SecondsPerDay == 86400;
    var belowMinute := p.seconds;
    var belowHour := p.minutes * 60 + belowMinute;
    var belowDay := p.hours * 3600 + belowHour;
    assert belowHour < 3600 by {
      assert p.minutes * 60 <= 59 * 60;
    }
    assert belowDay < 86400 by {
      assert p.hours * 3600 <= 23 * 3600;
    }
    assert n == p.days * 86400 + belowDay;
    if p.days != 0 {
      assert p.days * 86400 >= 86400;
    }
    if p.hours != 0 {
      assert p.hours * 3600 >= 3600;
    }
    if p.minutes != 0 {
      assert p.minutes * 60 >= 60;
    }
  }

  /**
    The shape of the text: which units it shows, led by the largest non-zero
    one, and the numbers it shows for them. `SecondsOnly` is the under-a-minute
    form, which prints `|v|` with four significant digits instead of a count.
   */
  datatype Layout =
    | DaysForm(days: nat, hours: nat, minutes: nat, seconds: nat)
    | HoursForm(hours: nat, minutes: nat, seconds: nat)
    | MinutesForm(minutes: nat, seconds: nat)
    | SecondsOnly

  /** The number of seconds the counts of a layout add up to (none for `SecondsOnly`). */
  function Shown(l: Layout): nat {
    match l
    case DaysForm(d, h, m, s) => d * SecondsPerDay + h * SecondsPerHour + m * SecondsPerMinute + s
    case HoursForm(h, m, s) => h * SecondsPerHour + m * SecondsPerMinute + s
    case MinutesForm(m, s) => m * SecondsPerMinute + s
    case SecondsOnly => 0
  }

  /**
    The layout `humanizeDuration` picks for `n` whole seconds: days when the
    day count is non-zero, else hours when the hour count is, else minutes
    when the minute count is, else the seconds-only form. Which form that is
    depends on the magnitude of `n` alone, and the counts a form shows are
    the well-formed split of `n` (the only one, by `DecomposeUnique`), with
    the units the form leaves out being zero.
   */
  function LayoutOf(n: int64): (l: Layout)
    requires n >= 1
    ensures l.DaysForm? <==> n as int >= SecondsPerDay
    ensures l.HoursForm? <==> SecondsPerHour <= n as int < SecondsPerDay
    ensures l.MinutesForm? <==> SecondsPerMinute <= n as int < SecondsPerHour
    ensures l.SecondsOnly? <==> n as int < SecondsPerMinute
    ensures !l.SecondsOnly? ==> Shown(l) == n as int
    ensures l.DaysForm? ==> IsSplitOf(Parts(l.days, l.hours, l.minutes, l.seconds), n as int)
    ensures l.HoursForm? ==> IsSplitOf(Parts(0, l.hours, l.minutes, l.seconds), n as int)
    ensures l.MinutesForm? ==> IsSplitOf(Parts(0, 0, l.minutes, l.seconds), n as int)
  {
    var p := Decompose(n);
    SplitMagnitude(p, n as int);
    if p.days != 0 then DaysForm(p.days, p.hours, p.minutes, p.seconds)
    else if p.hours != 0 then HoursForm(p.hours, p.minutes, p.seconds)
    else if p.minutes != 0 then MinutesForm(p.minutes, p.seconds)
    else SecondsOnly
  }

  function Sign(negative: bool): string {
    if negative then "-" else ""
  }

  /**
    The text for a layout after the sign: `"%dd %dh %dm %ds"`, `"%dh %dm %ds"`,
    `"%dm %ds"` or `"%.4gs"`, where `g4` is the `%.4g` text of `|v|`.
   */
  function Unsigned(l: Layout, g4: string): (r: string)
    ensures |r| > 0 && r[|r| - 1] == 's'
    ensures !l.SecondsOnly? ==> IsDigit(r[0])
  {
    match l
    case DaysForm(d, h, m, s) =>
      var r := NatToString(d) + "d " + NatToString(h) + "h " + NatToString(m) + "m " + NatToString(s) + "s";
      assert r[0] == NatToString(d)[0];
      r
    case HoursForm(h, m, s) =>
      var r := NatToString(h) + "h " + NatToString(m) + "m " + NatToString(s) + "s";
      assert r[0] == NatToString(h)[0];
      r
    case MinutesForm(m, s) =>
      var r := NatToString(m) + "m " + NatToString(s) + "s";
      assert r[0] == NatToString(m)[0];
      r
    case SecondsOnly => g4 + "s"
  }

  /**
    The whole text: `"-"` for a negative duration, then the layout; a counted
    layout of a non-negative duration starts with a digit instead, and every
    text ends with the seconds unit `s`.
   */
  function Render(negative: bool, l: Layout, g4: string): (r: string)
    ensures negative ==> |r| > 0 && r[0] == '-'
    ensures !negative && !l.SecondsOnly? ==> |r| > 0 && IsDigit(r[0])
    ensures |r| > 0 && r[|r| - 1] == 's'
  {
    Sign(negative) + Unsigned(l, g4)
  }

  /**
    `humanizeDuration(v)` for `|v| >= 1`: `negative` is `v < 0`, `n` is
    `int64(|v|)` and `g4` is the `%.4g` text of `|v|`.
   */
  function HumanizeDuration(negative: bool, n: int64, g4: string): (s: string)
    requires n >= 1
    ensures n as int >= SecondsPerMinute ==> |s| > 0 && (if negative then s[0] == '-' else IsDigit(s[0]))
    ensures |s| > 0 && s[|s| - 1] == 's'
  {
    var l := LayoutOf(n);
    assert n as int >= SecondsPerMinute ==> !l.SecondsOnly?;
    Render(negative, l, g4)
  }

  /** Under a minute the text is the sign, the `%.4g` text of `|v|` and `s`. */
  lemma HumanizeDurationUnderMinute(negative: bool, n: int64, g4: string)
    requires 1 <= n as int < SecondsPerMinute
    ensures HumanizeDuration(negative, n, g4) == Sign(negative) + g4 + "s"
  {
    assert LayoutOf(n) == SecondsOnly;
    RenderSecondsOnly(negative, g4);
  }

  /** The seconds-only layout renders as the sign, the `%.4g` text and `s`. */
  lemma RenderSecondsOnly(negative: bool, g4: string)
    ensures Render(negative, SecondsOnly, g4) == Sign(negative) + g4 + "s"
  {
    assert Render(negative, SecondsOnly, g4) == Sign(negative) + (g4 + "s");
  }

  /**
    From a minute on, the text is the sign followed by the counted groups of
    the layout, largest unit first.
   */
  lemma HumanizeDurationIsJoin(negative: bool, n: int64, g4: string)
    requires n as int >= SecondsPerMinute
    ensures HumanizeDuration(negative, n, g4) == Sign(negative) + JoinGroups(GroupsOf(LayoutOf(n)))
  {
    UnsignedIsJoin(LayoutOf(n), g4);
  }

  /**
    The text starts with a minus sign exactly when the duration is negative
    (the `%.4g` text of the positive `|v|` never starts with one).
   */
  lemma SignLeads(negative: bool, n: int64, g4: string)
    requires n >= 1
    requires g4 == [] || g4[0] != '-'
    ensures HumanizeDuration(negative, n, g4)[0] == '-' <==> negative
  {
    var l := LayoutOf(n);
    if l.SecondsOnly? && !negative {
      var s := HumanizeDuration(negative, n, g4);
      assert s == g4 + "s";
      assert s[0] != '-';
    }
  }

  lemma JoinGroupsLeadsWithDigit(gs: seq<Group>)
    requires |gs| > 0
    ensures |JoinGroups(gs)| > 0 && IsDigit(JoinGroups(gs)[0])
  {
    assert JoinGroups(gs)[0] == NatToString(gs[0].count)[0];
  }

  // Reading the text back.

  /** One `<count><unit>` group of the text, such as `5m`. */
  datatype Group = Group(count: nat, unit: char)

  /** Groups written one after another, separated by single spaces. */
  function JoinGroups(gs: seq<Group>): string {
    if gs == [] then ""
    else if |gs| == 1 then NatToString(gs[0].count) + [gs[0].unit]
    else NatToString(gs[0].count) + [gs[0].unit] + " " + JoinGroups(gs[1..])
  }

  /** Reads space-separated `<count><unit>` groups, failing on anything else. */
  function ParseGroups(s: string): Option<seq<Group>>
    decreases |s|
  {
    match ReadNat(s)
    case None => None
    case Some((count, rest)) =>
      if rest == [] then None
      else if |rest| == 1 then Some([Group(count, rest[0])])
      else if rest[1] != ' ' then None
      else match ParseGroups(rest[2..])
        case None => None
        case Some(gs) => Some([Group(count, rest[0])] + gs)
  }

  /** One group alone reads back as itself. */
  lemma ParseOneGroup(g: Group)
    requires !IsDigit(g.unit)
    ensures ParseGroups(NatToString(g.count) + [g.unit]) == Some([g])
  {
    ReadNatOfNatToString(g.count, [g.unit]);
  }

  /** A group followed by a space and more text reads as that group, then whatever the text reads as. */
  lemma ParseGroupThenMore(g: Group, more: string)
    requires !IsDigit(g.unit)
    ensures ParseGroups(NatToString(g.count) + ([g.unit] + " " + more))
         == match ParseGroups(more) case None => None case Some(gs) => Some([g] + gs)
  {
    var tail := [g.unit] + " " + more;
    ReadNatOfNatToString(g.count, tail);
    assert tail[0] == g.unit && tail[1] == ' ' && tail[2..] == more;
  }

  /** Space-separated groups whose units are not digits read back as themselves. */
  lemma {:induction false} ParseJoinGroups(gs: seq<Group>)
    requires |gs| > 0
    requires forall i :: 0 <= i < |gs| ==> !IsDigit(gs[i].unit)
    ensures ParseGroups(JoinGroups(gs)) == Some(gs)
    decreases |gs|
  {
    var g := gs[0];
    if |gs| == 1 {
      ParseOneGroup(g);
      assert gs == [g];
    } else {
      var more := JoinGroups(gs[1..]);
      assert JoinGroups(gs) == NatToString(g.count) + ([g.unit] + " " + more);
      ParseGroupThenMore(g, more);
      ParseJoinGroups(gs[1..]);
      assert [g] + gs[1..] == gs;
    }
  }

  /** The groups a counted layout is written as. */
  function GroupsOf(l: Layout): seq<Group>
    requires !l.SecondsOnly?
  {
    match l
    case DaysForm(d, h, m, s) => [Group(d, 'd'), Group(h, 'h'), Group(m, 'm'), Group(s, 's')]
    case HoursForm(h, m, s) => [Group(h, 'h'), Group(m, 'm'), Group(s, 's')]
    case MinutesForm(m, s) => [Group(m, 'm'), Group(s, 's')]
  }

  /** The counted layout a sequence of groups spells, if any. */
  function LayoutOfGroups(gs: seq<Group>): Option<Layout> {
    if |gs| == 4 && gs[0].unit == 'd' && gs[1].unit == 'h' && gs[2].unit == 'm' && gs[3].unit == 's' then
      Some(DaysForm(gs[0].count, gs[1].count, gs[2].count, gs[3].count))
    else if |gs| == 3 && gs[0].unit == 'h' && gs[1].unit == 'm' && gs[2].unit == 's' then
      Some(HoursForm(gs[0].count, gs[1].count, gs[2].count))
    else if |gs| == 2 && gs[0].unit == 'm' && gs[1].unit == 's' then
      Some(MinutesForm(gs[0].count, gs[1].count))
    else None
  }

  /** Reads a days, hours or minutes text back into its sign and layout. */
  function ParseDuration(s: string): Option<(bool, Layout)> {
    var negative := |s| > 0 && s[0] == '-';
    var body := if negative then s[1..] else s;
    match ParseGroups(body)
    case None => None
    case Some(gs) =>
      match LayoutOfGroups(gs)
      case None => None
      case Some(l) => Some((negative, l))
  }

  lemma JoinMinutes(m: nat, s: nat)
    ensures NatToString(m) + "m " + NatToString(s) + "s" == JoinGroups([Group(m, 'm'), Group(s, 's')])
  {
    var gs := [Group(m, 'm'), Group(s, 's')];
    assert gs[1..] == [Group(s, 's')];
  }

  lemma JoinHours(h: nat, m: nat, s: nat)
    ensures NatToString(h) + "h " + NatToString(m) + "m " + NatToString(s) + "s"
         == JoinGroups([Group(h, 'h'), Group(m, 'm'), Group(s, 's')])
  {
    var gs := [Group(h, 'h'), Group(m, 'm'), Group(s, 's')];
    assert gs[1..] == [Group(m, 'm'), Group(s, 's')];
    JoinMinutes(m, s);
  }

  lemma JoinDays(d: nat, h: nat, m: nat, s: nat)
    ensures NatToString(d) + "d " + NatToString(h) + "h " + NatToString(m) + "m " + NatToString(s) + "s"
         == JoinGroups([Group(d, 'd'), Group(h, 'h'), Group(m, 'm'), Group(s, 's')])
  {
    var gs := [Group(d, 'd'), Group(h, 'h'), Group(m, 'm'), Group(s, 's')];
    assert gs[1..] == [Group(h, 'h'), Group(m, 'm'), Group(s, 's')];
    JoinHours(h, m, s);
  }

  /** A counted layout is written as its groups separated by single spaces. */
  lemma UnsignedIsJoin(l: Layout, g4: string)
    requires !l.SecondsOnly?
    ensures Unsigned(l, g4) == JoinGroups(GroupsOf(l))
  {
    match l
    case DaysForm(d, h, m, s) => JoinDays(d, h, m, s);
    case HoursForm(h, m, s) => JoinHours(h, m, s);
    case MinutesForm(m, s) => JoinMinutes(m, s);
  }

  /** The groups of a counted layout spell that layout. */
  lemma LayoutOfGroupsOf(l: Layout)
    requires !l.SecondsOnly?
    ensures LayoutOfGroups(GroupsOf(l)) == Some(l)
  {
  }

  /** The sign reader takes off exactly the sign, when the rest does not start with `-`. */
  lemma SignSplit(negative: bool, body: string)
    requires body == [] || body[0] != '-'
    ensures var s := Sign(negative) + body;
      (|s| > 0 && s[0] == '-') == negative && (if negative then s[1..] else s) == body
  {
    var s := Sign(negative) + body;
    if negative {
      assert s[0] == '-' && s[1..] == body;
    } else {
      assert s == body;
    }
  }

  /** A signed counted layout reads back as its sign and itself. */
  lemma ParseSignedLayout(negative: bool, l: Layout)
    requires !l.SecondsOnly?
    ensures ParseDuration(Sign(negative) + JoinGroups(GroupsOf(l))) == Some((negative, l))
  {
    var gs := GroupsOf(l);
    var body := JoinGroups(gs);
    ParseJoinGroups(gs);
    JoinGroupsLeadsWithDigit(gs);
    LayoutOfGroupsOf(l);
    SignSplit(negative, body);
  }

  /**
    A duration of a minute or more is written without loss: its text reads
    back as the sign and the layout, whose counts add up to `n`.
   */
  lemma ParseHumanizeDuration(negative: bool, n: int64, g4: string)
    requires n as int >= SecondsPerMinute
    ensures var l := LayoutOf(n);
      ParseDuration(HumanizeDuration(negative, n, g4)) == Some((negative, l)) && Shown(l) == n as int
  {
    var l := LayoutOf(n);
    UnsignedIsJoin(l, g4);
    ParseSignedLayout(negative, l);
  }
}
