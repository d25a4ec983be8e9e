/** The two pure helpers of the dashboard script (api-gateway/public/scripts.js):
    `formatUptime` and the mapping from a service's status to its CSS class and icon. */
module Dashboard {
  import Router

  predicate IsDigit(c: char)
  {
    '0' <= c <= '9'
  }

  function DigitChar(d: nat): (c: char)
    requires d < 10
    ensures IsDigit(c) && c as int - '0' as int == d
  {
    ('0' as int + d) as char
  }

  function DigitValue(c: char): nat
    requires IsDigit(c)
  {
    c as int - '0' as int
  }

  /** `${n}` for a whole number: its decimal digits, without leading zeros. */
  function NatToString(n: nat): (s: string)
    ensures |s| > 0 && forall i :: 0 <= i < |s| ==> IsDigit(s[i])
    ensures n == 0 ==> s == "0"
    ensures n > 0 ==> s[0] != '0'
    decreases n
  {
    if n < 10 then [DigitChar(n)] else NatToString(n / 10) + [DigitChar(n % 10)]
  }

  /** An uptime split into days, hours, minutes and seconds. */
  datatype Span = Span(days: nat, hours: nat, minutes: nat, seconds: nat)

  /** The four `Math.floor` expressions of `formatUptime`, on whole seconds. */
  function Decompose(uptime: nat): (t: Span)
    ensures t.hours < 24 && t.minutes < 60 && t.seconds < 60
    ensures t.days * 86400 + t.hours * 3600 + t.minutes * 60 + t.seconds == uptime
  {
    var t := Span(uptime / 86400, (uptime % 86400) / 3600, (uptime % 3600) / 60, uptime % 60);
    assert uptime % 86400 == t.hours * 3600 + uptime % 3600 by {
      assert uptime == (uptime / 3600) * 3600 + uptime % 3600;
      assert uptime == (uptime / 86400) * 86400 + uptime % 86400;
      assert uptime / 3600 == (uptime / 86400) * 24 + (uptime % 86400) / 3600;
    }
    t
  }

  /** `formatUptime(uptime)`: the largest non-zero unit and every smaller one. */
  function FormatUptime(uptime: nat): (r: string)
    ensures ('d' in r) <==> uptime >= 86400
    ensures ('h' in r) <==> uptime >= 3600
    ensures ('m' in r) <==> uptime >= 60
    ensures 's' in r && r[|r| - 1] == 's'
  {
    var t := Decompose(uptime);
    var d, h, m, s := NatToString(t.days), NatToString(t.hours), NatToString(t.minutes), NatToString(t.seconds);
    NoLetters(d); NoLetters(h); NoLetters(m); NoLetters(s);
    if t.days > 0 then d + "d " + h + "h " + m + "m " + s + "s"
    else if t.hours > 0 then h + "h " + m + "m " + s + "s"
    else if t.minutes > 0 then m + "m " + s + "s"
    else s + "s"
  }

  lemma NoLetters(s: string)
    requires forall i :: 0 <= i < |s| ==> IsDigit(s[i])
    ensures 'd' !in s && 'h' !in s && 'm' !in s && 's' !in s && ' ' !in s
  {
  }

  /** The four shapes of the answer. */
  lemma FormatUptimeShapes(uptime: nat)
    ensures var t := Decompose(uptime);
            var r := FormatUptime(uptime);
            && (t.days > 0 ==> r == NatToString(t.days) + "d " + NatToString(t.hours) + "h "
                                    + NatToString(t.minutes) + "m " + NatToString(t.seconds) + "s")
            && (t.days == 0 && t.hours > 0 ==> r == NatToString(t.hours) + "h " + NatToString(t.minutes) + "m "
                                                   + NatToString(t.seconds) + "s")
            && (t.days == 0 && t.hours == 0 && t.minutes > 0 ==> r == NatToString(t.minutes) + "m " + NatToString(t.seconds) + "s")
            && (t.days == 0 && t.hours == 0 && t.minutes == 0 ==> r == NatToString(t.seconds) + "s")
  {
  }

  /** Seconds per unit letter of the answer. */
  function UnitSeconds(c: char): nat
  {
    if c == 'd' then 86400 else if c == 'h' then 3600 else if c == 'm' then 60 else if c == 's' then 1 else 0
  }

  predicate IsUnit(c: char)
  {
    c == 'd' || c == 'h' || c == 'm' || c == 's'
  }

  /** Reads an uptime text back: a run of digits is a number, a unit letter adds that
      number of units, anything else is a separator. */
  function ParseUptime(s: string): nat
  {
    Scan(s, 0, 0)
  }

  function Scan(s: string, number: nat, total: nat): nat
    decreases |s|
  {
    if s == [] then total
    else if IsDigit(s[0]) then Scan(s[1..], number * 10 + DigitValue(s[0]), total)
    else if IsUnit(s[0]) then Scan(s[1..], 0, total + number * UnitSeconds(s[0]))
    else Scan(s[1..], number, total)
  }

  lemma {:induction false} ScanNumber(n: nat, rest: string, total: nat)
    ensures Scan(NatToString(n) + rest, 0, total) == Scan(rest, n, total)
    decreases n
  {
    if n < 10 {
      assert ([DigitChar(n)] + rest)[1..] == rest;
    } else {
      var dig := DigitChar(n % 10);
      assert NatToString(n) + rest == NatToString(n / 10) + ([dig] + rest);
      ScanNumber(n / 10, [dig] + rest, total);
      assert ([dig] + rest)[1..] == rest;
    }
  }

  /** One component `<n><unit>` followed by an optional space. */
  lemma ScanComponent(n: nat, unit: char, sep: string, rest: string, total: nat)
    requires IsUnit(unit) && (sep == "" || sep == " ")
    ensures Scan(NatToString(n) + [unit] + sep + rest, 0, total) == Scan(rest, 0, total + n * UnitSeconds(unit))
  {
    assert NatToString(n) + [unit] + sep + rest == NatToString(n) + ([unit] + sep + rest);
    ScanNumber(n, [unit] + sep + rest, total);
    assert ([unit] + sep + rest)[1..] == sep + rest;
    if sep == " " {
      assert (sep + rest)[1..] == rest;
    }
  }

  /** Formatting loses nothing: reading the answer back gives the uptime. */
  lemma UptimeRoundTrip(uptime: nat)
    ensures ParseUptime(FormatUptime(uptime)) == uptime
  {
    var t := Decompose(uptime);
    if t.days > 0 {
      ReadDays(t.days, t.hours, t.minutes, t.seconds, 0);
    } else if t.hours > 0 {
      ReadHours(t.hours, t.minutes, t.seconds, 0);
    } else if t.minutes > 0 {
      ReadMinutes(t.minutes, t.seconds, 0);
    } else {
      ReadSeconds(t.seconds, 0);
    }
  }

  lemma ReadSeconds(s: nat, total: nat)
    ensures Scan(NatToString(s) + "s", 0, total) == total + s
  {
    ScanComponent(s, 's', "", [], total);
    assert NatToString(s) + "s" == NatToString(s) + ['s'] + "" + [];
  }

  lemma ReadMinutes(m: nat, s: nat, total: nat)
    ensures Scan(NatToString(m) + "m " + NatToString(s) + "s", 0, total) == total + m * 60 + s
  {
    var tail := NatToString(s) + "s";
    assert UnitSeconds('m') == 60;
    ScanComponent(m, 'm', " ", tail, total);
    ReadSeconds(s, total + m * 60);
    assert NatToString(m) + "m " + NatToString(s) + "s" == NatToString(m) + ['m'] + " " + tail;
  }

  lemma ReadHours(h: nat, m: nat, s: nat, total: nat)
    ensures Scan(NatToString(h) + "h " + NatToString(m) + "m " + NatToString(s) + "s", 0, total)
            == total + h * 3600 + m * 60 + s
  {
    var tail := NatToString(m) + "m " + NatToString(s) + "s";
    assert UnitSeconds('h') == 3600;
    ScanComponent(h, 'h', " ", tail, total);
    ReadMinutes(m, s, total + h * 3600);
    assert NatToString(h) + "h " + NatToString(m) + "m " + NatToString(s) + "s" == NatToString(h) + ['h'] + " " + tail;
  }

  lemma ReadDays(d: nat, h: nat, m: nat, s: nat, total: nat)
    ensures Scan(NatToString(d) + "d " + NatToString(h) + "h " + NatToString(m) + "m " + NatToString(s) + "s", 0, total)
            == total + d * 86400 + h * 3600 + m * 60 + s
  {
    var tail := NatToString(h) + "h " + NatToString(m) + "m " + NatToString(s) + "s";
    assert UnitSeconds('d') == 86400;
    ScanComponent(d, 'd', " ", tail, total);
    ReadHours(h, m, s, total + d * 86400);
    DaysText(NatToString(d), NatToString(h), NatToString(m), NatToString(s));
  }

  lemma DaysText(d: string, h: string, m: string, s: string)
    ensures d + "d " + h + "h " + m + "m " + s + "s" == d + ['d'] + " " + (h + "h " + m + "m " + s + "s")
  {
  }

  /** The card class of a service status: `service-status-online`,
      `service-status-offline`, and `service-status-error` for any other value. */
  function StatusClass(status: string): (c: string)
    ensures c == "service-status-" + (if status == "online" || status == "offline" then status else "error")
  {
    if status == "online" then "service-status-online"
    else if status == "offline" then "service-status-offline"
    else "service-status-error"
  }

  /** The Bootstrap icon of a service status. */
  function StatusIcon(status: string): (icon: string)
    ensures status == "online" ==> icon == "bi-check-circle-fill"
    ensures status == "offline" ==> icon == "bi-x-circle-fill"
    ensures status != "online" && status != "offline" ==> icon == "bi-exclamation-triangle-fill"
  {
    if status == "online" then "bi-check-circle-fill"
    else if status == "offline" then "bi-x-circle-fill"
    else "bi-exclamation-triangle-fill"
  }

  /** Class and icon always tell the same story: two statuses share a class exactly when
      they share an icon. */
  lemma ClassAndIconAgree(a: string, b: string)
    ensures StatusClass(a) == StatusClass(b) <==> StatusIcon(a) == StatusIcon(b)
  {
    var p := "service-status-";
    if StatusClass(a) == StatusClass(b) {
      assert StatusClass(a)[|p|..] == StatusClass(b)[|p|..];
    }
  }

  /** Every status the gateway's `/status` reports gets the class named after it. */
  lemma GatewayStatusesHaveOwnClass(p: Router.StatusProbe)
    ensures StatusClass(Router.StatusOf(p)) == "service-status-" + Router.StatusOf(p)
  {
  }
}
