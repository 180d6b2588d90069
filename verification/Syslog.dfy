/**
  Syslog lines: the printer of the BSD form, and the parser that tries the IETF form, the BSD form and the form
  relays rewrite the BSD form to, each a pattern for the backtracking matcher.
 */
module Syslog {
  import opened Sequences
  import opened Regex

  const SEVERITIES: seq<string> := ["emerg", "alert", "crit", "err", "warning", "notice", "info", "debug"]

  const FACILITIES: seq<string> :=
    ["kern", "user", "mail", "daemon", "auth", "syslog", "lpr", "news", "uucp", "cron", "authpriv", "ftp", "ntp",
     "audit", "alert", "clock", "local0", "local1", "local2", "local3", "local4", "local5", "local6", "local7"]

  const LOCAL0: nat := 16

  // --------------------------------------------------------------- patterns

  function Field(g: Group, k: Class): Node {
    Capture(g, Step(Many(k), Done))
  }

  function Gap(p: Pattern): Pattern {
    Step(Many(Space), p)
  }

  function Bracketed(): Pattern {
    Step(Lit('['), Step(Many(Digit), Step(Lit(']'), Done)))
  }

  function TagPattern(): Pattern {
    Step(Many(TagChar), Step(Maybe(Bracketed()), Done))
  }

  function MessagePattern(): Pattern {
    Step(Any(Space), Step(Capture(Msg, Step(Any(NotNewline), Done)), Step(End, Done)))
  }

  function AfterTag(): Pattern {
    Step(Run(Is(':'), 0, Some(1), true), MessagePattern())
  }

  function AfterHost(): Pattern {
    Gap(Step(Capture(Tag, TagPattern()), AfterTag()))
  }

  function AfterStamp(): Pattern {
    Gap(Step(Field(Host, NonSpace), AfterHost()))
  }

  function Clock(p: Pattern): Pattern {
    Step(Exactly(Digit, 2), Step(Lit(':'), Step(Exactly(Digit, 2), Step(Lit(':'), Step(Exactly(Digit, 2), p)))))
  }

  function BsdStamp(): Pattern {
    Step(Exactly(Word, 3), Gap(Step(Many(Digit), Gap(Clock(Done)))))
  }

  function IsoStamp(): Pattern {
    Step(Exactly(Digit, 4), Step(Lit('-'), Step(Exactly(Digit, 2), Step(Lit('-'), Step(Exactly(Digit, 2), Step(Lit('T'),
    Clock(Step(Maybe(Step(Lit('.'), Step(Many(Digit), Done))),
          Step(Alt(Step(Lit('Z'), Done),
                   Step(Exactly(Sign, 1), Step(Exactly(Digit, 2), Step(Run(Is(':'), 0, Some(1), true), Step(Exactly(Digit, 2), Done))))),
               Done)))))))))
  }

  function Header(p: Pattern): Pattern {
    Step(Lit('<'), Step(Field(Pri, Digit), Step(Lit('>'), p)))
  }

  function Rfc3164(): Pattern {
    Header(Step(Capture(Stamp, BsdStamp()), AfterStamp()))
  }

  function Rfc3164Iso(): Pattern {
    Header(Step(Capture(Stamp, IsoStamp()), AfterStamp()))
  }

  function StructuredData(): Pattern {
    Step(Alt(Step(Lit('-'), Done), Step(Lit('['), Step(Run(NotNewline, 0, None, false), Step(Lit(']'), Done)))), Done)
  }

  function AfterVersion(): Pattern {
    Gap(Step(Field(Stamp, NonSpace), Gap(Step(Field(Host, NonSpace), Gap(Step(Field(App, NonSpace),
    Gap(Step(Field(ProcId, NonSpace), Gap(Step(Field(MsgId, NonSpace), Gap(Step(Capture(Data, StructuredData()), MessagePattern()))))))))))))
  }

  function Rfc5424(): Pattern {
    Header(Step(Field(Ver, Digit), AfterVersion()))
  }

  // ---------------------------------------------------------------- numbers

  function DigitOf(n: nat): char
    requires n < 10
  {
    '0' + n as char
  }

  function Decimal(n: nat): string {
    if n < 10 then [DigitOf(n)] else Decimal(n / 10) + [DigitOf(n % 10)]
  }

  function IntOf(s: string): nat {
    if s == "" then 0
    else IntOf(s[..|s| - 1]) * 10 + (if IsDigit(Last(s)) then DigitValue(Last(s)) else 0)
  }

  lemma {:induction false} DecimalRoundTrip(n: nat)
    ensures IntOf(Decimal(n)) == n && All(Decimal(n), Digit) && |Decimal(n)| >= 1
  {
    if n >= 10 {
      DecimalRoundTrip(n / 10);
      assert Decimal(n)[..|Decimal(n)| - 1] == Decimal(n / 10);
    } else {
      assert Decimal(n)[..0] == "";
    }
  }

  // ----------------------------------------------------------------- parser

  function ParsePri(pri: string): (string, string) {
    var n := IntOf(pri);
    (if n / 8 < |FACILITIES| then FACILITIES[n / 8] else "unknown", SEVERITIES[n % 8])
  }

  datatype Form = Ietf | Bsd | BsdIso

  datatype Parsed =
    | ParseError
    | Parsed(form: Form, stamp: string, host: string, facility: string, severity: string, tag: string, message: string)

  function Get(caps: Captures, g: Group): string {
    if g in caps then caps[g] else ""
  }

  function Fields(form: Form, caps: Captures): Parsed {
    var (facility, severity) := ParsePri(Get(caps, Pri));
    Parsed(form, Get(caps, Stamp), Get(caps, Host), facility, severity, Get(caps, if form == Ietf then App else Tag), Get(caps, Msg))
  }

  function ParseMessage(raw: string): Parsed {
    var ietf := Match(Rfc5424(), raw, map[]);
    if ietf.Some? then Fields(Ietf, ietf.value)
    else
      var bsd := Match(Rfc3164(), raw, map[]);
      if bsd.Some? then Fields(Bsd, bsd.value)
      else
        var iso := Match(Rfc3164Iso(), raw, map[]);
        if iso.Some? then Fields(BsdIso, iso.value) else ParseError
  }

  // ---------------------------------------------------------------- printer

  const MONTHS: seq<string> := ["Jan", "Feb", "Mar", "Apr", "May", "Jun", "Jul", "Aug", "Sep", "Oct", "Nov", "Dec"]

  datatype DateTime = DateTime(month: nat, day: nat, hour: nat, minute: nat, second: nat) {
    predicate Valid() {
      month < 12 && 1 <= day <= 31 && hour < 24 && minute < 60 && second < 60
    }
  }

  function TwoDigits(n: nat): string
    requires n < 100
  {
    [DigitOf(n / 10), DigitOf(n % 10)]
  }

  /** Two figures that read as the number. */
  lemma TwoDigitsRoundTrip(n: nat)
    requires n < 100
    ensures |TwoDigits(n)| == 2 && All(TwoDigits(n), Digit) && IntOf(TwoDigits(n)) == n
  {
    var s := TwoDigits(n);
    assert s[..1] == [DigitOf(n / 10)] && s[..1][..0] == "";
    assert IntOf(s[..1]) == n / 10;
  }

  /** The day padded with a space, the clock with zeros. */
  function StampOf(t: DateTime): string
    requires t.Valid()
  {
    MONTHS[t.month] + " " + (if t.day < 10 then " " else "") + Decimal(t.day) + " "
    + TwoDigits(t.hour) + ":" + TwoDigits(t.minute) + ":" + TwoDigits(t.second)
  }

  function Line(pri: nat, stamp: string, host: string, tag: string, msg: string): string {
    "<" + Decimal(pri) + ">" + stamp + " " + host + " " + tag + ": " + msg
  }

  function BuildRfc3164(host: string, tag: string, severity: nat, msg: string, now: DateTime): string
    requires now.Valid()
  {
    Line(LOCAL0 * 8 + severity, StampOf(now), host, tag, msg)
  }

  // -------------------------------------------------------- well-formed text

  predicate HostOk(host: string) {
    host != "" && All(host, NonSpace)
  }

  /** A name without ':', '[' or white space, and perhaps a process number in brackets. */
  ghost predicate TagOk(tag: string) {
    exists name, pid :: IsTag(tag, name, pid)
  }

  predicate IsTag(tag: string, name: string, pid: string) {
    tag == name + pid && name != "" && All(name, TagChar) && (pid == "" || IsPid(pid))
  }

  predicate IsPid(pid: string) {
    |pid| >= 3 && pid[0] == '[' && pid[|pid| - 1] == ']' && All(pid[1..|pid| - 1], Digit)
  }

  predicate MessageOk(msg: string) {
    All(msg, NotNewline) && (msg != "" ==> !IsSpace(msg[0]))
  }
}
