/**
  A printed line is parsed back to what was printed exactly when its host, tag and message are well formed: the
  matcher finds them (forwards), and whatever it finds has that form (backwards).
 */
module SyslogRoundTrip {
  import opened Sequences
  import opened Regex
  import opened Syslog
  import SyslogHealth

  // -------------------------------------------------------------- one step

  lemma LitMatches(c: char, rest: Pattern, s: string, caps: Captures)
    ensures Match(Step(Lit(c), rest), [c] + s, caps) == Match(rest, s, caps)
  {
    ExactlyTakes(Is(c), rest, [c], s, caps);
  }

  lemma GapMatches(rest: Pattern, gap: string, s: string, caps: Captures)
    requires gap != "" && All(gap, Space) && (s != "" ==> !IsSpace(s[0])) && Match(rest, s, caps).Some?
    ensures Match(Gap(rest), gap + s, caps) == Match(rest, s, caps)
  {
    RunTakesAll(Space, 1, rest, gap, s, caps);
  }

  lemma FieldMatches(g: Group, k: Class, rest: Pattern, text: string, s: string, caps: Captures)
    requires text != "" && All(text, k) && (s != "" ==> !In(s[0], k)) && Match(rest, s, caps[g := text]).Some?
    ensures Match(Step(Field(g, k), rest), text + s, caps) == Match(rest, s, caps[g := text])
  {
    var close := Step(Close(g, text + s), rest);
    ConsumedIs(text, s);
    RunTakesAll(k, 1, close, text, s, caps);
    assert Join(Step(Many(k), Done), close) == Step(Many(k), close);
  }

  lemma CloseBracketIsNoDigit()
    ensures !In('>', Digit)
  {
  }

  lemma NoBracketYet(p: Pattern, from: string, digits: string, s: string, caps: Captures)
    requires digits != "" && In(digits[0], Digit)
    ensures Match(Step(Close(Pri, from), Step(Lit('>'), p)), digits + s, caps).None?
  {
    CloseBracketIsNoDigit();
    ExactlyFails(Is('>'), 1, p, digits + s, caps[Pri := Consumed(from, digits + s)]);
  }

  /** No shorter number can be read in its place. */
  lemma NumberFails(p: Pattern, digits: string, s: string, caps: Captures)
    requires All(digits, Digit) && Match(p, s, caps[Pri := digits]).None?
    ensures Match(Step(Field(Pri, Digit), Step(Lit('>'), p)), digits + (['>'] + s), caps).None?
  {
    var tail := ['>'] + s;
    var close := Step(Close(Pri, digits + tail), Step(Lit('>'), p));
    assert Match(Step(Field(Pri, Digit), Step(Lit('>'), p)), digits + tail, caps) == Match(Step(Many(Digit), close), digits + tail, caps) by {
      assert Join(Step(Many(Digit), Done), close) == Step(Many(Digit), close);
    }
    assert Match(close, tail, caps).None? by {
      ConsumedIs(digits, tail);
      LitMatches('>', p, s, caps[Pri := digits]);
    }
    hide Match, Join, Lit;
    CloseBracketIsNoDigit();
    forall n | 1 <= n <= |digits| ensures Match(close, digits[n..] + tail, caps).None? {
      if n < |digits| {
        NoBracketYet(p, digits + tail, digits[n..], tail, caps);
      } else {
        assert digits[n..] + tail == tail;
      }
    }
    RunFails(Digit, 1, close, digits, tail, caps);
  }

  /** The number after '<' is read whole or not at all, whatever follows. */
  lemma HeaderMatches(p: Pattern, pri: nat, s: string, caps: Captures)
    ensures Match(Header(p), "<" + Decimal(pri) + ">" + s, caps) == Match(p, s, caps[Pri := Decimal(pri)])
  {
    hide Match, Field, Lit, Decimal, In;
    var digits, rest := Decimal(pri), Step(Lit('>'), p);
    var tail := ['>'] + s;
    DecimalRoundTrip(pri);
    CloseBracketIsNoDigit();
    assert "<" + digits + ">" + s == ['<'] + (digits + tail);
    LitMatches('<', Step(Field(Pri, Digit), rest), digits + tail, caps);
    if Match(p, s, caps[Pri := digits]).Some? {
      LitMatches('>', p, s, caps[Pri := digits]);
      FieldMatches(Pri, Digit, rest, digits, tail, caps);
    } else {
      NumberFails(p, digits, s, caps);
    }
  }

  // ------------------------------------------------------ forwards: the tail

  /** Text that reads as the message: the message itself, or with a newline at its end. */
  predicate ReadsAs(text: string, msg: string) {
    MessageOk(msg) && (text == msg || text == msg + "\n")
  }

  lemma MessageStops(text: string, msg: string, caps: Captures)
    requires ReadsAs(text, msg)
    ensures Match(Step(Capture(Msg, Step(Any(NotNewline), Done)), Step(End, Done)), text, caps) == Some(caps[Msg := msg])
  {
    var close := Step(Close(Msg, text), Step(End, Done));
    var end := text[|msg|..];
    assert text == msg + end;
    ConsumedIs(msg, end);
    AtTheEnd(Msg, text, end, caps);
    RunTakesAll(NotNewline, 0, close, msg, end, caps);
    assert Join(Step(Any(NotNewline), Done), close) == Step(Any(NotNewline), close);
  }

  lemma MessageMatches(gap: string, text: string, msg: string, caps: Captures)
    requires All(gap, Space) && ReadsAs(text, msg)
    ensures Match(MessagePattern(), gap + text, caps) == Some(caps[Msg := msg])
  {
    var rest := Step(Capture(Msg, Step(Any(NotNewline), Done)), Step(End, Done));
    if text == "\n" {
      MessageStops("", "", caps);
      RunTakesAll(Space, 0, rest, gap + text, "", caps);
      assert gap + text + "" == gap + text;
    } else {
      MessageStops(text, msg, caps);
      RunTakesAll(Space, 0, rest, gap, text, caps);
    }
  }

  /** What may stand between tag and message. */
  predicate Separates(sep: string) {
    sep == ": " || sep == " "
  }

  lemma AfterTagMatches(sep: string, text: string, msg: string, caps: Captures)
    requires Separates(sep) && ReadsAs(text, msg)
    ensures Match(AfterTag(), sep + text, caps) == Some(caps[Msg := msg])
  {
    MessageMatches(" ", text, msg, caps);
    if sep == ": " {
      assert (": " + text)[1..] == " " + text;
    } else {
      assert (sep + text)[0] == ' ';
    }
  }

  lemma PidMatches(rest: Pattern, pid: string, s: string, caps: Captures)
    requires (pid == "" || IsPid(pid)) && s != "" && s[0] != '[' && Match(rest, s, caps).Some?
    ensures Match(Step(Maybe(Bracketed()), rest), pid + s, caps) == Match(rest, s, caps)
  {
    var more := Step(Many(Digit), Step(Lit(']'), rest));
    assert Join(Step(Lit(']'), Done), rest) == Step(Lit(']'), rest);
    assert Join(Step(Many(Digit), Step(Lit(']'), Done)), rest) == more;
    assert Join(Bracketed(), rest) == Step(Lit('['), more);
    if pid == "" {
      assert pid + s == s;
      ExactlyFails(Is('['), 1, more, s, caps);
    } else {
      var digits := pid[1..|pid| - 1];
      assert pid + s == ['['] + (digits + ([']'] + s));
      LitMatches(']', rest, s, caps);
      RunTakesAll(Digit, 1, Step(Lit(']'), rest), digits, [']'] + s, caps);
      LitMatches('[', more, digits + ([']'] + s), caps);
    }
  }

  lemma TagMatches(tag: string, sep: string, text: string, msg: string, caps: Captures)
    requires TagOk(tag) && Separates(sep) && ReadsAs(text, msg)
    ensures Match(Step(Capture(Tag, TagPattern()), AfterTag()), tag + (sep + text), caps) == Some(caps[Tag := tag][Msg := msg])
  {
    hide ReadsAs, AfterTag, IsPid;
    var name, pid :| IsTag(tag, name, pid);
    var tail := sep + text;
    var close := Step(Close(Tag, tag + tail), AfterTag());
    ConsumedIs(tag, tail);
    AfterTagMatches(sep, text, msg, caps[Tag := tag]);
    SeparatorEndsTag(sep, text);
    var rest := Step(Maybe(Bracketed()), close);
    assert Join(Step(Maybe(Bracketed()), Done), close) == rest;
    assert Join(TagPattern(), close) == Step(Many(TagChar), rest);
    assert Match(close, tail, caps) == Some(caps[Tag := tag][Msg := msg]);
    NameAndPidMatch(name, pid, close, tail, caps);
    assert tag + tail == name + (pid + tail);
  }

  lemma SeparatorEndsTag(sep: string, text: string)
    requires Separates(sep)
    ensures sep + text != "" && (sep + text)[0] != '[' && !In((sep + text)[0], TagChar)
  {
  }

  lemma NameAndPidMatch(name: string, pid: string, rest: Pattern, s: string, caps: Captures)
    requires name != "" && All(name, TagChar) && (pid == "" || IsPid(pid))
    requires s != "" && s[0] != '[' && !In(s[0], TagChar) && Match(rest, s, caps).Some?
    ensures Match(Step(Many(TagChar), Step(Maybe(Bracketed()), rest)), name + (pid + s), caps) == Match(rest, s, caps)
  {
    hide Match, Join, All;
    PidMatches(rest, pid, s, caps);
    RunTakesAll(TagChar, 1, Step(Maybe(Bracketed()), rest), name, pid + s, caps);
  }

  /** Everything after the time stamp. */
  lemma TailMatches(host: string, tag: string, sep: string, text: string, msg: string, caps: Captures)
    requires HostOk(host) && TagOk(tag) && Separates(sep) && ReadsAs(text, msg)
    ensures Match(AfterStamp(), " " + host + " " + tag + sep + text, caps) == Some(caps[Host := host][Tag := tag][Msg := msg])
  {
    hide ReadsAs;
    var fromTag := tag + (sep + text);
    var name, pid :| IsTag(tag, name, pid);
    assert tag[0] == name[0] && fromTag[0] == tag[0];
    TagMatches(tag, sep, text, msg, caps[Host := host]);
    GapMatches(Step(Capture(Tag, TagPattern()), AfterTag()), " ", fromTag, caps[Host := host]);
    FieldMatches(Host, NonSpace, AfterHost(), host, " " + fromTag, caps);
    GapMatches(Step(Field(Host, NonSpace), AfterHost()), " ", host + (" " + fromTag), caps);
    assert " " + host + " " + tag + sep + text == " " + (host + (" " + fromTag));
  }

  // ------------------------------------------------------ forwards: the stamp

  lemma TwoDigitsMatch(n: nat, rest: Pattern, s: string, caps: Captures)
    requires n < 100
    ensures Match(Step(Exactly(Digit, 2), rest), TwoDigits(n) + s, caps) == Match(rest, s, caps)
  {
    ExactlyTakes(Digit, rest, TwoDigits(n), s, caps);
  }

  function ClockText(hour: string, minute: string, second: string): string {
    hour + ":" + minute + ":" + second
  }

  lemma ClockMatches(hour: string, minute: string, second: string, rest: Pattern, s: string, caps: Captures)
    requires |hour| == |minute| == |second| == 2 && All(hour, Digit) && All(minute, Digit) && All(second, Digit)
    ensures Match(Clock(rest), ClockText(hour, minute, second) + s, caps) == Match(rest, s, caps)
  {
    var fromSecond := second + s;
    var fromMinute := minute + ([':'] + fromSecond);
    assert ClockText(hour, minute, second) + s == hour + ([':'] + fromMinute);
    ExactlyTakes(Digit, rest, second, s, caps);
    var p := Step(Exactly(Digit, 2), rest);
    LitMatches(':', p, fromSecond, caps);
    ExactlyTakes(Digit, Step(Lit(':'), p), minute, [':'] + fromSecond, caps);
    var q := Step(Exactly(Digit, 2), Step(Lit(':'), p));
    LitMatches(':', q, fromMinute, caps);
    ExactlyTakes(Digit, Step(Lit(':'), q), hour, [':'] + fromMinute, caps);
  }

  lemma {:induction false} JoinJoin(a: Pattern, b: Pattern, c: Pattern)
    ensures Join(Join(a, b), c) == Join(a, Join(b, c))
  {
    if a.Step? {
      JoinJoin(a.rest, b, c);
    }
  }

  function Pad(day: nat): string {
    if day < 10 then "  " else " "
  }

  function ClockOf(t: DateTime): string
    requires t.Valid()
  {
    ClockText(TwoDigits(t.hour), TwoDigits(t.minute), TwoDigits(t.second))
  }

  lemma StampParts(t: DateTime, s: string)
    requires t.Valid()
    ensures StampOf(t) + s == MONTHS[t.month] + (Pad(t.day) + (Decimal(t.day) + (" " + (ClockOf(t) + s))))
  {
    hide Decimal, TwoDigits;
  }

  lemma ClockOfMatches(t: DateTime, rest: Pattern, s: string, caps: Captures)
    requires t.Valid()
    ensures Match(Clock(rest), ClockOf(t) + s, caps) == Match(rest, s, caps)
    ensures ClockOf(t) != "" && IsDigit(ClockOf(t)[0])
  {
    hide Match, Clock;
    ClockMatches(TwoDigits(t.hour), TwoDigits(t.minute), TwoDigits(t.second), rest, s, caps);
  }

  /** Month, day and clock; a day below ten is padded with a space. */
  lemma StampMatches(t: DateTime, rest: Pattern, s: string, caps: Captures)
    requires t.Valid() && Match(rest, s, caps).Some?
    ensures Match(Join(BsdStamp(), rest), StampOf(t) + s, caps) == Match(rest, s, caps)
  {
    hide Match, Join, Clock, Gap, Decimal, StampOf, BsdStamp, ClockOf;
    var clock, day := ClockOf(t) + s, Decimal(t.day);
    DecimalRoundTrip(t.day);
    JoinStamp(rest);
    ClockOfMatches(t, rest, s, caps);
    GapMatches(Clock(rest), " ", clock, caps);
    ManyMatches(Digit, Gap(Clock(rest)), day, " " + clock, caps);
    GapMatches(Step(Many(Digit), Gap(Clock(rest))), Pad(t.day), day + (" " + clock), caps);
    MonthIsWord(t.month);
    ExactlyTakes(Word, Gap(Step(Many(Digit), Gap(Clock(rest)))), MONTHS[t.month], Pad(t.day) + (day + (" " + clock)), caps);
    StampParts(t, s);
  }

  lemma ManyMatches(k: Class, rest: Pattern, run: string, s: string, caps: Captures)
    requires run != "" && All(run, k) && (s != "" ==> !In(s[0], k)) && Match(rest, s, caps).Some?
    ensures Match(Step(Many(k), rest), run + s, caps) == Match(rest, s, caps)
  {
    RunTakesAll(k, 1, rest, run, s, caps);
  }

  lemma MonthIsWord(m: nat)
    requires m < 12
    ensures |MONTHS[m]| == 3 && All(MONTHS[m], Word) && !IsDigit(MONTHS[m][0])
  {
  }

  lemma JoinClock(p: Pattern, rest: Pattern)
    ensures Join(Clock(p), rest) == Clock(Join(p, rest))
  {
    assert Join(Step(Exactly(Digit, 2), p), rest) == Step(Exactly(Digit, 2), Join(p, rest));
    var q := Step(Lit(':'), Step(Exactly(Digit, 2), p));
    assert Join(q, rest) == Step(Lit(':'), Step(Exactly(Digit, 2), Join(p, rest)));
    assert Join(Step(Exactly(Digit, 2), q), rest) == Step(Exactly(Digit, 2), Join(q, rest));
  }

  lemma JoinStamp(rest: Pattern)
    ensures Join(BsdStamp(), rest) == Step(Exactly(Word, 3), Gap(Step(Many(Digit), Gap(Clock(rest)))))
  {
    JoinClock(Done, rest);
    assert Join(Gap(Clock(Done)), rest) == Gap(Clock(rest));
    assert Join(Step(Many(Digit), Gap(Clock(Done))), rest) == Step(Many(Digit), Gap(Clock(rest)));
  }

  // ------------------------------------------ backwards: what a match must be

  lemma LitFound(c: char, rest: Pattern, s: string, caps: Captures) returns (tail: string)
    requires Match(Step(Lit(c), rest), s, caps).Some?
    ensures s == [c] + tail && Match(Step(Lit(c), rest), s, caps) == Match(rest, tail, caps)
  {
    if s == "" || s[0] != c {
      ExactlyFails(Is(c), 1, rest, s, caps);
    }
    tail := s[1..];
    LitMatches(c, rest, tail, caps);
  }

  lemma ManyFound(k: Class, rest: Pattern, s: string, caps: Captures) returns (run: string, tail: string)
    requires Match(Step(Many(k), rest), s, caps).Some?
    ensures s == run + tail && run != "" && All(run, k)
    ensures Match(Step(Many(k), rest), s, caps) == Match(rest, tail, caps)
  {
    var n := RunStops(k, 1, rest, s, caps);
    run, tail := s[..n], s[n..];
  }

  lemma FieldFound(g: Group, k: Class, rest: Pattern, s: string, caps: Captures) returns (text: string, tail: string)
    requires Match(Step(Field(g, k), rest), s, caps).Some?
    ensures s == text + tail && text != "" && All(text, k)
    ensures Match(Step(Field(g, k), rest), s, caps) == Match(rest, tail, caps[g := text])
  {
    var close := Step(Close(g, s), rest);
    assert Join(Step(Many(k), Done), close) == Step(Many(k), close);
    text, tail := ManyFound(k, close, s, caps);
    ConsumedIs(text, tail);
  }

  lemma AtTheEnd(g: Group, from: string, s: string, caps: Captures)
    ensures Match(Step(Close(g, from), Step(End, Done)), s, caps) ==
            if s == "" || s == "\n" then Some(caps[g := Consumed(from, s)]) else None
  {
    assert Match(Step(End, Done), s, caps[g := Consumed(from, s)]) ==
           if s == "" || s == "\n" then Some(caps[g := Consumed(from, s)]) else None;
  }

  /** The message found holds no newline and begins with no white space: the run before it took all there was. */
  lemma MessageFound(s: string, caps: Captures) returns (msg: string)
    requires Match(MessagePattern(), s, caps).Some?
    ensures MessageOk(msg) && Match(MessagePattern(), s, caps) == Some(caps[Msg := msg])
  {
    var rest := Step(Capture(Msg, Step(Any(NotNewline), Done)), Step(End, Done));
    var n := RunStops(Space, 0, rest, s, caps);
    var u := s[n..];
    assert u != "" ==> s[n + 1..] == u[1..];
    var close := Step(Close(Msg, u), Step(End, Done));
    assert Join(Step(Any(NotNewline), Done), close) == Step(Any(NotNewline), close);
    var m := RunStops(NotNewline, 0, close, u, caps);
    msg := u[..m];
    assert u == msg + u[m..];
    ConsumedIs(msg, u[m..]);
    AtTheEnd(Msg, u, u[m..], caps);
    if m > 0 && IsSpace(u[0]) {
      LaterMessageMatches(u, m, caps);
    }
  }

  lemma LaterMessageMatches(u: string, m: nat, caps: Captures)
    requires 0 < m <= |u| && All(u[..m], NotNewline) && (u[m..] == "" || u[m..] == "\n")
    ensures Match(Step(Capture(Msg, Step(Any(NotNewline), Done)), Step(End, Done)), u[1..], caps).Some?
  {
    var close := Step(Close(Msg, u[1..]), Step(End, Done));
    assert Join(Step(Any(NotNewline), Done), close) == Step(Any(NotNewline), close);
    AtTheEnd(Msg, u[1..], u[m..], caps);
    RunTakesAll(NotNewline, 0, close, u[1..m], u[m..], caps);
    assert u[1..] == u[1..m] + u[m..];
  }

  lemma PidFound(rest: Pattern, s: string, caps: Captures) returns (pid: string, tail: string)
    requires Match(Step(Maybe(Bracketed()), rest), s, caps).Some?
    ensures s == pid + tail && (pid == "" || IsPid(pid))
    ensures Match(Step(Maybe(Bracketed()), rest), s, caps) == Match(rest, tail, caps)
  {
    var more := Step(Many(Digit), Step(Lit(']'), rest));
    assert Join(Step(Lit(']'), Done), rest) == Step(Lit(']'), rest);
    assert Join(Step(Many(Digit), Step(Lit(']'), Done)), rest) == more;
    assert Join(Bracketed(), rest) == Step(Lit('['), more);
    if Match(Step(Lit('['), more), s, caps).Some? {
      var inside := LitFound('[', more, s, caps);
      var digits, last := ManyFound(Digit, Step(Lit(']'), rest), inside, caps);
      tail := LitFound(']', rest, last, caps);
      pid := "[" + digits + "]";
      assert pid[1..|pid| - 1] == digits;
    } else {
      pid, tail := "", s;
    }
  }

  lemma TagFound(s: string, caps: Captures) returns (tag: string, tail: string)
    requires Match(Step(Capture(Tag, TagPattern()), AfterTag()), s, caps).Some?
    ensures TagOk(tag) && Match(Step(Capture(Tag, TagPattern()), AfterTag()), s, caps) == Match(AfterTag(), tail, caps[Tag := tag])
  {
    hide IsPid, AfterTag;
    var close := Step(Close(Tag, s), AfterTag());
    var rest := Step(Maybe(Bracketed()), close);
    assert Join(Step(Maybe(Bracketed()), Done), close) == rest;
    assert Join(TagPattern(), close) == Step(Many(TagChar), rest);
    var name, more := ManyFound(TagChar, rest, s, caps);
    var pid, last := PidFound(close, more, caps);
    tag, tail := name + pid, last;
    assert s == tag + tail;
    ConsumedIs(tag, tail);
    assert IsTag(tag, name, pid);
  }

  lemma AfterTagFound(s: string, caps: Captures) returns (msg: string)
    requires Match(AfterTag(), s, caps).Some?
    ensures MessageOk(msg) && Match(AfterTag(), s, caps) == Some(caps[Msg := msg])
  {
    hide MessagePattern, MessageOk;
    if Match(MessagePattern(), s, caps).Some? {
      msg := MessageFound(s, caps);
    }
    if s != "" && s[0] == ':' && Match(MessagePattern(), s[1..], caps).Some? {
      msg := MessageFound(s[1..], caps);
    }
  }

  lemma TailFound(s: string, caps: Captures) returns (host: string, tag: string, msg: string)
    requires Match(AfterStamp(), s, caps).Some?
    ensures HostOk(host) && TagOk(tag) && MessageOk(msg)
    ensures Match(AfterStamp(), s, caps) == Some(caps[Host := host][Tag := tag][Msg := msg])
  {
    hide Match, MessageOk, TagOk, All, AfterTag, TagPattern, Field;
    var gap, u := ManyFound(Space, Step(Field(Host, NonSpace), AfterHost()), s, caps);
    var v: string;
    host, v := FieldFound(Host, NonSpace, AfterHost(), u, caps);
    var gap', w := ManyFound(Space, Step(Capture(Tag, TagPattern()), AfterTag()), v, caps[Host := host]);
    var x: string;
    tag, x := TagFound(w, caps[Host := host]);
    msg := AfterTagFound(x, caps[Host := host][Tag := tag]);
  }

  predicate NoCaptures(p: Pattern) {
    match p
    case Done => true
    case Step(n, rest) => (n.Run? || n.End? || (n.Alt? && NoCaptures(n.first) && NoCaptures(n.second))) && NoCaptures(rest)
  }

  lemma {:induction false} JoinNoCaptures(p: Pattern, q: Pattern)
    requires NoCaptures(p) && NoCaptures(q)
    ensures NoCaptures(Join(p, q))
  {
    if p.Step? {
      JoinNoCaptures(p.rest, q);
    }
  }

  /** A match of a body and then the rest is a match of the rest on what the body left. */
  lemma {:induction false} BodyFound(body: Pattern, rest: Pattern, s: string, caps: Captures) returns (tail: string)
    requires NoCaptures(body) && Match(Join(body, rest), s, caps).Some?
    ensures |tail| <= |s| && Match(Join(body, rest), s, caps) == Match(rest, tail, caps)
    decreases |s|, Size(body)
  {
    match body
    case Done => tail := s;
    case Step(n, more) =>
      assert Size(body) == NodeSize(n) + Size(more) && NodeSize(n) >= 1;
      match n
      case Run(_, lo, _, greedy) =>
        var taken := CanTake(n, s) && Match(Step(Fewer(n), Join(more, rest)), s[1..], caps).Some?;
        if taken && (greedy || lo > 0 || Match(Join(more, rest), s, caps).None?) {
          assert Join(Step(Fewer(n), more), rest) == Step(Fewer(n), Join(more, rest));
          tail := BodyFound(Step(Fewer(n), more), rest, s[1..], caps);
        } else {
          tail := BodyFound(more, rest, s, caps);
        }
      case Alt(a, b) =>
        SizeJoin(a, more);
        SizeJoin(b, more);
        JoinJoin(a, more, rest);
        JoinJoin(b, more, rest);
        JoinNoCaptures(a, more);
        JoinNoCaptures(b, more);
        if Match(Join(a, Join(more, rest)), s, caps).Some? {
          tail := BodyFound(Join(a, more), rest, s, caps);
        } else {
          tail := BodyFound(Join(b, more), rest, s, caps);
        }
      case End => tail := BodyFound(more, rest, s, caps);
  }

  /** Whatever a line with a known kind of stamp is read as, its host, tag and message are well formed. */
  lemma LineFound(stamp: Pattern, raw: string, caps: Captures) returns (host: string, tag: string, msg: string)
    requires NoCaptures(stamp) && Match(Header(Step(Capture(Stamp, stamp), AfterStamp())), raw, caps).Some?
    ensures HostOk(host) && TagOk(tag) && MessageOk(msg)
    ensures var r := Match(Header(Step(Capture(Stamp, stamp), AfterStamp())), raw, caps).value;
            Get(r, Host) == host && Get(r, Tag) == tag && Get(r, Msg) == msg
  {
    hide HostOk, TagOk, MessageOk, AfterStamp, NoCaptures, All, Field, Lit;
    var p := Step(Capture(Stamp, stamp), AfterStamp());
    var a := LitFound('<', Step(Field(Pri, Digit), Step(Lit('>'), p)), raw, caps);
    var pri, b := FieldFound(Pri, Digit, Step(Lit('>'), p), a, caps);
    var c := LitFound('>', p, b, caps[Pri := pri]);
    var close := Step(Close(Stamp, c), AfterStamp());
    var d := BodyFound(stamp, close, c, caps[Pri := pri]);
    host, tag, msg := TailFound(d, caps[Pri := pri][Stamp := Consumed(c, d)]);
  }

  // --------------------------------------------------- forwards: ISO stamps

  datatype Zone = Utc | Offset(sign: char, hours: nat, minutes: nat, colon: bool) {
    predicate Valid() {
      Offset? ==> In(sign, Sign) && hours < 24 && minutes < 60
    }

    function Text(): string
      requires Valid()
    {
      if Utc? then "Z" else [sign] + TwoDigits(hours) + (if colon then ":" else "") + TwoDigits(minutes)
    }
  }

  /** `fraction` is the digits after the decimal point, if any. */
  datatype IsoTime = IsoTime(year: nat, at: DateTime, fraction: string, zone: Zone) {
    predicate Valid() {
      year < 10000 && at.Valid() && All(fraction, Digit) && zone.Valid()
    }

    function FractionText(): string {
      if fraction == "" then "" else "." + fraction
    }

    function DateText(): string
      requires Valid()
    {
      TwoDigits(year / 100) + TwoDigits(year % 100) + "-" + TwoDigits(at.month + 1) + "-" + TwoDigits(at.day) + "T"
    }

    function Text(): string
      requires Valid()
    {
      DateText() + ClockOf(at) + FractionText() + zone.Text()
    }
  }

  function OffsetPattern(): Pattern {
    Step(Exactly(Sign, 1), Step(Exactly(Digit, 2), Step(Run(Is(':'), 0, Some(1), true), Step(Exactly(Digit, 2), Done))))
  }

  function ZoneNode(): Node {
    Alt(Step(Lit('Z'), Done), OffsetPattern())
  }

  function FractionNode(): Node {
    Maybe(Step(Lit('.'), Step(Many(Digit), Done)))
  }

  lemma ColonMatches(colon: bool, rest: Pattern, s: string, caps: Captures)
    requires s != "" && s[0] != ':' && Match(rest, s, caps).Some?
    ensures Match(Step(Run(Is(':'), 0, Some(1), true), rest), (if colon then ":" else "") + s, caps) == Match(rest, s, caps)
  {
    if colon {
      assert (":" + s)[1..] == s;
    } else {
      assert "" + s == s;
    }
  }

  lemma JoinOffset(rest: Pattern)
    ensures Join(OffsetPattern(), rest) == Step(Exactly(Sign, 1), Step(Exactly(Digit, 2), Step(Run(Is(':'), 0, Some(1), true), Step(Exactly(Digit, 2), rest))))
  {
    assert Join(Step(Exactly(Digit, 2), Done), rest) == Step(Exactly(Digit, 2), rest);
    assert Join(Step(Run(Is(':'), 0, Some(1), true), Step(Exactly(Digit, 2), Done)), rest) ==
           Step(Run(Is(':'), 0, Some(1), true), Step(Exactly(Digit, 2), rest));
  }

  lemma TwoDigitsStart(n: nat, s: string)
    requires n < 100
    ensures TwoDigits(n) + s != "" && (TwoDigits(n) + s)[0] != ':'
  {
  }

  lemma OffsetMatches(z: Zone, rest: Pattern, s: string, caps: Captures)
    requires z.Offset? && z.Valid() && Match(rest, s, caps).Some?
    ensures Match(Join(OffsetPattern(), rest), z.Text() + s, caps) == Match(rest, s, caps)
  {
    hide Match, OffsetPattern, Join, TwoDigits;
    var minutes := Step(Exactly(Digit, 2), rest);
    var colon := Step(Run(Is(':'), 0, Some(1), true), minutes);
    var fromColon := (if z.colon then ":" else "") + (TwoDigits(z.minutes) + s);
    JoinOffset(rest);
    TwoDigitsMatch(z.minutes, rest, s, caps);
    TwoDigitsStart(z.minutes, s);
    ColonMatches(z.colon, minutes, TwoDigits(z.minutes) + s, caps);
    TwoDigitsMatch(z.hours, colon, fromColon, caps);
    ExactlyTakes(Sign, Step(Exactly(Digit, 2), colon), [z.sign], TwoDigits(z.hours) + fromColon, caps);
    assert z.Text() + s == [z.sign] + (TwoDigits(z.hours) + fromColon);
  }

  lemma ZoneMatches(z: Zone, rest: Pattern, s: string, caps: Captures)
    requires z.Valid() && Match(rest, s, caps).Some?
    ensures Match(Step(ZoneNode(), rest), z.Text() + s, caps) == Match(rest, s, caps)
  {
    var text := z.Text() + s;
    assert Join(Step(Lit('Z'), Done), rest) == Step(Lit('Z'), rest);
    assert Match(Step(ZoneNode(), rest), text, caps) ==
           if Match(Step(Lit('Z'), rest), text, caps).Some? then Match(Step(Lit('Z'), rest), text, caps)
           else Match(Join(OffsetPattern(), rest), text, caps);
    hide Match, OffsetPattern, Join, TwoDigits;
    if z.Utc? {
      LitMatches('Z', rest, s, caps);
    } else {
      ExactlyFails(Is('Z'), 1, rest, text, caps);
      OffsetMatches(z, rest, s, caps);
    }
  }

  lemma FractionMatches(fraction: string, rest: Pattern, s: string, caps: Captures)
    requires All(fraction, Digit) && s != "" && !IsDigit(s[0]) && s[0] != '.' && Match(rest, s, caps).Some?
    ensures Match(Step(FractionNode(), rest), (if fraction == "" then "" else "." + fraction) + s, caps) == Match(rest, s, caps)
  {
    var digits := Step(Many(Digit), rest);
    assert Join(Step(Many(Digit), Done), rest) == digits;
    assert Join(Step(Lit('.'), Step(Many(Digit), Done)), rest) == Step(Lit('.'), digits);
    if fraction == "" {
      ExactlyFails(Is('.'), 1, digits, s, caps);
      assert "" + s == s;
    } else {
      ManyMatches(Digit, rest, fraction, s, caps);
      LitMatches('.', digits, fraction + s, caps);
      assert "." + fraction + s == "." + (fraction + s);
    }
  }

  lemma DateMatches(t: IsoTime, rest: Pattern, s: string, caps: Captures)
    requires t.Valid()
    ensures Match(DatePattern(rest), t.DateText() + s, caps) == Match(rest, s, caps)
  {
    hide Match, Lit;
    var year := TwoDigits(t.year / 100) + TwoDigits(t.year % 100);
    var month, day := TwoDigits(t.at.month + 1), TwoDigits(t.at.day);
    var fromDay := day + (['T'] + s);
    var fromMonth := month + (['-'] + fromDay);
    assert t.DateText() + s == year + (['-'] + fromMonth);
    LitMatches('T', rest, s, caps);
    ExactlyTakes(Digit, Step(Lit('T'), rest), day, ['T'] + s, caps);
    var p := Step(Exactly(Digit, 2), Step(Lit('T'), rest));
    LitMatches('-', p, fromDay, caps);
    ExactlyTakes(Digit, Step(Lit('-'), p), month, ['-'] + fromDay, caps);
    var q := Step(Exactly(Digit, 2), Step(Lit('-'), p));
    LitMatches('-', q, fromMonth, caps);
    ExactlyTakes(Digit, Step(Lit('-'), q), year, ['-'] + fromMonth, caps);
  }

  function DatePattern(p: Pattern): Pattern {
    Step(Exactly(Digit, 4), Step(Lit('-'), Step(Exactly(Digit, 2), Step(Lit('-'), Step(Exactly(Digit, 2), Step(Lit('T'), p))))))
  }

  lemma JoinIso(rest: Pattern)
    ensures Join(IsoStamp(), rest) == DatePattern(Clock(Step(FractionNode(), Step(ZoneNode(), rest))))
  {
    hide Clock, Lit, Exactly, FractionNode, ZoneNode;
    var clock := Clock(Step(FractionNode(), Step(ZoneNode(), Done)));
    IsoParts();
    JoinClock(Step(FractionNode(), Step(ZoneNode(), Done)), rest);
    assert Join(Step(ZoneNode(), Done), rest) == Step(ZoneNode(), rest);
    assert Join(Step(FractionNode(), Step(ZoneNode(), Done)), rest) == Step(FractionNode(), Step(ZoneNode(), rest));
    var a := Step(Lit('T'), clock);
    assert Join(a, rest) == Step(Lit('T'), Join(clock, rest));
    var b := Step(Lit('-'), Step(Exactly(Digit, 2), a));
    assert Join(b.rest, rest) == Step(Exactly(Digit, 2), Join(a, rest));
    assert Join(b, rest) == Step(Lit('-'), Join(b.rest, rest));
    var c := Step(Lit('-'), Step(Exactly(Digit, 2), b));
    assert Join(c.rest, rest) == Step(Exactly(Digit, 2), Join(b, rest));
    assert Join(c, rest) == Step(Lit('-'), Join(c.rest, rest));
  }

  lemma IsoParts()
    ensures IsoStamp() == DatePattern(Clock(Step(FractionNode(), Step(ZoneNode(), Done))))
  {
  }

  lemma ZoneStart(z: Zone, s: string)
    requires z.Valid()
    ensures z.Text() + s != "" && !IsDigit((z.Text() + s)[0]) && (z.Text() + s)[0] != '.'
  {
  }

  lemma IsoMatches(t: IsoTime, rest: Pattern, s: string, caps: Captures)
    requires t.Valid() && Match(rest, s, caps).Some?
    ensures Match(Join(IsoStamp(), rest), t.Text() + s, caps) == Match(rest, s, caps)
  {
    hide Match, Join, IsoStamp, Clock, ClockOf, ZoneNode, FractionNode, DatePattern;
    var zone := t.zone.Text() + s;
    JoinIso(rest);
    ZoneMatches(t.zone, rest, s, caps);
    ZoneStart(t.zone, s);
    FractionMatches(t.fraction, Step(ZoneNode(), rest), zone, caps);
    var afterClock := Step(FractionNode(), Step(ZoneNode(), rest));
    ClockOfMatches(t.at, afterClock, t.FractionText() + zone, caps);
    DateMatches(t, Clock(afterClock), ClockOf(t.at) + (t.FractionText() + zone), caps);
    assert t.Text() + s == t.DateText() + (ClockOf(t.at) + (t.FractionText() + zone));
  }

  // ------------------------------------------------------------ main results

  function Body(stamp: string, host: string, tag: string, msg: string): string {
    stamp + (" " + host + " " + tag + ": " + msg)
  }

  function LooseLine(pri: nat, stamp: string, host: string, tag: string, sep: string, msg: string): string {
    "<" + Decimal(pri) + ">" + stamp + " " + host + " " + tag + sep + msg
  }

  lemma LooseLineParts(pri: nat, stamp: string, host: string, tag: string, sep: string, msg: string)
    ensures LooseLine(pri, stamp, host, tag, sep, msg) == "<" + Decimal(pri) + ">" + (stamp + (" " + host + " " + tag + sep + msg))
    ensures LooseLine(pri, stamp, host, tag, ": ", msg) == Line(pri, stamp, host, tag, msg)
  {
    hide Decimal;
  }

  lemma LineParts(pri: nat, stamp: string, host: string, tag: string, msg: string)
    ensures Line(pri, stamp, host, tag, msg) == "<" + Decimal(pri) + ">" + Body(stamp, host, tag, msg)
  {
    hide Decimal;
  }

  /** The IETF form wants a version number followed by a space. */
  lemma NotIetf(pri: nat, s: string, digits: string, rest: string)
    requires s == digits + rest && All(digits, Digit) && rest != "" && !IsDigit(rest[0]) && !IsSpace(rest[0])
    ensures Match(Rfc5424(), "<" + Decimal(pri) + ">" + s, map[]).None?
  {
    var caps := map[Pri := Decimal(pri)];
    assert map[][Pri := Decimal(pri)] == caps;
    HeaderMatches(Step(Field(Ver, Digit), AfterVersion()), pri, s, map[]);
    var close := Step(Close(Ver, s), AfterVersion());
    forall n | 1 <= n <= |digits| ensures Match(close, digits[n..] + rest, caps).None? {
      NoGap(close, digits[n..] + rest, caps);
    }
    RunFails(Digit, 1, close, digits, rest, caps);
    assert Join(Step(Many(Digit), Done), close) == Step(Many(Digit), close);
  }

  lemma NoGap(close: Pattern, s: string, caps: Captures)
    requires close.Step? && close.node.Close? && close.rest == AfterVersion() && s != "" && !IsSpace(s[0])
    ensures Match(close, s, caps).None?
  {
    hide AfterVersion;
    GapNeedsSpace(s, caps[close.node.group := Consumed(close.node.from, s)]);
  }

  lemma GapNeedsSpace(s: string, caps: Captures)
    requires s != "" && !IsSpace(s[0])
    ensures Match(AfterVersion(), s, caps).None?
  {
  }

  /**
    A printed line is read back as printed exactly when its host is a nonempty word, its tag a name with at most a
    process number, and its message one line that does not begin with white space.
   */
  lemma PrintedLineRoundTrips(pri: nat, t: DateTime, host: string, tag: string, msg: string)
    requires t.Valid()
    ensures var (facility, severity) := ParsePri(Decimal(pri));
            ParseMessage(Line(pri, StampOf(t), host, tag, msg)) == Parsed(Bsd, StampOf(t), host, facility, severity, tag, msg)
            <==> HostOk(host) && TagOk(tag) && MessageOk(msg)
  {
    hide Match, Rfc5424, AfterStamp, BsdStamp, StampOf, Decimal, ParsePri, HostOk, TagOk, MessageOk;
    var raw, s := Line(pri, StampOf(t), host, tag, msg), Body(StampOf(t), host, tag, msg);
    LineParts(pri, StampOf(t), host, tag, msg);
    StampStart(t, " " + host + " " + tag + ": " + msg);
    NotIetf(pri, s, "", s);
    if HostOk(host) && TagOk(tag) && MessageOk(msg) {
      BsdLineMatches(pri, t, host, tag, ": ", msg, msg);
    }
    if Match(Rfc3164(), raw, map[]).Some? {
      BsdHasNoCaptures();
      var h, g, m := LineFound(BsdStamp(), raw, map[]);
    }
  }

  /** A newline at the end of a printed line, as many senders add, does not show. */
  lemma TrailingNewlineIsDropped(pri: nat, t: DateTime, host: string, tag: string, msg: string)
    requires t.Valid() && HostOk(host) && TagOk(tag) && MessageOk(msg)
    ensures ParseMessage(Line(pri, StampOf(t), host, tag, msg + "\n")) == ParseMessage(Line(pri, StampOf(t), host, tag, msg))
  {
    hide Match, Rfc5424, Rfc3164, StampOf, Decimal, ParsePri, HostOk, TagOk, MessageOk, Line, Body;
    LooseLineParts(pri, StampOf(t), host, tag, ": ", msg);
    LooseLineParts(pri, StampOf(t), host, tag, ": ", msg + "\n");
    NotIetfLine(pri, t, host, tag, ": ", msg);
    NotIetfLine(pri, t, host, tag, ": ", msg + "\n");
    BsdLineMatches(pri, t, host, tag, ": ", msg, msg);
    BsdLineMatches(pri, t, host, tag, ": ", msg + "\n", msg);
  }

  /** A line whose sender leaves out the colon after the tag is read the same. */
  lemma MissingColonIsFine(pri: nat, t: DateTime, host: string, tag: string, msg: string)
    requires t.Valid() && HostOk(host) && TagOk(tag) && MessageOk(msg)
    ensures ParseMessage(LooseLine(pri, StampOf(t), host, tag, " ", msg)) == ParseMessage(Line(pri, StampOf(t), host, tag, msg))
  {
    hide Match, Rfc5424, Rfc3164, StampOf, Decimal, ParsePri, HostOk, TagOk, MessageOk;
    NotIetfLine(pri, t, host, tag, ": ", msg);
    NotIetfLine(pri, t, host, tag, " ", msg);
    BsdLineMatches(pri, t, host, tag, ": ", msg, msg);
    BsdLineMatches(pri, t, host, tag, " ", msg, msg);
  }

  lemma NotIetfLine(pri: nat, t: DateTime, host: string, tag: string, sep: string, text: string)
    requires t.Valid()
    ensures Match(Rfc5424(), LooseLine(pri, StampOf(t), host, tag, sep, text), map[]).None?
  {
    hide Match, Rfc5424, StampOf, Decimal;
    var tail := " " + host + " " + tag + sep + text;
    LooseLineParts(pri, StampOf(t), host, tag, sep, text);
    StampStart(t, tail);
    NotIetf(pri, StampOf(t) + tail, "", StampOf(t) + tail);
  }

  lemma BsdHasNoCaptures()
    ensures NoCaptures(BsdStamp())
  {
    ClockHasNoCaptures(Done);
  }

  lemma ClockHasNoCaptures(p: Pattern)
    requires NoCaptures(p)
    ensures NoCaptures(Clock(p))
  {
    assert NoCaptures(Step(Lit(':'), Step(Exactly(Digit, 2), p)));
    assert NoCaptures(Step(Lit(':'), Step(Exactly(Digit, 2), Step(Lit(':'), Step(Exactly(Digit, 2), p)))));
  }

  lemma StampStart(t: DateTime, s: string)
    requires t.Valid()
    ensures StampOf(t) + s != "" && !IsDigit((StampOf(t) + s)[0]) && !IsSpace((StampOf(t) + s)[0])
    ensures "" + (StampOf(t) + s) == StampOf(t) + s
  {
    hide Decimal;
    MonthIsWord(t.month);
    StampParts(t, s);
  }

  function Found(pri: nat, stamp: string, host: string, tag: string, msg: string): Captures {
    map[][Pri := Decimal(pri)][Stamp := stamp][Host := host][Tag := tag][Msg := msg]
  }

  lemma BsdLineMatches(pri: nat, t: DateTime, host: string, tag: string, sep: string, text: string, msg: string)
    requires t.Valid() && HostOk(host) && TagOk(tag) && Separates(sep) && ReadsAs(text, msg)
    ensures Match(Rfc3164(), LooseLine(pri, StampOf(t), host, tag, sep, text), map[]) == Some(Found(pri, StampOf(t), host, tag, msg))
  {
    hide BsdStamp, AfterStamp, StampOf, Decimal, HostOk, TagOk, ReadsAs, Separates, Join;
    var tail := " " + host + " " + tag + sep + text;
    var caps: Captures := map[][Pri := Decimal(pri)];
    var stamp := StampOf(t);
    var close := Step(Close(Stamp, stamp + tail), AfterStamp());
    LooseLineParts(pri, stamp, host, tag, sep, text);
    HeaderMatches(Step(Capture(Stamp, BsdStamp()), AfterStamp()), pri, stamp + tail, map[]);
    TailMatches(host, tag, sep, text, msg, caps[Stamp := stamp]);
    ConsumedIs(stamp, tail);
    StampMatches(t, close, tail, caps);
  }

  /** The same for lines a relay rewrote to an ISO time stamp without adding a version: none of them is lost. */
  lemma RelayedLineRoundTrips(pri: nat, t: IsoTime, host: string, tag: string, msg: string)
    requires t.Valid()
    ensures var (facility, severity) := ParsePri(Decimal(pri));
            ParseMessage(Line(pri, t.Text(), host, tag, msg)) == Parsed(BsdIso, t.Text(), host, facility, severity, tag, msg)
            <==> HostOk(host) && TagOk(tag) && MessageOk(msg)
  {
    hide Match, Rfc5424, Rfc3164, AfterStamp, IsoStamp, Decimal, ParsePri, HostOk, TagOk, MessageOk;
    var raw, s := Line(pri, t.Text(), host, tag, msg), Body(t.Text(), host, tag, msg);
    LineParts(pri, t.Text(), host, tag, msg);
    var digits, rest := IsoStart(t, " " + host + " " + tag + ": " + msg);
    NotIetf(pri, s, digits, rest);
    NotBsd(pri, s, digits, rest);
    if HostOk(host) && TagOk(tag) && MessageOk(msg) {
      IsoLineMatches(pri, t, host, tag, msg, msg);
    }
    if Match(Rfc3164Iso(), raw, map[]).Some? {
      IsoHasNoCaptures();
      var h, g, m := LineFound(IsoStamp(), raw, map[]);
    }
  }

  lemma IsoHasNoCaptures()
    ensures NoCaptures(IsoStamp())
  {
  }

  lemma TwoDigitsAreDigits(n: nat)
    requires n < 100
    ensures All(TwoDigits(n), Digit)
  {
  }

  lemma DateStart(t: IsoTime) returns (digits: string, rest: string)
    requires t.Valid()
    ensures t.DateText() == digits + rest && |digits| == 4 && All(digits, Digit) && rest != "" && rest[0] == '-'
  {
    TwoDigitsAreDigits(t.year / 100);
    TwoDigitsAreDigits(t.year % 100);
    hide In;
    var a, b := TwoDigits(t.year / 100), TwoDigits(t.year % 100);
    var month, day := TwoDigits(t.at.month + 1), TwoDigits(t.at.day);
    assert |a| == 2 && |b| == 2;
    hide TwoDigits;
    digits, rest := a + b, "-" + month + "-" + day + "T";
    assert t.DateText() == digits + "-" + month + "-" + day + "T";
  }

  lemma IsoStart(t: IsoTime, s: string) returns (digits: string, rest: string)
    requires t.Valid()
    ensures t.Text() + s == digits + rest && |digits| == 4 && All(digits, Digit) && rest != "" && rest[0] == '-'
  {
    var date: string;
    digits, date := DateStart(t);
    hide In, ClockOf, TwoDigits, All;
    var later := ClockOf(t.at) + t.FractionText() + t.zone.Text();
    assert t.Text() == t.DateText() + later;
    rest := date + (later + s);
  }

  /** The BSD form wants a space after three characters. */
  lemma NotBsd(pri: nat, s: string, digits: string, rest: string)
    requires s == digits + rest && |digits| == 4 && All(digits, Digit)
    ensures Match(Rfc3164(), "<" + Decimal(pri) + ">" + s, map[]).None?
  {
    var caps: Captures := map[][Pri := Decimal(pri)];
    HeaderMatches(Step(Capture(Stamp, BsdStamp()), AfterStamp()), pri, s, map[]);
    var close := Step(Close(Stamp, s), AfterStamp());
    JoinStamp(close);
    var p := Step(Many(Digit), Gap(Clock(close)));
    var left := digits[3..] + rest;
    assert s == digits[..3] + left;
    ExactlyTakes(Word, Gap(p), digits[..3], left, caps);
    assert left[0] == digits[3];
  }

  lemma IsoLineMatches(pri: nat, t: IsoTime, host: string, tag: string, text: string, msg: string)
    requires t.Valid() && HostOk(host) && TagOk(tag) && ReadsAs(text, msg)
    ensures Match(Rfc3164Iso(), Line(pri, t.Text(), host, tag, text), map[]) == Some(Found(pri, t.Text(), host, tag, msg))
  {
    hide IsoStamp, AfterStamp, Decimal, HostOk, TagOk, ReadsAs, Join;
    var tail := " " + host + " " + tag + ": " + text;
    var caps: Captures := map[][Pri := Decimal(pri)];
    var stamp := t.Text();
    var close := Step(Close(Stamp, stamp + tail), AfterStamp());
    LineParts(pri, stamp, host, tag, text);
    HeaderMatches(Step(Capture(Stamp, IsoStamp()), AfterStamp()), pri, stamp + tail, map[]);
    TailMatches(host, tag, ": ", text, msg, caps[Stamp := stamp]);
    ConsumedIs(stamp, tail);
    IsoMatches(t, close, tail, caps);
  }

  /** Reading a printed priority gives back the facility and severity it was made of; beyond the table, "unknown". */
  lemma PriRoundTrip(facility: nat, severity: nat)
    requires severity < 8
    ensures ParsePri(Decimal(facility * 8 + severity)) ==
            (if facility < 24 then FACILITIES[facility] else "unknown", SEVERITIES[severity])
  {
    hide ParsePri, Decimal, FACILITIES, SEVERITIES;
    PriParts(facility, severity);
    NameTables();
    ParsesNumber(facility * 8 + severity);
  }

  lemma ParsesNumber(n: nat)
    ensures |FACILITIES| == 24 && |SEVERITIES| == 8
    ensures ParsePri(Decimal(n)) == (if n / 8 < |FACILITIES| then FACILITIES[n / 8] else "unknown", SEVERITIES[n % 8])
  {
    hide Decimal, IntOf, All;
    DecimalRoundTrip(n);
  }

  lemma PriParts(facility: nat, severity: nat)
    requires severity < 8
    ensures (facility * 8 + severity) / 8 == facility && (facility * 8 + severity) % 8 == severity
  {
  }

  lemma NameTables()
    ensures |FACILITIES| == 24 && |SEVERITIES| == 8
  {
  }

  /** What the simulator sends is read back by the listener exactly when the fields are well formed. */
  lemma SimulatedLineRoundTrips(host: string, tag: string, severity: nat, msg: string, now: DateTime)
    requires now.Valid() && severity < 8
    ensures ParseMessage(BuildRfc3164(host, tag, severity, msg, now)) ==
            Parsed(Bsd, StampOf(now), host, "local0", SEVERITIES[severity], tag, msg)
            <==> HostOk(host) && TagOk(tag) && MessageOk(msg)
  {
    hide ParseMessage, Line, StampOf, HostOk, TagOk, MessageOk, ParsePri;
    PriRoundTrip(LOCAL0, severity);
    PrintedLineRoundTrips(LOCAL0 * 8 + severity, now, host, tag, msg);
  }

  /** In particular a plain tag, without ':', '[' or white space, is always well formed. */
  lemma PlainTagIsOk(tag: string)
    requires tag != "" && All(tag, TagChar)
    ensures TagOk(tag)
  {
    assert IsTag(tag, tag, "");
  }

  /** A severity read off a line ranks, for the aggregator, as the number it came from. */
  lemma ReadSeveritiesRank(facility: nat, severity: nat)
    requires severity < 8
    ensures SyslogHealth.Rank(ParsePri(Decimal(facility * 8 + severity)).1) == severity
  {
    PriRoundTrip(facility, severity);
    hide ParsePri, Decimal, FACILITIES;
    SeveritiesRank(severity);
  }

  lemma SeveritiesRank(severity: nat)
    requires severity < |SEVERITIES|
    ensures |SEVERITIES| == 8 && SyslogHealth.Rank(SEVERITIES[severity]) == severity
  {
    SyslogHealth.FirstLetters();
    assert "info"[0] == 'i' && "err" != "emerg" && "warning" != "warn";
  }
}
