/**
  The IETF form: a line with nine fields is read back field by field exactly when the fields are well formed, and
  whatever is read in this form is well formed.
 */
module SyslogIetf {
  import opened Sequences
  import opened Regex
  import opened Syslog
  import opened SyslogRoundTrip

  datatype Fields5424 = Fields5424(
    version: string, stamp: string, host: string, app: string, procId: string, msgId: string, data: string, msg: string)

  function IetfLine(pri: nat, f: Fields5424): string {
    "<" + Decimal(pri) + ">" + f.version + FromVersion(f)
  }

  function FromVersion(f: Fields5424): string {
    " " + (f.stamp + (" " + (f.host + (" " + (f.app + (" " + (f.procId + (" " + (f.msgId + (" " + FromData(f)))))))))))
  }

  function FromData(f: Fields5424): string {
    f.data + (" " + f.msg)
  }

  function IetfCaptures(pri: nat, f: Fields5424): Captures {
    map[][Pri := Decimal(pri)][Ver := f.version][Stamp := f.stamp][Host := f.host][App := f.app][ProcId := f.procId][MsgId := f.msgId]
      [Data := f.data][Msg := f.msg]
  }

  predicate WordOk(s: string) {
    s != "" && All(s, NonSpace)
  }

  predicate VersionOk(s: string) {
    s != "" && All(s, Digit)
  }

  /** One line in brackets. */
  predicate IsElement(s: string) {
    |s| >= 2 && s[0] == '[' && s[|s| - 1] == ']' && All(s[1..|s| - 1], NotNewline)
  }

  /** An element that holds no closing bracket before its last character. */
  predicate DataOk(s: string) {
    s == "-" || (IsElement(s) && forall n :: 0 < n < |s| - 1 ==> s[n] != ']')
  }

  predicate IetfOk(f: Fields5424) {
    && VersionOk(f.version) && WordOk(f.stamp) && WordOk(f.host) && WordOk(f.app) && WordOk(f.procId) && WordOk(f.msgId)
    && DataOk(f.data) && MessageOk(f.msg)
  }

  // --------------------------------------------------------------- forwards

  function DataNode(): Node {
    Capture(Data, StructuredData())
  }

  function AfterBracket(rest: Pattern): Pattern {
    Step(Run(NotNewline, 0, None, false), Step(Lit(']'), rest))
  }

  lemma JoinData(rest: Pattern)
    ensures Join(StructuredData(), rest) ==
            Step(Alt(Step(Lit('-'), Done), Step(Lit('['), Step(Run(NotNewline, 0, None, false), Step(Lit(']'), Done)))), rest)
    ensures Join(Step(Lit('-'), Done), rest) == Step(Lit('-'), rest)
    ensures Join(Step(Lit('['), Step(Run(NotNewline, 0, None, false), Step(Lit(']'), Done))), rest) == Step(Lit('['), AfterBracket(rest))
  {
    assert Join(Step(Lit(']'), Done), rest) == Step(Lit(']'), rest);
    assert Join(Step(Run(NotNewline, 0, None, false), Step(Lit(']'), Done)), rest) == AfterBracket(rest);
  }

  /** A lazy run before a bracket stops at the first one from which the rest matches. */
  lemma {:induction false} LazyTakes(rest: Pattern, run: string, s: string, caps: Captures)
    requires All(run, NotNewline) && (forall n :: 0 <= n < |run| ==> run[n] != ']') && Match(rest, s, caps).Some?
    ensures Match(AfterBracket(rest), run + ([']'] + s), caps) == Match(rest, s, caps)
    decreases |run|
  {
    var all := run + ([']'] + s);
    LitMatches(']', rest, s, caps);
    if run == "" {
      assert all == [']'] + s;
    } else {
      assert all[1..] == run[1..] + ([']'] + s);
      ExactlyFails(Is(']'), 1, rest, all, caps);
      LazyTakes(rest, run[1..], s, caps);
    }
  }

  lemma DataMatches(data: string, rest: Pattern, s: string, caps: Captures)
    requires DataOk(data) && Match(rest, s, caps[Data := data]).Some?
    ensures Match(Step(DataNode(), rest), data + s, caps) == Match(rest, s, caps[Data := data])
  {
    var close := Step(Close(Data, data + s), rest);
    ConsumedIs(data, s);
    JoinData(close);
    if data == "-" {
      LitMatches('-', close, s, caps);
    } else {
      var inner := data[1..|data| - 1];
      assert data + s == ['['] + (inner + ([']'] + s));
      LazyTakes(close, inner, s, caps);
      LitMatches('[', AfterBracket(close), inner + ([']'] + s), caps);
      ExactlyFails(Is('-'), 1, close, data + s, caps);
    }
  }

  lemma WordGapMatches(g: Group, rest: Pattern, word: string, s: string, caps: Captures)
    requires WordOk(word) && Match(rest, s, caps[g := word]).Some? && s != "" && !IsSpace(s[0])
    ensures Match(Step(Field(g, NonSpace), Gap(rest)), word + (" " + s), caps) == Match(rest, s, caps[g := word])
  {
    GapMatches(rest, " ", s, caps[g := word]);
    hide Match, Field, Gap;
    FieldMatches(g, NonSpace, Gap(rest), word, " " + s, caps);
  }

  function FromMsgId(): Pattern {
    Step(Field(MsgId, NonSpace), Gap(Step(DataNode(), MessagePattern())))
  }

  function FromApp(): Pattern {
    Step(Field(App, NonSpace), Gap(Step(Field(ProcId, NonSpace), Gap(FromMsgId()))))
  }

  function FromStamp(): Pattern {
    Step(Field(Stamp, NonSpace), Gap(Step(Field(Host, NonSpace), Gap(FromApp()))))
  }

  lemma IetfPattern()
    ensures AfterVersion() == Gap(FromStamp())
  {
  }

  lemma WordStarts(word: string, s: string)
    requires WordOk(word)
    ensures word + s != "" && !IsSpace((word + s)[0]) && !IsDigit(' ')
  {
  }

  lemma DataAndMessageMatch(f: Fields5424, caps: Captures)
    requires DataOk(f.data) && MessageOk(f.msg)
    ensures Match(Step(DataNode(), MessagePattern()), FromData(f), caps) == Some(caps[Data := f.data][Msg := f.msg])
    ensures FromData(f) != "" && !IsSpace(FromData(f)[0])
  {
    hide Match, MessagePattern, All, DataNode;
    MessageMatches(" ", f.msg, f.msg, caps[Data := f.data]) by { OneSpace(); }
    DataMatches(f.data, MessagePattern(), " " + f.msg, caps);
    DataStarts(f.data, " " + f.msg);
  }

  lemma OneSpace()
    ensures All(" ", Space)
  {
  }

  lemma DataStarts(data: string, s: string)
    requires DataOk(data)
    ensures data + s != "" && !IsSpace((data + s)[0])
  {
  }

  function HeadCaptures(f: Fields5424, caps: Captures): Captures {
    caps[Stamp := f.stamp][Host := f.host][App := f.app][ProcId := f.procId][MsgId := f.msgId]
  }

  predicate HeadOk(f: Fields5424) {
    WordOk(f.stamp) && WordOk(f.host) && WordOk(f.app) && WordOk(f.procId) && WordOk(f.msgId)
  }

  /** The five words, whatever follows them. */
  lemma HeadMatches(f: Fields5424, gap: string, t: string, caps: Captures)
    requires HeadOk(f) && gap != "" && All(gap, Space) && t != "" && !IsSpace(t[0])
    requires Match(Step(DataNode(), MessagePattern()), t, HeadCaptures(f, caps)).Some?
    ensures Match(AfterVersion(), gap + (f.stamp + (" " + (f.host + (" " + (f.app + (" " + (f.procId + (" " + (f.msgId + (" " + t)))))))))), caps)
            == Match(Step(DataNode(), MessagePattern()), t, HeadCaptures(f, caps))
  {
    hide Match, Field, Gap, WordOk, AfterVersion, DataNode, MessagePattern;
    var c1 := caps[Stamp := f.stamp];
    var c2 := c1[Host := f.host];
    var c3 := c2[App := f.app];
    var c4 := c3[ProcId := f.procId];
    var s4 := f.msgId + (" " + t);
    var s3 := f.procId + (" " + s4);
    var s2 := f.app + (" " + s3);
    var s1 := f.host + (" " + s2);
    IetfPattern();
    WordGapMatches(MsgId, Step(DataNode(), MessagePattern()), f.msgId, t, c4);
    WordStarts(f.msgId, " " + t);
    WordGapMatches(ProcId, FromMsgId(), f.procId, s4, c3);
    WordStarts(f.procId, " " + s4);
    WordGapMatches(App, Step(Field(ProcId, NonSpace), Gap(FromMsgId())), f.app, s3, c2);
    WordStarts(f.app, " " + s3);
    WordGapMatches(Host, FromApp(), f.host, s2, c1);
    WordStarts(f.host, " " + s2);
    WordGapMatches(Stamp, Step(Field(Host, NonSpace), Gap(FromApp())), f.stamp, s1, caps);
    WordStarts(f.stamp, " " + s1);
    GapMatches(FromStamp(), gap, f.stamp + (" " + s1), caps);
  }

  /** From the version on, when some text follows that starts with a space and matches. */
  lemma VersionMatches(pri: nat, version: string, s: string)
    requires VersionOk(version) && s != "" && !IsDigit(s[0])
    requires Match(AfterVersion(), s, map[][Pri := Decimal(pri)][Ver := version]).Some?
    ensures Match(Rfc5424(), "<" + Decimal(pri) + ">" + (version + s), map[])
            == Match(AfterVersion(), s, map[][Pri := Decimal(pri)][Ver := version])
  {
    hide Match, Field, AfterVersion, Decimal, All;
    FieldMatches(Ver, Digit, AfterVersion(), version, s, map[][Pri := Decimal(pri)]);
    HeaderMatches(Step(Field(Ver, Digit), AfterVersion()), pri, version + s, map[]);
  }

  lemma IetfLineMatches(pri: nat, f: Fields5424)
    requires IetfOk(f)
    ensures Match(Rfc5424(), IetfLine(pri, f), map[]) == Some(IetfCaptures(pri, f))
  {
    hide Match, WordOk, DataOk, MessageOk, AfterVersion, Decimal, FromData, DataNode, Rfc5424, VersionOk;
    var caps: Captures := map[][Pri := Decimal(pri)][Ver := f.version];
    DataAndMessageMatch(f, HeadCaptures(f, caps));
    HeadMatches(f, " ", FromData(f), caps) by { OneSpace(); }
    GapStarts(f);
    VersionMatches(pri, f.version, FromVersion(f));
    assert IetfLine(pri, f) == "<" + Decimal(pri) + ">" + (f.version + FromVersion(f));
  }

  lemma GapStarts(f: Fields5424)
    ensures FromVersion(f) != "" && !IsDigit(FromVersion(f)[0])
  {
  }

  // -------------------------------------------------------------- backwards

  lemma {:induction false} LazyFound(rest: Pattern, s: string, caps: Captures) returns (run: string, tail: string)
    requires Match(AfterBracket(rest), s, caps).Some?
    ensures s == run + ([']'] + tail) && All(run, NotNewline) && Match(AfterBracket(rest), s, caps) == Match(rest, tail, caps)
    decreases |s|
  {
    if Match(Step(Lit(']'), rest), s, caps).Some? {
      run := "";
      tail := LitFound(']', rest, s, caps);
    } else {
      var more: string;
      more, tail := LazyFound(rest, s[1..], caps);
      run := [s[0]] + more;
    }
  }

  lemma DataFound(rest: Pattern, s: string, caps: Captures) returns (data: string, tail: string)
    requires Match(Step(DataNode(), rest), s, caps).Some?
    ensures s == data + tail && (data == "-" || IsElement(data))
    ensures Match(Step(DataNode(), rest), s, caps) == Match(rest, tail, caps[Data := data])
  {
    var close := Step(Close(Data, s), rest);
    JoinData(close);
    if Match(Step(Lit('-'), close), s, caps).Some? {
      data := "-";
      tail := LitFound('-', close, s, caps);
    } else {
      var inside := LitFound('[', AfterBracket(close), s, caps);
      var run: string;
      run, tail := LazyFound(close, inside, caps);
      data := "[" + run + "]";
      assert data[1..|data| - 1] == run;
    }
    ConsumedIs(data, tail);
  }

  lemma WordGapFound(g: Group, rest: Pattern, s: string, caps: Captures) returns (word: string, tail: string)
    requires Match(Step(Field(g, NonSpace), Gap(rest)), s, caps).Some?
    ensures WordOk(word) && Match(Step(Field(g, NonSpace), Gap(rest)), s, caps) == Match(rest, tail, caps[g := word])
  {
    var u: string;
    word, u := FieldFound(g, NonSpace, Gap(rest), s, caps);
    var gap: string;
    gap, tail := ManyFound(Space, rest, u, caps[g := word]);
  }

  lemma HeadFound(s: string, caps: Captures) returns (f: Fields5424, tail: string)
    requires Match(AfterVersion(), s, caps).Some?
    ensures HeadOk(f) && Match(AfterVersion(), s, caps) == Match(Step(DataNode(), MessagePattern()), tail, HeadCaptures(f, caps))
  {
    hide Match, Field, WordOk, AfterVersion, DataNode, MessagePattern, All;
    IetfPattern();
    var gap, a := ManyFound(Space, FromStamp(), s, caps);
    var stamp, b := WordGapFound(Stamp, Step(Field(Host, NonSpace), Gap(FromApp())), a, caps);
    var c1 := caps[Stamp := stamp];
    var host, c := WordGapFound(Host, FromApp(), b, c1);
    var c2 := c1[Host := host];
    var app, d := WordGapFound(App, Step(Field(ProcId, NonSpace), Gap(FromMsgId())), c, c2);
    var c3 := c2[App := app];
    var procId, e := WordGapFound(ProcId, FromMsgId(), d, c3);
    var c4 := c3[ProcId := procId];
    var msgId, t := WordGapFound(MsgId, Step(DataNode(), MessagePattern()), e, c4);
    f := Fields5424("", stamp, host, app, procId, msgId, "", "");
    tail := t;
  }

  /** Whatever text is read in the IETF form, each field read is well formed. */
  lemma IetfFound(raw: string) returns (pri: string, f: Fields5424)
    requires Match(Rfc5424(), raw, map[]).Some?
    ensures VersionOk(f.version) && HeadOk(f) && (f.data == "-" || IsElement(f.data)) && MessageOk(f.msg)
    ensures Match(Rfc5424(), raw, map[]) ==
            Some(HeadCaptures(f, map[][Pri := pri][Ver := f.version])[Data := f.data][Msg := f.msg])
  {
    hide Match, Field, HeadOk, AfterVersion, DataNode, MessagePattern, All, IsElement, MessageOk, Lit;
    var p := Step(Field(Ver, Digit), AfterVersion());
    var a := LitFound('<', Step(Field(Pri, Digit), Step(Lit('>'), p)), raw, map[]);
    var number, b := FieldFound(Pri, Digit, Step(Lit('>'), p), a, map[]);
    var caps: Captures := map[][Pri := number];
    var c := LitFound('>', p, b, caps);
    var version, d := FieldFound(Ver, Digit, AfterVersion(), c, caps);
    var head, e := HeadFound(d, caps[Ver := version]);
    var data, t := DataFound(MessagePattern(), e, HeadCaptures(head, caps[Ver := version]));
    var msg := MessageFound(t, HeadCaptures(head, caps[Ver := version])[Data := data]);
    pri := number;
    f := head.(version := version, data := data, msg := msg);
    SameHead(f, head);
  }

  lemma SameHead(f: Fields5424, g: Fields5424)
    requires f.stamp == g.stamp && f.host == g.host && f.app == g.app && f.procId == g.procId && f.msgId == g.msgId
    ensures HeadOk(f) == HeadOk(g) && forall caps :: HeadCaptures(f, caps) == HeadCaptures(g, caps)
  {
  }

  /** Text on one line always reads as a message, after the spaces it begins with. */
  lemma {:induction false} OneLineIsMessage(x: string, caps: Captures)
    requires All(x, NotNewline)
    ensures exists gap, msg :: x == gap + msg && All(gap, Space) && MessageOk(msg)
    ensures Match(MessagePattern(), x, caps).Some?
  {
    var gap, msg := SplitGap(x);
    MessageMatches(gap, msg, msg, caps);
  }

  lemma {:induction false} SplitGap(x: string) returns (gap: string, msg: string)
    requires All(x, NotNewline)
    ensures x == gap + msg && All(gap, Space) && MessageOk(msg)
  {
    if x != "" && IsSpace(x[0]) {
      var more: string;
      more, msg := SplitGap(x[1..]);
      gap := [x[0]] + more;
    } else {
      gap, msg := "", x;
    }
  }

  lemma {:induction false} FirstBracket(s: string) returns (k: nat)
    requires IsElement(s) && !DataOk(s)
    ensures 0 < k < |s| - 1 && DataOk(s[..k + 1])
  {
    var n :| 0 < n < |s| - 1 && s[n] == ']';
    k := 1;
    while s[k] != ']'
      invariant 0 < k <= n && forall m :: 0 < m < k ==> s[m] != ']'
      decreases n - k
    {
      k := k + 1;
    }
    assert s[..k + 1][1..k] == s[1..|s| - 1][..k - 1];
  }

  /** Data with an inner bracket is cut there, and the rest becomes message. */
  lemma InnerBracketCutsData(f: Fields5424, caps: Captures)
    requires IsElement(f.data) && !DataOk(f.data) && MessageOk(f.msg)
    ensures FromData(f) != "" && !IsSpace(FromData(f)[0])
    ensures var r := Match(Step(DataNode(), MessagePattern()), FromData(f), caps);
            r.Some? && Data in r.value && r.value[Data] != f.data
  {
    var k := FirstBracket(f.data);
    var short, left := f.data[..k + 1], f.data[k + 1..] + (" " + f.msg);
    assert FromData(f) == short + left;
    LeftIsOneLine(f, k);
    OneLineIsMessage(left, caps[Data := short]);
    hide Match, MessagePattern, DataNode;
    DataMatches(short, MessagePattern(), left, caps);
    var msg := MessageFound(left, caps[Data := short]);
  }

  lemma LeftIsOneLine(f: Fields5424, k: nat)
    requires IsElement(f.data) && MessageOk(f.msg) && 0 < k < |f.data| - 1
    ensures All(f.data[k + 1..] + (" " + f.msg), NotNewline)
  {
    var s, left := f.data, f.data[k + 1..] + (" " + f.msg);
    forall n | 0 <= n < |left| ensures In(left[n], NotNewline) {
      if k + 1 + n < |s| - 1 {
        assert s[1..|s| - 1][k + n] == left[n];
      }
    }
  }

  // ------------------------------------------------------------ main results

  /** A line in the IETF form is read back field by field if and only if its fields are well formed. */
  lemma IetfLineRoundTrips(pri: nat, f: Fields5424)
    ensures Match(Rfc5424(), IetfLine(pri, f), map[]) == Some(IetfCaptures(pri, f)) <==> IetfOk(f)
  {
    hide Match, WordOk, VersionOk, MessageOk, AfterVersion, Decimal, FromData, DataNode, Rfc5424, MessagePattern, DataOk, IsElement;
    if IetfOk(f) {
      IetfLineMatches(pri, f);
    }
    if Match(Rfc5424(), IetfLine(pri, f), map[]) == Some(IetfCaptures(pri, f)) {
      var number, g := IetfFound(IetfLine(pri, f));
      SameCaptures(pri, f, number, g);
      DashIsData();
      if !DataOk(f.data) {
        LineCutsData(pri, f);
        CapturedData(pri, f);
      }
    }
  }

  lemma LineCutsData(pri: nat, f: Fields5424)
    requires VersionOk(f.version) && HeadOk(f) && IsElement(f.data) && !DataOk(f.data) && MessageOk(f.msg)
    ensures var r := Match(Rfc5424(), IetfLine(pri, f), map[]);
            r.Some? && Data in r.value && r.value[Data] != f.data
  {
    hide Match, WordOk, VersionOk, MessageOk, AfterVersion, Decimal, FromData, DataNode, Rfc5424, MessagePattern, DataOk, IsElement;
    var caps: Captures := map[][Pri := Decimal(pri)][Ver := f.version];
    InnerBracketCutsData(f, HeadCaptures(f, caps));
    HeadMatches(f, " ", FromData(f), caps) by { OneSpace(); }
    GapStarts(f);
    VersionMatches(pri, f.version, FromVersion(f));
    assert IetfLine(pri, f) == "<" + Decimal(pri) + ">" + (f.version + FromVersion(f));
  }

  lemma CapturedData(pri: nat, f: Fields5424)
    ensures Data in IetfCaptures(pri, f) && IetfCaptures(pri, f)[Data] == f.data
  {
  }

  lemma DashIsData()
    ensures DataOk("-")
  {
  }

  lemma SameCaptures(pri: nat, f: Fields5424, number: string, g: Fields5424)
    requires HeadCaptures(g, map[][Pri := number][Ver := g.version])[Data := g.data][Msg := g.msg] == IetfCaptures(pri, f)
    ensures f == g
  {
    var c := IetfCaptures(pri, f);
    assert c[Ver] == f.version && c[Stamp] == f.stamp && c[Host] == f.host && c[App] == f.app;
    assert c[ProcId] == f.procId && c[MsgId] == f.msgId && c[Data] == f.data && c[Msg] == f.msg;
  }

  /** The listener's record of such a line: the application name is its tag. */
  lemma IetfLineIsParsed(pri: nat, f: Fields5424)
    requires IetfOk(f)
    ensures var (facility, severity) := ParsePri(Decimal(pri));
            ParseMessage(IetfLine(pri, f)) == Parsed(Ietf, f.stamp, f.host, facility, severity, f.app, f.msg)
  {
    hide Match, IetfOk, Rfc5424, Decimal, ParsePri, IetfLine;
    IetfLineMatches(pri, f);
  }

  /** Whatever is parsed in the IETF form has a stamp, host and tag of one word each, and a message of one line. */
  lemma ParsedIetfIsWellFormed(raw: string)
    requires ParseMessage(raw).Parsed? && ParseMessage(raw).form == Ietf
    ensures var r := ParseMessage(raw); WordOk(r.stamp) && WordOk(r.host) && WordOk(r.tag) && MessageOk(r.message)
  {
    hide Match, Rfc5424, Rfc3164, Rfc3164Iso, WordOk, MessageOk, ParsePri;
    var pri, f := IetfFound(raw);
  }

  lemma LooseIsIllFormed(f: Fields5424)
    ensures !IetfOk(f.(version := f.version + " "))
  {
    var version := f.version + " ";
    SpaceIsNoDigit();
    assert !In(version[|f.version|], Digit);
  }

  lemma LooseLineMatches(pri: nat, f: Fields5424)
    requires IetfOk(f)
    ensures Match(Rfc5424(), IetfLine(pri, f.(version := f.version + " ")), map[]) == Some(IetfCaptures(pri, f))
  {
    hide Match, WordOk, DataOk, MessageOk, AfterVersion, Decimal, FromData, DataNode, Rfc5424, VersionOk;
    var caps: Captures := map[][Pri := Decimal(pri)][Ver := f.version];
    DataAndMessageMatch(f, HeadCaptures(f, caps));
    HeadMatches(f, "  ", FromData(f), caps) by { TwoSpaces(); }
    LooseLineParts(pri, f);
    SpaceIsNoDigit();
    VersionMatches(pri, f.version, "  " + FromStampText(f));
  }

  function FromStampText(f: Fields5424): string {
    f.stamp + (" " + (f.host + (" " + (f.app + (" " + (f.procId + (" " + (f.msgId + (" " + FromData(f))))))))))
  }

  lemma LooseLineParts(pri: nat, f: Fields5424)
    ensures IetfLine(pri, f.(version := f.version + " ")) == "<" + Decimal(pri) + ">" + (f.version + ("  " + FromStampText(f)))
  {
    hide Decimal, FromStampText;
    var loose := f.(version := f.version + " ");
    assert FromVersion(loose) == " " + FromStampText(f) by { TextOfLoose(f); }
    hide FromVersion;
  }

  lemma TextOfLoose(f: Fields5424)
    ensures FromVersion(f.(version := f.version + " ")) == " " + FromStampText(f)
  {
  }

  /** The record alone does not show it: with a spare space after the version the line is ill formed, and parsed the same. */
  lemma SpareSpaceIsForgiven(pri: nat, f: Fields5424)
    requires IetfOk(f)
    ensures var loose := f.(version := f.version + " ");
            !IetfOk(loose) && ParseMessage(IetfLine(pri, loose)) == ParseMessage(IetfLine(pri, f))
  {
    hide Match, IetfOk, Rfc5424, Decimal, ParsePri, IetfLine;
    LooseIsIllFormed(f);
    IetfLineMatches(pri, f);
    LooseLineMatches(pri, f);
  }

  lemma TwoSpaces()
    ensures All("  ", Space)
  {
  }

  lemma SpaceIsNoDigit()
    ensures !IsDigit(' ')
  {
  }

  // --------------------------------------------------------------- examples

  /** The first example of section 5.4 of RFC 3164, with its closing device path left off. */
  lemma BsdExample()
    ensures ParseMessage("<34>Oct 11 22:14:15 mymachine su: 'su root' failed") ==
            Parsed(Bsd, "Oct 11 22:14:15", "mymachine", "auth", "crit", "su", "'su root' failed")
  {
    hide ParseMessage, Line, StampOf, Decimal, ParsePri, HostOk, TagOk, MessageOk, All;
    ExampleStamp();
    ExamplePri();
    ExampleWords();
    ExampleLine();
    PlainTagIsOk("su");
    PrintedLineRoundTrips(34, DateTime(9, 11, 22, 14, 15), "mymachine", "su", "'su root' failed");
  }

  lemma ExampleLine()
    ensures Line(34, "Oct 11 22:14:15", "mymachine", "su", "'su root' failed") == "<34>Oct 11 22:14:15 mymachine su: 'su root' failed"
  {
    ExamplePri();
    hide Decimal, ParsePri;
    assert "<" + "34" + ">" == "<34>";
    assert "<34>" + "Oct 11 22:14:15" + " " == "<34>Oct 11 22:14:15 ";
    assert "<34>Oct 11 22:14:15 " + "mymachine" + " " == "<34>Oct 11 22:14:15 mymachine ";
    assert "<34>Oct 11 22:14:15 mymachine " + "su" + ": " == "<34>Oct 11 22:14:15 mymachine su: ";
  }

  lemma ExampleStamp()
    ensures StampOf(DateTime(9, 11, 22, 14, 15)) == "Oct 11 22:14:15"
  {
    assert Decimal(11) == "11";
  }

  lemma ExamplePri()
    ensures Decimal(34) == "34" && ParsePri(Decimal(34)) == ("auth", "crit")
  {
    hide ParsePri, Decimal, FACILITIES, SEVERITIES;
    PriRoundTrip(4, 2);
    ExampleNames();
    ExampleNumber();
  }

  lemma ExampleNames()
    ensures |FACILITIES| == 24 && FACILITIES[4] == "auth" && |SEVERITIES| == 8 && SEVERITIES[2] == "crit"
  {
  }

  lemma ExampleNumber()
    ensures Decimal(34) == "34"
  {
  }

  lemma ExampleWords()
    ensures HostOk("mymachine") && All("su", TagChar) && MessageOk("'su root' failed")
  {
  }
}
