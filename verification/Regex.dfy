/** A backtracking matcher for the constructs the syslog header patterns use, with the order of choices of a regex engine. */
module Regex {
  import opened Sequences

  datatype Class = Digit | Word | Space | NonSpace | NotNewline | TagChar | Is(c: char) | Sign

  datatype Group = Pri | Ver | Stamp | Host | App | ProcId | MsgId | Data | Tag | Msg

  type Captures = map<Group, string>

  /**
    Run repeats a class between `lo` and `hi` times; Alt tries its first branch, then its second. Close ends a
    capture that began where the rest of the input was `from`. End is the `$` anchor.
   */
  datatype Node =
    | Run(cls: Class, lo: nat, hi: Option<nat>, greedy: bool)
    | Alt(first: Pattern, second: Pattern)
    | Capture(group: Group, body: Pattern)
    | Close(group: Group, from: string)
    | End

  datatype Pattern = Done | Step(node: Node, rest: Pattern)

  predicate IsSpace(c: char) {
    var n := c as int;
    9 <= n <= 13 || 28 <= n <= 32 || n == 0x85 || n == 0xA0 || n == 0x1680 || 0x2000 <= n <= 0x200A
    || n == 0x2028 || n == 0x2029 || n == 0x202F || n == 0x205F || n == 0x3000
  }

  /** The decimal digits beyond ASCII, with their values. Which there are is left to the Unicode version in use. */
  type DigitTable = t: map<char, nat> | forall c :: c in t ==> c as int >= 128 && !IsSpace(c) && t[c] < 10 witness map[]

  const OTHER_DIGITS: DigitTable

  /** The letters beyond ASCII, likewise. */
  const OTHER_LETTERS: set<char>

  predicate IsDigit(c: char) {
    '0' <= c <= '9' || c in OTHER_DIGITS
  }

  function DigitValue(c: char): nat
    requires IsDigit(c)
  {
    if c in OTHER_DIGITS then OTHER_DIGITS[c] else (c - '0') as nat
  }

  predicate In(c: char, k: Class) {
    match k
    case Digit => IsDigit(c)
    case Word => IsDigit(c) || 'a' <= c <= 'z' || 'A' <= c <= 'Z' || c == '_' || c in OTHER_LETTERS
    case Space => IsSpace(c)
    case NonSpace => !IsSpace(c)
    case NotNewline => c != '\n'
    case TagChar => c != ':' && c != '[' && !IsSpace(c)
    case Is(x) => c == x
    case Sign => c == '+' || c == '-'
  }

  function NodeSize(n: Node): nat {
    match n
    case Alt(a, b) => 1 + Size(a) + Size(b)
    case Capture(_, body) => 2 + Size(body)
    case _ => 1
  }

  function Size(p: Pattern): nat {
    match p
    case Done => 0
    case Step(n, rest) => NodeSize(n) + Size(rest)
  }

  function Join(p: Pattern, q: Pattern): Pattern {
    match p
    case Done => q
    case Step(n, rest) => Step(n, Join(rest, q))
  }

  lemma SizeStep(n: Node, rest: Pattern)
    ensures Size(Step(n, rest)) == NodeSize(n) + Size(rest) && NodeSize(n) > 0
    ensures n.Alt? ==> NodeSize(n) == 1 + Size(n.first) + Size(n.second)
    ensures n.Capture? ==> forall g, s :: NodeSize(n) + Size(rest) == 1 + Size(n.body) + Size(Step(Close(g, s), rest))
  {
  }

  lemma {:induction false} SizeJoin(p: Pattern, q: Pattern)
    ensures Size(Join(p, q)) == Size(p) + Size(q)
  {
    if p.Step? {
      SizeJoin(p.rest, q);
    }
  }

  function Less(n: nat): nat {
    if n == 0 then 0 else n - 1
  }

  predicate CanTake(n: Node, s: string) {
    n.Run? && s != "" && In(s[0], n.cls) && n.hi != Some(0)
  }

  function Fewer(n: Node): Node
    requires n.Run?
  {
    Run(n.cls, Less(n.lo), if n.hi.None? then None else Some(Less(n.hi.value)), n.greedy)
  }

  function Consumed(from: string, s: string): string {
    if |s| <= |from| then from[..|from| - |s|] else ""
  }

  /** The first match found, as the captures it makes. */
  function Match(p: Pattern, s: string, caps: Captures): Option<Captures>
    decreases |s|, Size(p)
  {
    match p
    case Done => Some(caps)
    case Step(n, rest) =>
      SizeStep(n, rest);
      match n
      case Run(_, lo, _, greedy) =>
        var more := if CanTake(n, s) then Match(Step(Fewer(n), rest), s[1..], caps) else None;
        var stop := if lo == 0 then Match(rest, s, caps) else None;
        if greedy then (if more.Some? then more else stop) else (if stop.Some? then stop else more)
      case Alt(a, b) =>
        SizeJoin(a, rest);
        SizeJoin(b, rest);
        var r := Match(Join(a, rest), s, caps);
        if r.Some? then r else Match(Join(b, rest), s, caps)
      case Capture(g, body) =>
        SizeJoin(body, Step(Close(g, s), rest));
        Match(Join(body, Step(Close(g, s), rest)), s, caps)
      case Close(g, from) => Match(rest, s, caps[g := Consumed(from, s)])
      case End => if s == "" || s == "\n" then Match(rest, s, caps) else None
  }

  // ------------------------------------------------------------ constructors

  function Many(k: Class): Node {
    Run(k, 1, None, true)
  }

  function Any(k: Class): Node {
    Run(k, 0, None, true)
  }

  function Exactly(k: Class, n: nat): Node {
    Run(k, n, Some(n), true)
  }

  function Lit(c: char): Node {
    Exactly(Is(c), 1)
  }

  function Maybe(p: Pattern): Node {
    Alt(p, Done)
  }

  // ------------------------------------------------------------------ facts

  predicate All(s: string, k: Class) {
    forall n :: 0 <= n < |s| ==> In(s[n], k)
  }

  /** A greedy run followed by something outside its class takes the whole run, if the rest then matches. */
  lemma {:induction false} RunTakesAll(k: Class, lo: nat, rest: Pattern, run: string, s: string, caps: Captures)
    requires All(run, k) && |run| >= lo && (s != "" ==> !In(s[0], k))
    requires Match(rest, s, caps).Some?
    ensures Match(Step(Run(k, lo, None, true), rest), run + s, caps) == Match(rest, s, caps)
    decreases |run|
  {
    if run == "" {
      assert run + s == s;
    } else {
      assert (run + s)[1..] == run[1..] + s;
      RunTakesAll(k, Less(lo), rest, run[1..], s, caps);
    }
  }

  /** A run that can stop nowhere fails. */
  lemma {:induction false} RunFails(k: Class, lo: nat, rest: Pattern, run: string, s: string, caps: Captures)
    requires All(run, k) && (s != "" ==> !In(s[0], k))
    requires forall n :: lo <= n <= |run| ==> Match(rest, run[n..] + s, caps).None?
    ensures Match(Step(Run(k, lo, None, true), rest), run + s, caps).None?
    decreases |run|
  {
    if run == "" {
      assert run + s == s;
      assert lo == 0 ==> Match(rest, run[0..] + s, caps).None?;
    } else {
      assert (run + s)[1..] == run[1..] + s;
      forall n | Less(lo) <= n <= |run| - 1 ensures Match(rest, run[1..][n..] + s, caps).None? {
        assert run[1..][n..] == run[n + 1..];
      }
      RunFails(k, Less(lo), rest, run[1..], s, caps);
      assert lo == 0 ==> run[0..] == run && Match(rest, run[0..] + s, caps).None?;
    }
  }

  /** A counted run matches exactly when it finds that many characters of its class. */
  lemma {:induction false} ExactlyTakes(k: Class, rest: Pattern, run: string, s: string, caps: Captures)
    requires All(run, k)
    ensures Match(Step(Exactly(k, |run|), rest), run + s, caps) == Match(rest, s, caps)
    decreases |run|
  {
    if run == "" {
      assert run + s == s;
    } else {
      assert (run + s)[1..] == run[1..] + s;
      ExactlyTakes(k, rest, run[1..], s, caps);
    }
  }

  lemma ExactlyFails(k: Class, n: nat, rest: Pattern, s: string, caps: Captures)
    requires n > 0 && (s != "" ==> !In(s[0], k))
    ensures Match(Step(Exactly(k, n), rest), s, caps).None?
  {
  }

  /** Where a run stopped, and that it could not have stopped later. */
  ghost predicate Stops(k: Class, lo: nat, rest: Pattern, s: string, caps: Captures, n: nat) {
    && lo <= n <= |s| && All(s[..n], k) && Match(rest, s[n..], caps).Some?
    && (n < |s| && In(s[n], k) ==> Match(rest, s[n + 1..], caps).None?)
  }

  lemma {:induction false} RunStops(k: Class, lo: nat, rest: Pattern, s: string, caps: Captures) returns (n: nat)
    requires Match(Step(Run(k, lo, None, true), rest), s, caps).Some?
    ensures Stops(k, lo, rest, s, caps, n)
    ensures Match(Step(Run(k, lo, None, true), rest), s, caps) == Match(rest, s[n..], caps)
    decreases |s|
  {
    var node := Run(k, lo, None, true);
    if CanTake(node, s) && Match(Step(Fewer(node), rest), s[1..], caps).Some? {
      var m := RunStops(k, Less(lo), rest, s[1..], caps);
      n := m + 1;
      assert s[n..] == s[1..][m..];
      assert n < |s| ==> s[1..][m] == s[n] && s[1..][m + 1..] == s[n + 1..];
      assert s[..n] == [s[0]] + s[1..][..m];
    } else {
      n := 0;
      assert s[0..] == s;
      if CanTake(node, s) {
        FirstStop(k, rest, s[1..], caps);
      }
    }
  }

  /** A run with no minimum can always stop at once. */
  lemma FirstStop(k: Class, rest: Pattern, s: string, caps: Captures)
    requires Match(Step(Run(k, 0, None, true), rest), s, caps).None?
    ensures Match(rest, s, caps).None?
  {
  }

  lemma ConsumedIs(run: string, s: string)
    ensures Consumed(run + s, s) == run
  {
  }
}
