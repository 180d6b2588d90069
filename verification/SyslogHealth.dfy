/** Severity ranks, counters and the health score of a syslog device. */
module SyslogHealth {
  import opened Sequences
  import opened Messages

  /** `classify` and `signature` are the two text functions; nothing here depends on how they read the text. */
  datatype Config = Config(window: real, stale: real, classify: string -> string, signature: (string, string, string) -> string)

  datatype Event = Event(ts: Time, severity: string, category: string, message: string)

  datatype Reason =
    | NeverSeen
    | SilentFor(seconds: int)
    | ErrorRateHigh
    | WarnRateHigh
    | LinkFlap
    | AuthFailures
    | HardwareFault

  datatype Health = Health(status: Status, score: int, reasons: seq<Reason>)

  /** A name the table does not know ranks with "info". */
  function Rank(severity: string): nat {
    if severity == "emerg" then 0
    else if severity == "alert" then 1
    else if severity == "crit" then 2
    else if severity == "err" || severity == "error" then 3
    else if severity == "warning" || severity == "warn" then 4
    else if severity == "notice" then 5
    else if severity == "debug" then 7
    else 6
  }

  predicate IsError(severity: string) {
    Rank(severity) <= 3
  }

  predicate IsWarning(severity: string) {
    Rank(severity) == 4
  }

  predicate IsNoise(severity: string, category: string) {
    Rank(severity) >= 7 || (Rank(severity) >= 6 && category == "other")
  }

  function Severities(events: seq<Event>): seq<string> {
    seq(|events|, n requires 0 <= n < |events| => events[n].severity)
  }

  function Categories(events: seq<Event>): seq<string> {
    seq(|events|, n requires 0 <= n < |events| => events[n].category)
  }

  // --------------------------------------------------------------- counters

  type Counter = map<string, nat>

  function Get(c: Counter, word: string): nat {
    if word in c then c[word] else 0
  }

  function Tally(words: seq<string>): Counter {
    if words == [] then map[]
    else
      var c := Tally(words[..|words| - 1]);
      c[Last(words) := Get(c, Last(words)) + 1]
  }

  function Occurrences(words: seq<string>, p: string -> bool): nat {
    if words == [] then 0
    else Occurrences(words[..|words| - 1], p) + (if p(Last(words)) then 1 else 0)
  }

  ghost function Total(c: Counter, keys: set<string>): nat
    requires keys <= c.Keys
  {
    if keys == {} then 0
    else
      var k :| k in keys;
      c[k] + Total(c, keys - {k})
  }

  /** The order in which the keys are added up does not matter. */
  lemma {:induction false} TotalWithout(c: Counter, keys: set<string>, k: string)
    requires keys <= c.Keys && k in keys
    ensures Total(c, keys) == c[k] + Total(c, keys - {k})
    decreases |keys|
  {
    var first :| first in keys && Total(c, keys) == c[first] + Total(c, keys - {first});
    if first != k {
      TotalWithout(c, keys - {first}, k);
      TotalWithout(c, keys - {k}, first);
      assert keys - {first} - {k} == keys - {k} - {first};
    }
  }

  lemma {:induction false} TotalDependsOnKeys(b: Counter, c: Counter, keys: set<string>)
    requires keys <= b.Keys && keys <= c.Keys && forall k :: k in keys ==> b[k] == c[k]
    ensures Total(b, keys) == Total(c, keys)
    decreases |keys|
  {
    if keys != {} {
      var k :| k in keys;
      TotalWithout(b, keys, k);
      TotalWithout(c, keys, k);
      TotalDependsOnKeys(b, c, keys - {k});
    }
  }

  function Chosen(c: Counter, p: string -> bool): set<string> {
    set k | k in c && p(k)
  }

  /** Summing a counter over the keys that satisfy `p` counts the occurrences that satisfy it. */
  lemma {:induction false} CounterCounts(words: seq<string>, p: string -> bool)
    ensures Total(Tally(words), Chosen(Tally(words), p)) == Occurrences(words, p)
  {
    if words != [] {
      var w := Last(words);
      var b := Tally(words[..|words| - 1]);
      var c := Tally(words);
      CounterCounts(words[..|words| - 1], p);
      assert c == b[w := Get(b, w) + 1];
      var others := Chosen(b, p) - {w};
      assert Chosen(c, p) - {w} == others;
      TotalDependsOnKeys(b, c, others);
      if p(w) {
        TotalWithout(c, Chosen(c, p), w);
        if w in b {
          TotalWithout(b, Chosen(b, p), w);
        } else {
          assert Chosen(b, p) == others;
        }
      } else {
        assert Chosen(b, p) == others && Chosen(c, p) == others;
      }
    }
  }

  /** Adding up the counter's entries for the two spellings of "warning" counts the events of rank 4. */
  lemma {:induction false} WarningSpellings(words: seq<string>)
    ensures Get(Tally(words), "warning") + Get(Tally(words), "warn") == Occurrences(words, IsWarning)
  {
    if words != [] {
      WarningSpellings(words[..|words| - 1]);
      assert "warning" != "warn";
      RankFour(Last(words));
    }
  }

  lemma RankFour(severity: string)
    ensures IsWarning(severity) <==> severity == "warning" || severity == "warn"
  {
    assert "warning"[0] == 'w' && "warn"[0] == 'w';
    assert "emerg"[0] == 'e' && "alert"[0] == 'a' && "crit"[0] == 'c' && "err"[0] == 'e' && "error"[0] == 'e';
  }

  method SumWhere(c: Counter, p: string -> bool) returns (total: nat)
    ensures total == Total(c, Chosen(c, p))
  {
    total := 0;
    var todo := Chosen(c, p);
    while todo != {}
      invariant todo <= Chosen(c, p)
      invariant total + Total(c, todo) == Total(c, Chosen(c, p))
    {
      var k :| k in todo;
      TotalWithout(c, todo, k);
      total := total + c[k];
      todo := todo - {k};
    }
  }

  // ------------------------------------------------------------------ score

  function Min(a: int, b: int): int {
    if a < b then a else b
  }

  function Truncated(x: real): int {
    if x >= 0.0 then x.Floor else -((-x).Floor)
  }

  function Score(errors: nat, warns: nat, halfStale: bool): int {
    100 - Min(errors * 8, 60) - Min(warns * 2, 20) - (if halfStale then 15 else 0)
  }

  function StatusOf(score: int): Status {
    if score >= 85 then Healthy else if score >= 60 then Degraded else Unhealthy
  }

  function Noted(reasons: seq<Reason>, holds: bool, reason: Reason): seq<Reason> {
    if holds then reasons + [reason] else reasons
  }

  function Reasons(errors: nat, warns: nat, categories: Counter): seq<Reason> {
    var load := Noted(Noted([], errors >= 5, ErrorRateHigh), warns >= 10, WarnRateHigh);
    var access := Noted(Noted(load, Get(categories, "link") >= 3, LinkFlap), Get(categories, "auth") >= 5, AuthFailures);
    Noted(access, Get(categories, "hardware") >= 1, HardwareFault)
  }

  function HealthOf(cfg: Config, events: seq<Event>, lastSeen: Time, now: Time): Health {
    var silent := now - lastSeen;
    if lastSeen == 0.0 then Health(Unknown, 0, [NeverSeen])
    else if silent > cfg.stale then Health(Unhealthy, 10, [SilentFor(Truncated(silent))])
    else
      var errors := Occurrences(Severities(events), IsError);
      var warns := Occurrences(Severities(events), IsWarning);
      var score := Score(errors, warns, silent > cfg.stale / 2.0);
      Health(StatusOf(score), if score > 0 then score else 0, Reasons(errors, warns, Tally(Categories(events))))
  }

  method ComputeHealth(cfg: Config, events: seq<Event>, lastSeen: Time, now: Time) returns (h: Health)
    ensures h == HealthOf(cfg, events, lastSeen, now)
  {
    hide Occurrences, Tally, Chosen, Total, Severities, Categories, Get, Reasons;
    if lastSeen == 0.0 {
      return Health(Unknown, 0, [NeverSeen]);
    }
    var silent := now - lastSeen;
    if silent > cfg.stale {
      return Health(Unhealthy, 10, [SilentFor(Truncated(silent))]);
    }
    var severities: Counter, categories: Counter := CountEvents(events);
    var errors := SumWhere(severities, IsError);
    var warns := SumWhere(severities, IsWarning);
    CounterCounts(Severities(events), IsError);
    CounterCounts(Severities(events), IsWarning);
    var score: int := 100;
    score := score - Min(errors * 8, 60);
    score := score - Min(warns * 2, 20);
    if silent > cfg.stale / 2.0 {
      score := score - 15;
    }
    var reasons := Explain(errors, warns, categories);
    var status := Unhealthy;
    if score >= 85 {
      status := Healthy;
    } else if score >= 60 {
      status := Degraded;
    }
    h := Health(status, if score > 0 then score else 0, reasons);
  }

  method Explain(errors: nat, warns: nat, categories: Counter) returns (reasons: seq<Reason>)
    ensures reasons == Reasons(errors, warns, categories)
  {
    hide Get;
    reasons := [];
    if errors >= 5 { reasons := reasons + [ErrorRateHigh]; }
    if warns >= 10 { reasons := reasons + [WarnRateHigh]; }
    if Get(categories, "link") >= 3 { reasons := reasons + [LinkFlap]; }
    if Get(categories, "auth") >= 5 { reasons := reasons + [AuthFailures]; }
    if Get(categories, "hardware") >= 1 { reasons := reasons + [HardwareFault]; }
  }

  lemma TallyNone()
    ensures Tally([]) == map[]
  {
  }

  lemma TallySnoc(words: seq<string>, w: string)
    ensures Tally(words + [w]) == Tally(words)[w := Get(Tally(words), w) + 1]
  {
    assert (words + [w])[..|words|] == words;
  }

  method CountEvents(events: seq<Event>) returns (severities: Counter, categories: Counter)
    ensures severities == Tally(Severities(events)) && categories == Tally(Categories(events))
  {
    severities, categories := map[], map[];
    hide Get, Tally;
    TallyNone();
    assert Severities(events[..0]) == [] && Categories(events[..0]) == [];
    for n := 0 to |events|
      invariant severities == Tally(Severities(events[..n])) && categories == Tally(Categories(events[..n]))
    {
      severities := severities[events[n].severity := Get(severities, events[n].severity) + 1];
      categories := categories[events[n].category := Get(categories, events[n].category) + 1];
      assert Severities(events[..n + 1]) == Severities(events[..n]) + [events[n].severity];
      assert Categories(events[..n + 1]) == Categories(events[..n]) + [events[n].category];
      TallySnoc(Severities(events[..n]), events[n].severity);
      TallySnoc(Categories(events[..n]), events[n].category);
    }
    assert events[..|events|] == events;
  }

  // ------------------------------------------------------ facts on the score

  function Badness(s: Status): nat {
    match s
    case Healthy => 0
    case Degraded => 1
    case Unhealthy => 2
    case Unknown => 3
  }

  /**
    For a seen device that is not stale the score lies between 5 and 100, so the clamp at 0 never acts, and
    the status follows from the score: 85 and 60 are the boundaries.
   */
  lemma ScoreStaysInRange(cfg: Config, events: seq<Event>, lastSeen: Time, now: Time)
    requires lastSeen != 0.0 && now - lastSeen <= cfg.stale
    ensures var h := HealthOf(cfg, events, lastSeen, now);
            && 5 <= h.score <= 100
            && h.score == Score(Occurrences(Severities(events), IsError), Occurrences(Severities(events), IsWarning), now - lastSeen > cfg.stale / 2.0)
            && (h.status == Healthy <==> h.score >= 85)
            && (h.status == Degraded <==> 60 <= h.score < 85)
            && (h.status == Unhealthy <==> h.score < 60)
  {
  }

  /** What the counts must be for each verdict on a device heard from recently: the caps of 60 and 20 never matter. */
  lemma VerdictByCounts(cfg: Config, events: seq<Event>, lastSeen: Time, now: Time)
    requires lastSeen != 0.0 && now - lastSeen <= cfg.stale && now - lastSeen <= cfg.stale / 2.0
    ensures var errors, warns := Occurrences(Severities(events), IsError), Occurrences(Severities(events), IsWarning);
            var status := HealthOf(cfg, events, lastSeen, now).status;
            && (status == Healthy <==> 8 * errors + 2 * warns <= 15)
            && (status == Unhealthy <==> 8 * errors + Min(2 * warns, 20) > 40)
  {
  }

  /** The same after a silence of more than half the limit: only a spotless window is still healthy, at exactly 85. */
  lemma VerdictWhenQuiet(cfg: Config, events: seq<Event>, lastSeen: Time, now: Time)
    requires lastSeen != 0.0 && cfg.stale / 2.0 < now - lastSeen <= cfg.stale
    ensures var errors, warns := Occurrences(Severities(events), IsError), Occurrences(Severities(events), IsWarning);
            var h := HealthOf(cfg, events, lastSeen, now);
            && (h.status == Healthy <==> errors == 0 && warns == 0)
            && (h.status == Healthy <==> h.score == 85)
            && (h.status == Unhealthy <==> 8 * errors + Min(2 * warns, 20) > 25)
  {
  }

  /** Each reason is given exactly when its count reaches its threshold. */
  lemma ReasonsAreExact(errors: nat, warns: nat, categories: Counter)
    ensures var reasons := Reasons(errors, warns, categories);
            && (ErrorRateHigh in reasons <==> errors >= 5)
            && (WarnRateHigh in reasons <==> warns >= 10)
            && (LinkFlap in reasons <==> Get(categories, "link") >= 3)
            && (AuthFailures in reasons <==> Get(categories, "auth") >= 5)
            && (HardwareFault in reasons <==> Get(categories, "hardware") >= 1)
  {
    hide Get, Noted;
    var load := Noted([], errors >= 5, ErrorRateHigh);
    NotedMembers([], errors >= 5, ErrorRateHigh);
    NotedMembers(load, warns >= 10, WarnRateHigh);
    var both := Noted(load, warns >= 10, WarnRateHigh);
    NotedMembers(both, Get(categories, "link") >= 3, LinkFlap);
    var three := Noted(both, Get(categories, "link") >= 3, LinkFlap);
    NotedMembers(three, Get(categories, "auth") >= 5, AuthFailures);
    NotedMembers(Noted(three, Get(categories, "auth") >= 5, AuthFailures), Get(categories, "hardware") >= 1, HardwareFault);
  }

  lemma NotedMembers(reasons: seq<Reason>, holds: bool, reason: Reason)
    ensures forall x :: x in Noted(reasons, holds, reason) <==> x in reasons || (holds && x == reason)
  {
  }

  /** One more event never raises the score and never improves the status. */
  lemma MoreEventsNeverHelp(cfg: Config, events: seq<Event>, e: Event, lastSeen: Time, now: Time)
    ensures var before, after := HealthOf(cfg, events, lastSeen, now), HealthOf(cfg, events + [e], lastSeen, now);
            after.score <= before.score && Badness(after.status) >= Badness(before.status)
  {
    assert Severities(events + [e])[..|events|] == Severities(events);
  }

  /** A device never heard from is unknown; one silent beyond the limit is unhealthy at 10, for so many whole seconds. */
  lemma SilenceIsUnhealthy(cfg: Config, events: seq<Event>, lastSeen: Time, now: Time)
    ensures lastSeen == 0.0 ==> HealthOf(cfg, events, lastSeen, now) == Health(Unknown, 0, [NeverSeen])
    ensures lastSeen != 0.0 && now - lastSeen > cfg.stale ==>
              var h := HealthOf(cfg, events, lastSeen, now);
              && h.status == Unhealthy && h.score == 10 && |h.reasons| == 1 && h.reasons[0].SilentFor?
              && (now >= lastSeen ==> h.reasons[0].seconds as real <= now - lastSeen < (h.reasons[0].seconds + 1) as real)
  {
  }

  /** The most that errors, warnings and half a silence can take: with eight errors and ten warnings the score is 5. */
  lemma ScoreFloorIsReached(cfg: Config, events: seq<Event>, lastSeen: Time, now: Time)
    requires lastSeen != 0.0 && cfg.stale / 2.0 < now - lastSeen <= cfg.stale
    ensures HealthOf(cfg, events, lastSeen, now).score == 5 <==>
            Occurrences(Severities(events), IsError) >= 8 && Occurrences(Severities(events), IsWarning) >= 10
  {
  }

  /** Which names count as errors, which as warnings, and which lines are noise. */
  lemma SeverityNames(severity: string, category: string)
    ensures IsError(severity) <==>
            severity == "emerg" || severity == "alert" || severity == "crit" || severity == "err" || severity == "error"
    ensures IsWarning(severity) <==> severity == "warning" || severity == "warn"
    ensures IsNoise(severity, category) <==>
            severity == "debug" || (category == "other" && severity != "notice" && !IsError(severity) && !IsWarning(severity))
  {
    RankFour(severity);
    FirstLetters();
  }

  lemma FirstLetters()
    ensures "debug"[0] == 'd' && "notice"[0] == 'n' && "warning"[0] == 'w' && "warn"[0] == 'w' && "emerg"[0] == 'e'
    ensures "alert"[0] == 'a' && "crit"[0] == 'c' && "err"[0] == 'e' && "error"[0] == 'e'
  {
  }
}
