/** What any number of polls in a row guarantee, device by device. */
module PollRuns {
  import opened Sequences
  import opened Messages
  import opened Poller
  import opened Views

  /** Everything recorded and everything sent so far, with the current state table. */
  datatype World = World(store: Store, records: seq<Rec>, sent: seq<Message>)

  datatype Poll = Poll(report: Report, depth: nat)

  /** The statuses recorded for a device, in order. */
  function History(records: seq<Rec>, d: DeviceId): seq<Status> {
    if records == [] then []
    else if Last(records).device == d then History(records[..|records| - 1], d) + [Last(records).status]
    else History(records[..|records| - 1], d)
  }

  /** The statuses of a device's transition messages, in order. */
  function Changes(ms: seq<Message>, d: DeviceId): seq<Status> {
    if ms == [] then []
    else if Last(ms).Transition? && Last(ms).device == d then Changes(ms[..|ms| - 1], d) + [Last(ms).status]
    else Changes(ms[..|ms| - 1], d)
  }

  /** The alarm for a device missing from the platform's report. */
  predicate IsVanished(m: Message, d: DeviceId) {
    m.Transition? && m.device == d && m.cause.Absent?
  }

  predicate Flags(ms: seq<Message>, d: DeviceId) {
    exists m :: m in ms && IsVanished(m, d)
  }

  function LastAbout(ms: seq<Message>, d: DeviceId): Option<Message> {
    if ms == [] then None
    else if Last(ms).About(d) then Some(Last(ms))
    else LastAbout(ms[..|ms| - 1], d)
  }

  function Tail<T>(s: seq<T>): seq<T> {
    if s == [] then [] else s[1..]
  }

  /** The kinds a device's alerts should show after a history: those it has changed to since it was last healthy. */
  function OpenAfter(h: seq<Status>): set<Status> {
    if |h| <= 1 then {}
    else
      var front := h[..|h| - 1];
      if Last(h) == Last(front) then OpenAfter(front)
      else if Last(h) == Healthy then {}
      else OpenAfter(front) + {Last(h)}
  }

  function ExpectedView(h: seq<Status>): View {
    View(if h == [] then None else Some(Last(h)), OpenAfter(h))
  }

  // -------------------------------------------------------------- invariant

  ghost predicate Consistent(w: World, d: DeviceId) {
    var h := History(w.records, d);
    && Previous(w.store, d) == (if h == [] then None else Some(Last(h)))
    && Changes(w.sent, d) == Tail(Destutter(h))
    && RunView(BLANK, d, w.sent) == ExpectedView(h)
  }

  /** The message about a device before one that says it vanished came from a report of it. */
  ghost predicate Alternates(ms: seq<Message>, d: DeviceId) {
    ms == [] || (
      && Alternates(ms[..|ms| - 1], d)
      && (IsVanished(Last(ms), d) ==>
            var before := LastAbout(ms[..|ms| - 1], d); before.Some? && !IsVanished(before.value, d)))
  }

  ghost predicate VanishesOnce(w: World, d: DeviceId) {
    var last := LastAbout(w.sent, d);
    && Alternates(w.sent, d)
    && (Previous(w.store, d).Some? ==> last.Some?)
    && (last.Some? && IsVanished(last.value, d) ==> Previous(w.store, d) == Some(Unhealthy))
  }

  function RecordsOf(records: seq<Rec>, d: DeviceId): seq<Rec> {
    if records == [] then []
    else if Last(records).device == d then RecordsOf(records[..|records| - 1], d) + [Last(records)]
    else RecordsOf(records[..|records| - 1], d)
  }

  /** The status a device was last recorded with has lasted since record `n`. */
  predicate LastsSince(rs: seq<Rec>, n: nat) {
    && n < |rs|
    && (forall m :: n <= m < |rs| ==> rs[m].status == Last(rs).status)
    && (n > 0 ==> rs[n - 1].status != Last(rs).status)
  }

  /** What a row must say of the records of its device. */
  ghost predicate Tells(row: StoreRow, rs: seq<Rec>)
    requires rs != []
  {
    && row.status == Last(rs).status && row.score == Last(rs).score
    && row.lastSeen == Last(rs).at && row.firstSeen == rs[0].at
    && exists n: nat :: LastsSince(rs, n) && row.lastChange == rs[n].at
  }

  ghost predicate Remembers(w: World, d: DeviceId) {
    var rs := RecordsOf(w.records, d);
    && (d in w.store.rows <==> rs != [])
    && (rs != [] ==> Tells(w.store.rows[d], rs))
  }

  ghost predicate Inv(w: World) {
    ValidStore(w.store) && forall d :: Consistent(w, d) && VanishesOnce(w, d) && Remembers(w, d)
  }

  lemma HistorySnoc(records: seq<Rec>, r: Rec, d: DeviceId)
    ensures History(records + [r], d) == if r.device == d then History(records, d) + [r.status] else History(records, d)
  {
    assert (records + [r])[..|records|] == records;
  }

  lemma ChangesSnoc(ms: seq<Message>, m: Message, d: DeviceId)
    ensures Changes(ms + [m], d) == if m.Transition? && m.device == d then Changes(ms, d) + [m.status] else Changes(ms, d)
  {
    assert (ms + [m])[..|ms|] == ms;
  }

  lemma AlternatesSnoc(ms: seq<Message>, m: Message, d: DeviceId)
    requires Alternates(ms, d)
    requires IsVanished(m, d) ==> LastAbout(ms, d).Some? && !IsVanished(LastAbout(ms, d).value, d)
    ensures Alternates(ms + [m], d)
    ensures LastAbout(ms + [m], d) == if m.About(d) then Some(m) else LastAbout(ms, d)
  {
    assert (ms + [m])[..|ms|] == ms;
  }

  lemma ExpectedSnoc(h: seq<Status>, s: Status)
    ensures ExpectedView(h + [s]) ==
            if h == [] || Last(h) == s then ExpectedView(h).(status := Some(s))
            else if s == Healthy then View(Some(Healthy), {})
            else View(Some(s), ExpectedView(h).open + {s})
    ensures Tail(Destutter(h + [s])) == if h == [] || Last(h) == s then Tail(Destutter(h)) else Tail(Destutter(h)) + [s]
  {
    hide Destutter;
    OpenSnoc(h, s);
    DestutterSnoc(h, s);
    DestutterKeepsNonempty(h);
  }

  lemma OpenSnoc(h: seq<Status>, s: Status)
    ensures OpenAfter(h + [s]) ==
            if h == [] || Last(h) == s then OpenAfter(h) else if s == Healthy then {} else OpenAfter(h) + {s}
  {
    assert (h + [s])[..|h|] == h;
  }

  lemma DestutterKeepsNonempty(h: seq<Status>)
    ensures h == [] <==> Destutter(h) == []
  {
  }

  /** One record: `reported` says whether a periodic message goes with it; a change sends a transition. */
  ghost function Note(w: World, rec: Rec, now: Time, cause: Cause): World {
    var prev := Previous(w.store, rec.device);
    World(Record(w.store, rec.device, rec.status, rec.score, rec.at),
          w.records + [rec],
          w.sent + (if rec.swept then [] else [Periodic(now, rec.device, rec.status, rec.score)])
                 + (if prev.Some? && prev.value != rec.status then [Transition(now, rec.device, rec.status, rec.score, cause)] else []))
  }

  lemma NoteSends(w: World, rec: Rec, now: Time, cause: Cause, d: DeviceId)
    requires rec.swept ==> Previous(w.store, rec.device).Some? && Previous(w.store, rec.device).value != rec.status
    ensures var prev, w' := Previous(w.store, rec.device), Note(w, rec, now, cause);
            var changed := prev.Some? && prev.value != rec.status;
            && Changes(w'.sent, d) == (if rec.device == d && changed then Changes(w.sent, d) + [rec.status] else Changes(w.sent, d))
            && (rec.device != d ==> RunView(BLANK, d, w'.sent) == RunView(BLANK, d, w.sent))
            && (rec.device == d ==>
                  var v := RunView(BLANK, d, w.sent);
                  RunView(BLANK, d, w'.sent) ==
                    if !changed then v.(status := Some(rec.status))
                    else if rec.status == Healthy then View(Some(Healthy), {})
                    else View(Some(rec.status), v.open + {rec.status}))
  {
    var p, t := Periodic(now, rec.device, rec.status, rec.score), Transition(now, rec.device, rec.status, rec.score, cause);
    var mid := if rec.swept then w.sent else w.sent + [p];
    assert w.sent + [] == w.sent && mid + [] == mid;
    ChangesSnoc(w.sent, p, d);
    RunViewSnoc(BLANK, d, w.sent, p);
    ChangesSnoc(mid, t, d);
    RunViewSnoc(BLANK, d, mid, t);
  }

  lemma NoteRecords(w: World, rec: Rec, now: Time, cause: Cause, d: DeviceId)
    ensures var w' := Note(w, rec, now, cause);
            && w'.records == w.records + [rec]
            && Previous(w'.store, d) == if rec.device == d then Some(rec.status) else Previous(w.store, d)
  {
  }

  lemma ExpectedStatus(h: seq<Status>)
    ensures ExpectedView(h).status == if h == [] then None else Some(Last(h))
  {
  }

  lemma NoteKeepsConsistent(w: World, rec: Rec, now: Time, cause: Cause, d: DeviceId)
    requires Consistent(w, d) && Consistent(w, rec.device)
    requires rec.swept ==> Previous(w.store, rec.device).Some? && Previous(w.store, rec.device).value != rec.status
    ensures Consistent(Note(w, rec, now, cause), d)
  {
    hide Changes, RunView, Destutter, OpenAfter, History, Tail, Note, ExpectedView;
    NoteSends(w, rec, now, cause, d);
    NoteRecords(w, rec, now, cause, d);
    HistorySnoc(w.records, rec, d);
    ExpectedSnoc(History(w.records, d), rec.status);
    ExpectedStatus(History(w.records, d));
  }

  lemma NoteKeepsVanishing(w: World, rec: Rec, now: Time, cause: Cause, d: DeviceId)
    requires VanishesOnce(w, d) && VanishesOnce(w, rec.device) && (cause.Absent? <==> rec.swept)
    requires rec.swept ==> rec.status == Unhealthy && Previous(w.store, rec.device).Some? && Previous(w.store, rec.device).value != rec.status
    ensures VanishesOnce(Note(w, rec, now, cause), d)
  {
    hide Alternates, LastAbout;
    var p, t := Periodic(now, rec.device, rec.status, rec.score), Transition(now, rec.device, rec.status, rec.score, cause);
    var mid := if rec.swept then w.sent else w.sent + [p];
    assert w.sent + [] == w.sent && mid + [] == mid;
    if !rec.swept {
      AlternatesSnoc(w.sent, p, d);
    }
    var prev := Previous(w.store, rec.device);
    if prev.Some? && prev.value != rec.status {
      AlternatesSnoc(mid, t, d);
    }
  }

  lemma RecordTells(st: Store, rs: seq<Rec>, rec: Rec)
    requires rec.device in st.rows <==> rs != []
    requires rs != [] ==> Tells(st.rows[rec.device], rs)
    ensures Tells(Record(st, rec.device, rec.status, rec.score, rec.at).rows[rec.device], rs + [rec])
  {
    var longer, row := rs + [rec], Record(st, rec.device, rec.status, rec.score, rec.at).rows[rec.device];
    if rs != [] && Last(rs).status == rec.status {
      var n: nat :| LastsSince(rs, n) && st.rows[rec.device].lastChange == rs[n].at;
      assert LastsSince(longer, n) && row.lastChange == longer[n].at;
    } else {
      assert LastsSince(longer, |rs|) && row.lastChange == longer[|rs|].at;
    }
  }

  lemma NoteKeepsMemory(w: World, rec: Rec, now: Time, cause: Cause, d: DeviceId)
    requires Remembers(w, d)
    ensures Remembers(Note(w, rec, now, cause), d)
  {
    hide Tells;
    assert (w.records + [rec])[..|w.records|] == w.records;
    if rec.device == d {
      RecordTells(w.store, RecordsOf(w.records, d), rec);
    }
  }

  lemma NoteKeepsInv(w: World, rec: Rec, now: Time, cause: Cause)
    requires Inv(w) && (cause.Absent? <==> rec.swept)
    requires rec.swept ==> rec.status == Unhealthy && Previous(w.store, rec.device).Some? && Previous(w.store, rec.device).value != rec.status
    ensures Inv(Note(w, rec, now, cause))
  {
    hide Consistent, VanishesOnce, Remembers;
    RecordKeepsValid(w.store, rec.device, rec.status, rec.score, rec.at);
    forall d ensures var w' := Note(w, rec, now, cause); Consistent(w', d) && VanishesOnce(w', d) && Remembers(w', d) {
      assert Consistent(w, rec.device) && VanishesOnce(w, rec.device) && Remembers(w, d);
      NoteKeepsMemory(w, rec, now, cause, d);
      NoteKeepsConsistent(w, rec, now, cause, d);
      NoteKeepsVanishing(w, rec, now, cause, d);
    }
  }

  // ---------------------------------------------------------------- one poll

  /** The world with a poll's progress so far added to it. */
  function With(w: World, p: Progress): World {
    World(p.store, w.records + p.records, w.sent + p.messages)
  }

  lemma ObserveNotes(w: World, p: Progress, now: Time, o: Observation)
    ensures With(w, Observe(p, now, o)) == Note(With(w, p), Rec(o.device, o.status, o.score, o.at, false), now, Reported)
  {
    var p' := Observe(p, now, o);
    assert w.records + p'.records == (w.records + p.records) + [Rec(o.device, o.status, o.score, o.at, false)];
    assert w.sent + p'.messages == Note(With(w, p), Rec(o.device, o.status, o.score, o.at, false), now, Reported).sent;
  }

  lemma {:induction false} ObserveAllKeepsInv(w: World, p: Progress, now: Time, os: seq<Option<Observation>>)
    requires Inv(With(w, p))
    ensures Inv(With(w, ObserveAll(p, now, os)))
  {
    hide Inv, Note, Observe;
    if os != [] {
      var before := ObserveAll(p, now, os[..|os| - 1]);
      ObserveAllKeepsInv(w, p, now, os[..|os| - 1]);
      if Last(os).Some? {
        var o := Last(os).value;
        ObserveNotes(w, before, now, o);
        NoteKeepsInv(With(w, before), Rec(o.device, o.status, o.score, o.at, false), now, Reported);
      }
    }
  }

  /** The list of missing devices names each device at most once, with its current row. */
  ghost predicate Current(st: Store, gone: seq<Gone>) {
    && (forall g :: g in gone ==> g.device in st.rows && st.rows[g.device].status == g.status && st.rows[g.device].lastSeen == g.lastSeen)
    && (forall a, b :: 0 <= a < b < |gone| ==> gone[a].device != gone[b].device)
  }

  lemma {:induction false} NotSeenSinceIsCurrent(st: Store, order: seq<DeviceId>, cutoff: Time)
    requires forall d :: d in order ==> d in st.rows
    requires forall a, b :: 0 <= a < b < |order| ==> order[a] != order[b]
    ensures Current(st, NotSeenSince(st, order, cutoff))
    ensures forall d :: (exists g :: g in NotSeenSince(st, order, cutoff) && g.device == d) <==> d in order && st.rows[d].lastSeen < cutoff
  {
    if order != [] {
      var front := order[..|order| - 1];
      assert forall x :: x in order <==> x in front || x == Last(order);
      assert Last(order) !in front;
      NotSeenSinceIsCurrent(st, front, cutoff);
    }
  }

  lemma SweepNotes(w: World, p: Progress, r: Report, g: Gone)
    requires g.device in p.store.rows && p.store.rows[g.device].status == g.status
    ensures With(w, Sweep(p, r, g)) ==
            if g.device in p.seen || g.status == Unhealthy then With(w, p)
            else Note(With(w, p), Rec(g.device, Unhealthy, 0, r.sweptAt, true), r.now, Absent((r.now - g.lastSeen).Floor))
  {
    var p' := Sweep(p, r, g);
    if p' != p {
      assert w.records + p'.records == (w.records + p.records) + [Rec(g.device, Unhealthy, 0, r.sweptAt, true)];
      assert (w.sent + p.messages) + [] == w.sent + p.messages;
      assert w.sent + p'.messages == Note(With(w, p), Rec(g.device, Unhealthy, 0, r.sweptAt, true), r.now, Absent((r.now - g.lastSeen).Floor)).sent;
    }
  }

  lemma {:induction false} SweepAllKeepsInv(w: World, p: Progress, r: Report, gone: seq<Gone>)
    requires Inv(With(w, p)) && Current(p.store, gone)
    ensures Inv(With(w, SweepAll(p, r, gone)))
    ensures forall d :: (forall g :: g in gone ==> g.device != d) ==> Previous(SweepAll(p, r, gone).store, d) == Previous(p.store, d)
  {
    hide Inv, Note;
    if gone != [] {
      var front, g := gone[..|gone| - 1], Last(gone);
      assert gone == front + [g];
      SweepAllKeepsInv(w, p, r, front);
      var before := SweepAll(p, r, front);
      assert Previous(before.store, g.device) == Previous(p.store, g.device);
      SweepNotes(w, before, r, g);
      if !(g.device in before.seen || g.status == Unhealthy) {
        NoteKeepsInv(With(w, before), Rec(g.device, Unhealthy, 0, r.sweptAt, true), r.now, Absent((r.now - g.lastSeen).Floor));
      }
    }
  }

  ghost function Step(w: World, poll: Poll): World
    requires ValidStore(w.store)
  {
    ObservedIsValid(w.store, poll.report);
    var p := Swept(Observed(w.store, poll.report), poll.report);
    World(p.store, w.records + p.records, w.sent + (p.messages + [Heartbeat(p, poll.report, poll.depth)]))
  }

  lemma HeartbeatKeepsInv(w: World, m: Message)
    requires Inv(w) && m.EdgeHealth?
    ensures Inv(w.(sent := w.sent + [m]))
  {
    hide Tells;
    forall d ensures var w' := w.(sent := w.sent + [m]); Consistent(w', d) && VanishesOnce(w', d) && Remembers(w', d) {
      assert Consistent(w, d) && VanishesOnce(w, d) && Remembers(w, d);
      AlternatesSnoc(w.sent, m, d);
      ChangesSnoc(w.sent, m, d);
      RunViewSnoc(BLANK, d, w.sent, m);
    }
  }

  lemma ObservedKeepsInv(w: World, r: Report)
    requires Inv(w)
    ensures Inv(With(w, Observed(w.store, r)))
  {
    hide Inv, ObserveAll, Observe, Note;
    var start := Progress(w.store, [], [], {}, 0, 0);
    assert With(w, start) == w;
    ObserveAllKeepsInv(w, start, r.now, r.devices);
    if r.platform.Some? {
      var reported, o := ObserveAll(start, r.now, r.devices), r.platform.value;
      ObserveNotes(w, reported, r.now, o);
      NoteKeepsInv(With(w, reported), Rec(o.device, o.status, o.score, o.at, false), r.now, Reported);
    }
  }

  lemma StepKeepsInv(w: World, poll: Poll)
    requires Inv(w)
    ensures Inv(Step(w, poll))
  {
    hide Observed, Consistent, VanishesOnce, Remembers, SweepAll, NotSeenSince;
    var r := poll.report;
    var p := Observed(w.store, r);
    ObservedIsValid(w.store, r);
    ObservedKeepsInv(w, r);
    NotSeenSinceIsCurrent(p.store, p.store.order, r.now - r.grace);
    SweepAllKeepsInv(w, p, r, Missing(p, r));
    var q := Swept(p, r);
    HeartbeatKeepsInv(With(w, q), Heartbeat(q, r, poll.depth));
    assert Step(w, poll) == With(w, q).(sent := With(w, q).sent + [Heartbeat(q, r, poll.depth)]);
  }

  // -------------------------------------------------------------- many polls

  ghost function RunPolls(polls: seq<Poll>): (w: World)
    ensures Inv(w)
  {
    if polls == [] then
      StartIsConsistent();
      World(EMPTY_STORE, [], [])
    else
      var before := RunPolls(polls[..|polls| - 1]);
      StepKeepsInv(before, Last(polls));
      Step(before, Last(polls))
  }

  lemma StartIsConsistent()
    ensures Inv(World(EMPTY_STORE, [], []))
  {
  }

  /** A device's transition messages are its recorded statuses without repeats, less the first. */
  lemma TransitionsAreDestutteredHistory(polls: seq<Poll>, d: DeviceId)
    ensures var w := RunPolls(polls); Changes(w.sent, d) == Tail(Destutter(History(w.records, d)))
  {
    assert Consistent(RunPolls(polls), d);
  }

  lemma {:induction false} AlternatesAt(ms: seq<Message>, d: DeviceId, j: nat)
    requires Alternates(ms, d) && j < |ms| && IsVanished(ms[j], d)
    ensures LastAbout(ms[..j], d).Some? && !IsVanished(LastAbout(ms[..j], d).value, d)
  {
    var front := ms[..|ms| - 1];
    if j < |front| {
      assert front[..j] == ms[..j];
      AlternatesAt(front, d, j);
    }
  }

  lemma {:induction false} LastAboutIsLast(ms: seq<Message>, d: DeviceId, i: nat) returns (k: nat)
    requires i < |ms| && ms[i].About(d)
    ensures i <= k < |ms| && LastAbout(ms, d) == Some(ms[k]) && ms[k].About(d)
  {
    if Last(ms).About(d) {
      k := |ms| - 1;
    } else {
      k := LastAboutIsLast(ms[..|ms| - 1], d, i);
    }
  }

  /** A message about the device, from a report of it. */
  predicate IsReport(m: Message, d: DeviceId) {
    m.About(d) && !IsVanished(m, d)
  }

  lemma ReportBetween(sent: seq<Message>, d: DeviceId, i: nat, j: nat) returns (k: nat)
    requires Alternates(sent, d) && i < j < |sent| && IsVanished(sent[i], d) && IsVanished(sent[j], d)
    ensures i < k < j && IsReport(sent[k], d)
  {
    AlternatesAt(sent, d, j);
    hide Alternates;
    k := LastAboutIsLast(sent[..j], d, i);
  }

  lemma ReportBefore(sent: seq<Message>, d: DeviceId, j: nat) returns (k: nat)
    requires Alternates(sent, d) && j < |sent| && IsVanished(sent[j], d)
    ensures k < j && IsReport(sent[k], d)
  {
    AlternatesAt(sent, d, j);
    hide Alternates;
    k := SomeAbout(sent[..j], d);
  }

  /** Before every vanished transition of a device, and between any two, some message came from a report of it. */
  lemma OneVanishedPerDisappearance(polls: seq<Poll>, d: DeviceId, j: nat)
    requires j < |RunPolls(polls).sent| && IsVanished(RunPolls(polls).sent[j], d)
    ensures var sent := RunPolls(polls).sent;
            && (exists k :: 0 <= k < j && IsReport(sent[k], d))
            && (forall i :: 0 <= i < j && IsVanished(sent[i], d) ==> exists k :: i < k < j && IsReport(sent[k], d))
  {
    var sent := RunPolls(polls).sent;
    assert VanishesOnce(RunPolls(polls), d);
    hide RunPolls, Alternates, IsVanished, IsReport;
    var first := ReportBefore(sent, d, j);
    forall i | 0 <= i < j && IsVanished(sent[i], d) ensures exists k :: i < k < j && IsReport(sent[k], d) {
      var k := ReportBetween(sent, d, i, j);
    }
  }

  lemma {:induction false} SomeAbout(ms: seq<Message>, d: DeviceId) returns (k: nat)
    requires LastAbout(ms, d).Some?
    ensures k < |ms| && ms[k] == LastAbout(ms, d).value && ms[k].About(d)
  {
    if Last(ms).About(d) {
      k := |ms| - 1;
    } else {
      k := SomeAbout(ms[..|ms| - 1], d);
    }
  }

  // -------------------------------------------------- who is flagged, counts

  lemma {:induction false} ObserveAllFacts(p: Progress, now: Time, os: seq<Option<Observation>>, d: DeviceId)
    ensures var q := ObserveAll(p, now, os);
            && p.seen <= q.seen
            && (Flags(q.messages, d) <==> Flags(p.messages, d))
            && (d !in q.seen ==> (d in q.store.rows <==> d in p.store.rows) && (d in p.store.rows ==> q.store.rows[d] == p.store.rows[d]))
            && |q.messages| - q.transitions == |p.messages| - p.transitions + Usable(os)
  {
    if os != [] {
      ObserveAllFacts(p, now, os[..|os| - 1], d);
    }
  }

  lemma SweepFlags(p: Progress, r: Report, g: Gone, d: DeviceId)
    ensures Flags(Sweep(p, r, g).messages, d) <==> Flags(p.messages, d) || (g.device == d && d !in p.seen && g.status != Unhealthy)
  {
    var before, after := p.messages, Sweep(p, r, g).messages;
    if after != before {
      var t := Last(after);
      assert after == before + [t] && t in after;
      assert IsVanished(t, d) <==> g.device == d;
      assert forall m :: m in after <==> m in before || m == t;
    }
  }

  lemma {:induction false} SweepAllFacts(p: Progress, r: Report, gone: seq<Gone>, d: DeviceId)
    ensures var q := SweepAll(p, r, gone);
            && q.seen == p.seen
            && (Flags(q.messages, d) <==> Flags(p.messages, d) || (d !in p.seen && exists g :: g in gone && g.device == d && g.status != Unhealthy))
            && |q.messages| - q.transitions == |p.messages| - p.transitions
  {
    if gone != [] {
      var front, g := gone[..|gone| - 1], Last(gone);
      SweepAllFacts(p, r, front, d);
      SweepFlags(SweepAll(p, r, front), r, g, d);
      hide Flags;
      assert forall x :: x in gone <==> x in front || x == g;
    }
  }

  lemma ObservedFacts(st: Store, r: Report, d: DeviceId)
    ensures var p := Observed(st, r);
            && !Flags(p.messages, d)
            && (d !in p.seen ==> (d in p.store.rows <==> d in st.rows) && (d in st.rows ==> p.store.rows[d] == st.rows[d]))
            && |p.messages| == p.transitions + Usable(r.devices) + (if r.platform.Some? then 1 else 0)
  {
    hide ObserveAll;
    ObserveAllFacts(Progress(st, [], [], {}, 0, 0), r.now, r.devices, d);
  }

  /** A poll flags exactly the known devices it has no report for, that were not already unhealthy, and that were last seen too long ago. */
  lemma FlaggedExactly(st: Store, r: Report, d: DeviceId)
    requires ValidStore(st)
    ensures var p := Observed(st, r);
            && ValidStore(p.store)
            && (Flags(Swept(p, r).messages, d) <==>
                  d !in p.seen && d in st.rows && st.rows[d].status != Unhealthy && st.rows[d].lastSeen < r.now - r.grace)
  {
    hide Observed, SweepAll, NotSeenSince;
    var p := Observed(st, r);
    ObservedIsValid(st, r);
    ObservedFacts(st, r, d);
    NotSeenSinceIsCurrent(p.store, p.store.order, r.now - r.grace);
    SweepAllFacts(p, r, Missing(p, r), d);
    if d !in p.seen && d in st.rows && st.rows[d].lastSeen < r.now - r.grace {
      var g :| g in Missing(p, r) && g.device == d;
      assert g.status == st.rows[d].status;
    }
  }

  /** Whatever is in the report counts as seen, so a reported device is never flagged in the same poll. */
  lemma {:induction false} ReportedIsSeen(p: Progress, now: Time, os: seq<Option<Observation>>, n: nat)
    requires n < |os| && os[n].Some?
    ensures os[n].value.device in ObserveAll(p, now, os).seen
  {
    if n < |os| - 1 {
      ReportedIsSeen(p, now, os[..|os| - 1], n);
    }
  }

  lemma ReportedIsNeverFlagged(st: Store, r: Report, o: Observation)
    requires ValidStore(st) && (Some(o) in r.devices || r.platform == Some(o))
    ensures ValidStore(Observed(st, r).store) && !Flags(Swept(Observed(st, r), r).messages, o.device)
  {
    FlaggedExactly(st, r, o.device);
    if Some(o) in r.devices {
      var n :| 0 <= n < |r.devices| && r.devices[n] == Some(o);
      ReportedIsSeen(Progress(st, [], [], {}, 0, 0), r.now, r.devices, n);
    }
  }

  // ------------------------------------------------- what a poll's records are

  predicate InReport(r: Report, d: DeviceId) {
    (exists n :: 0 <= n < |r.devices| && r.devices[n].Some? && r.devices[n].value.device == d)
    || (r.platform.Some? && r.platform.value.device == d)
  }

  lemma {:induction false} SeenIsReported(p: Progress, now: Time, os: seq<Option<Observation>>, d: DeviceId)
    ensures d in ObserveAll(p, now, os).seen <==>
            d in p.seen || exists n :: 0 <= n < |os| && os[n].Some? && os[n].value.device == d
  {
    if os != [] {
      var front := os[..|os| - 1];
      SeenIsReported(p, now, front, d);
      if n :| 0 <= n < |os| && os[n].Some? && os[n].value.device == d {
        assert n < |front| ==> front[n] == os[n];
      }
    }
  }

  lemma ObservedSees(st: Store, r: Report, d: DeviceId)
    ensures d in Observed(st, r).seen <==> InReport(r, d)
  {
    SeenIsReported(Progress(st, [], [], {}, 0, 0), r.now, r.devices, d);
  }

  /** The messages a poll adds to those sent before. */
  ghost function Added(w: World, poll: Poll): seq<Message>
    requires ValidStore(w.store)
  {
    Step(w, poll).sent[|w.sent|..]
  }

  lemma AddedFlags(w: World, poll: Poll, d: DeviceId)
    requires ValidStore(w.store)
    ensures ValidStore(Observed(w.store, poll.report).store)
    ensures Flags(Added(w, poll), d) <==> Flags(Swept(Observed(w.store, poll.report), poll.report).messages, d)
  {
    hide Observed, SweepAll, NotSeenSince;
    ObservedIsValid(w.store, poll.report);
    var p := Swept(Observed(w.store, poll.report), poll.report);
    var h := Heartbeat(p, poll.report, poll.depth);
    assert Added(w, poll) == p.messages + [h];
    assert forall m :: m in Added(w, poll) <==> m in p.messages || m == h;
  }

  /** Each row of the state table tells when its device was first, last and since when so recorded. */
  lemma RowsTellRecords(polls: seq<Poll>, d: DeviceId)
    ensures var w := RunPolls(polls);
            var rs := RecordsOf(w.records, d);
            && (d in w.store.rows <==> rs != [])
            && (rs != [] ==>
                  var row := w.store.rows[d];
                  && row.status == Last(rs).status && row.score == Last(rs).score
                  && row.firstSeen == rs[0].at && row.lastSeen == Last(rs).at
                  && exists n: nat :: LastsSince(rs, n) && row.lastChange == rs[n].at)
  {
    assert Remembers(RunPolls(polls), d);
    hide RunPolls;
  }

  lemma {:induction false} SweepAllCauses(p: Progress, r: Report, gone: seq<Gone>, d: DeviceId, t: Time)
    requires !Flags(p.messages, d) && forall g :: g in gone && g.device == d ==> g.lastSeen == t
    ensures forall m :: m in SweepAll(p, r, gone).messages && IsVanished(m, d) ==> m.cause == Absent((r.now - t).Floor)
  {
    if gone != [] {
      var front := gone[..|gone| - 1];
      SweepAllCauses(p, r, front, d, t);
      var before, after := SweepAll(p, r, front).messages, SweepAll(p, r, gone).messages;
      assert after != before ==> forall m :: m in after <==> m in before || m == Last(after);
    }
  }

  /** An alarm says for how long the device had not been recorded. */
  lemma AddedCauses(w: World, poll: Poll, d: DeviceId)
    requires ValidStore(w.store) && d in w.store.rows && !InReport(poll.report, d)
    ensures forall m :: m in Added(w, poll) && IsVanished(m, d) ==>
              m.cause == Absent((poll.report.now - w.store.rows[d].lastSeen).Floor)
  {
    hide Observed, SweepAll, NotSeenSince;
    var r := poll.report;
    var p := Observed(w.store, r);
    ObservedIsValid(w.store, r);
    ObservedFacts(w.store, r, d);
    ObservedSees(w.store, r, d);
    NotSeenSinceIsCurrent(p.store, p.store.order, r.now - r.grace);
    SweepAllCauses(p, r, Missing(p, r), d, w.store.rows[d].lastSeen);
    var q := Swept(p, r);
    assert Added(w, poll) == q.messages + [Heartbeat(q, r, poll.depth)];
  }

  ghost predicate ClockedRecords(rs: seq<Rec>) {
    forall m, n :: 0 <= m < n < |rs| ==> rs[m].at <= rs[n].at
  }

  /**
    Along any run, the next poll sends a vanished transition for exactly the devices its report lacks, whose last
    record was not unhealthy, and all of whose records are older than the grace period.
   */
  lemma VanishedExactlyWhenSilent(polls: seq<Poll>, poll: Poll, d: DeviceId)
    ensures var w, r := RunPolls(polls), poll.report;
            var rs := RecordsOf(w.records, d);
            && (Flags(Added(w, poll), d) <==>
                  !InReport(r, d) && rs != [] && Last(rs).status != Unhealthy && Last(rs).at < r.now - r.grace)
            && (ClockedRecords(rs) ==>
                  (Flags(Added(w, poll), d) <==>
                     !InReport(r, d) && rs != [] && Last(rs).status != Unhealthy
                     && forall n :: 0 <= n < |rs| ==> rs[n].at < r.now - r.grace))
            && (forall m :: m in Added(w, poll) && IsVanished(m, d) ==>
                  rs != [] && m.cause == Absent((r.now - Last(rs).at).Floor))
  {
    var w, r := RunPolls(polls), poll.report;
    RowsTellRecords(polls, d);
    hide RunPolls, Observed, SweepAll, NotSeenSince, Flags, RecordsOf, InReport, Added;
    AddedFlags(w, poll, d);
    FlaggedExactly(w.store, r, d);
    ObservedSees(w.store, r, d);
    if m :| m in Added(w, poll) && IsVanished(m, d) {
      assert Flags(Added(w, poll), d) by { FlagsIf(Added(w, poll), d, m); }
      AddedCauses(w, poll, d);
    }
  }

  lemma FlagsIf(ms: seq<Message>, d: DeviceId, m: Message)
    requires m in ms && IsVanished(m, d)
    ensures Flags(ms, d)
  {
  }

  /** The usable device records of a report, and then the platform's. */
  function Reports(r: Report): seq<Observation> {
    Usables(r.devices) + (if r.platform.Some? then [r.platform.value] else [])
  }

  function Usables(os: seq<Option<Observation>>): seq<Observation> {
    if os == [] then []
    else if Last(os).Some? then Usables(os[..|os| - 1]) + [Last(os).value]
    else Usables(os[..|os| - 1])
  }

  /** The device samples among messages, without the time they were taken. */
  function Samples(ms: seq<Message>): seq<(DeviceId, Status, int)> {
    if ms == [] then []
    else
      var front, m := Samples(ms[..|ms| - 1]), Last(ms);
      if m.Periodic? then front + [(m.device, m.status, m.score)] else front
  }

  function AsSamples(os: seq<Observation>): seq<(DeviceId, Status, int)> {
    seq(|os|, n requires 0 <= n < |os| => (os[n].device, os[n].status, os[n].score))
  }

  function AsRecords(os: seq<Observation>): seq<Rec> {
    seq(|os|, n requires 0 <= n < |os| => Rec(os[n].device, os[n].status, os[n].score, os[n].at, false))
  }

  lemma SamplesSnoc(ms: seq<Message>, m: Message)
    ensures Samples(ms + [m]) == if m.Periodic? then Samples(ms) + [(m.device, m.status, m.score)] else Samples(ms)
  {
    assert (ms + [m])[..|ms|] == ms;
  }

  lemma ObserveAddsSample(p: Progress, now: Time, o: Observation)
    ensures Samples(Observe(p, now, o).messages) == Samples(p.messages) + [(o.device, o.status, o.score)]
  {
    var sample := Periodic(now, o.device, o.status, o.score);
    SamplesSnoc(p.messages, sample);
    if Observe(p, now, o).messages == p.messages + [sample] + [] {
      assert p.messages + [sample] + [] == p.messages + [sample];
    } else {
      SamplesSnoc(p.messages + [sample], Last(Observe(p, now, o).messages));
    }
  }

  lemma {:induction false} ObserveAllMirrors(st: Store, now: Time, os: seq<Option<Observation>>)
    ensures var p := ObserveAll(Progress(st, [], [], {}, 0, 0), now, os);
            Samples(p.messages) == AsSamples(Usables(os)) && p.records == AsRecords(Usables(os))
  {
    hide Samples, Observe;
    if os == [] {
      NoSamples();
    } else {
      ObserveAllMirrors(st, now, os[..|os| - 1]);
      if Last(os).Some? {
        var before := ObserveAll(Progress(st, [], [], {}, 0, 0), now, os[..|os| - 1]);
        ObserveAddsSample(before, now, Last(os).value);
        ObserveAddsRecord(before, now, Last(os).value);
      }
    }
  }

  lemma NoSamples()
    ensures Samples([]) == []
  {
  }

  lemma ObserveAddsRecord(p: Progress, now: Time, o: Observation)
    ensures Observe(p, now, o).records == p.records + [Rec(o.device, o.status, o.score, o.at, false)]
  {
  }

  lemma {:induction false} SweepAllRecords(p: Progress, r: Report, gone: seq<Gone>)
    ensures var q := SweepAll(p, r, gone);
            && p.records <= q.records && Samples(q.messages) == Samples(p.messages)
            && forall n :: |p.records| <= n < |q.records| ==> q.records[n].swept && q.records[n].at == r.sweptAt
  {
    hide Samples;
    if gone != [] {
      var front := gone[..|gone| - 1];
      SweepAllRecords(p, r, front);
      var before, after := SweepAll(p, r, front), SweepAll(p, r, gone);
      if after != before {
        SamplesSnoc(before.messages, Last(after.messages));
      }
    }
  }

  /** A poll samples and records exactly what the platform reported, in its order; every other record is a sweep's. */
  lemma PollMirrorsReport(w: World, poll: Poll)
    requires ValidStore(w.store)
    ensures var r, after := poll.report, Step(w, poll);
            && Samples(Added(w, poll)) == AsSamples(Reports(r))
            && w.records + AsRecords(Reports(r)) <= after.records
            && forall n :: |w.records| + |Reports(r)| <= n < |after.records| ==> after.records[n].swept
  {
    hide Samples, ObserveAll, SweepAll, NotSeenSince, Observe;
    var r := poll.report;
    ObservedIsValid(w.store, r);
    var reported, p := ObserveAll(Progress(w.store, [], [], {}, 0, 0), r.now, r.devices), Observed(w.store, r);
    ObserveAllMirrors(w.store, r.now, r.devices);
    if r.platform.Some? {
      ObserveAddsSample(reported, r.now, r.platform.value);
      ObserveAddsRecord(reported, r.now, r.platform.value);
    }
    SweepAllRecords(p, r, Missing(p, r));
    var q := Swept(p, r);
    SamplesSnoc(q.messages, Heartbeat(q, r, poll.depth));
    assert Added(w, poll) == q.messages + [Heartbeat(q, r, poll.depth)];
  }

  // --------------------------------------------- what a poll's messages say

  predicate IsSick(m: Message) {
    (m.Periodic? && m.status == Unhealthy) || (m.Transition? && m.cause.Absent?)
  }

  function CountOf(ms: seq<Message>, p: Message -> bool): nat {
    if ms == [] then 0 else CountOf(ms[..|ms| - 1], p) + (if p(Last(ms)) then 1 else 0)
  }

  predicate IsTransition(m: Message) {
    m.Transition?
  }

  lemma CountSnoc(ms: seq<Message>, m: Message, p: Message -> bool)
    ensures CountOf(ms + [m], p) == CountOf(ms, p) + if p(m) then 1 else 0
  {
    assert (ms + [m])[..|ms|] == ms;
  }

  /** A reported change follows the sample it repeats; an alarm is unhealthy with score 0; all bear the poll's time. */
  predicate Shaped(ms: seq<Message>, now: Time, n: nat)
    requires n < |ms|
  {
    match ms[n]
    case Periodic(ts, _, _, _) => ts == now
    case Transition(ts, d, status, score, Reported) => ts == now && n > 0 && ms[n - 1] == Periodic(now, d, status, score)
    case Transition(ts, _, status, score, Absent(_)) => ts == now && status == Unhealthy && score == 0
    case EdgeHealth(ts, _, _, _) => ts == now
  }

  ghost predicate Counted(p: Progress, now: Time) {
    && p.unhealthy == CountOf(p.messages, IsSick) && p.transitions == CountOf(p.messages, IsTransition)
    && forall n :: 0 <= n < |p.messages| ==> Shaped(p.messages, now, n)
  }

  lemma ShapedSnoc(ms: seq<Message>, now: Time, m: Message)
    requires forall n :: 0 <= n < |ms| ==> Shaped(ms, now, n)
    requires Shaped(ms + [m], now, |ms|)
    ensures forall n :: 0 <= n < |ms + [m]| ==> Shaped(ms + [m], now, n)
  {
    forall n | 0 <= n < |ms| ensures Shaped(ms + [m], now, n) {
      assert Shaped(ms, now, n);
    }
  }

  lemma ObserveCounts(p: Progress, now: Time, o: Observation)
    requires Counted(p, now)
    ensures Counted(Observe(p, now, o), now)
  {
    var q := Observe(p, now, o);
    var sample := Periodic(now, o.device, o.status, o.score);
    var mid := p.messages + [sample];
    CountSnoc(p.messages, sample, IsSick);
    CountSnoc(p.messages, sample, IsTransition);
    ShapedSnoc(p.messages, now, sample);
    if q.messages == mid + [] {
      assert q.messages == mid;
    } else {
      var change := Transition(now, o.device, o.status, o.score, Reported);
      assert q.messages == mid + [change];
      CountSnoc(mid, change, IsSick);
      CountSnoc(mid, change, IsTransition);
      ShapedSnoc(mid, now, change);
    }
  }

  lemma SweepCounts(p: Progress, r: Report, g: Gone)
    requires Counted(p, r.now)
    ensures Counted(Sweep(p, r, g), r.now)
  {
    var q := Sweep(p, r, g);
    if q != p {
      var alarm := Transition(r.now, g.device, Unhealthy, 0, Absent((r.now - g.lastSeen).Floor));
      CountSnoc(p.messages, alarm, IsSick);
      CountSnoc(p.messages, alarm, IsTransition);
      ShapedSnoc(p.messages, r.now, alarm);
    }
  }

  lemma {:induction false} ObserveAllCounts(p: Progress, now: Time, os: seq<Option<Observation>>)
    requires Counted(p, now)
    ensures Counted(ObserveAll(p, now, os), now)
  {
    hide Counted, Observe;
    if os != [] {
      ObserveAllCounts(p, now, os[..|os| - 1]);
      if Last(os).Some? {
        ObserveCounts(ObserveAll(p, now, os[..|os| - 1]), now, Last(os).value);
      }
    }
  }

  lemma {:induction false} SweepAllCounts(p: Progress, r: Report, gone: seq<Gone>)
    requires Counted(p, r.now)
    ensures Counted(SweepAll(p, r, gone), r.now)
  {
    hide Counted, Sweep;
    if gone != [] {
      SweepAllCounts(p, r, gone[..|gone| - 1]);
      SweepCounts(SweepAll(p, r, gone[..|gone| - 1]), r, Last(gone));
    }
  }

  lemma NothingCounted(st: Store, now: Time)
    ensures Counted(Progress(st, [], [], {}, 0, 0), now)
  {
  }

  lemma SweptCounts(st: Store, r: Report)
    requires ValidStore(st)
    ensures ValidStore(Observed(st, r).store) && Counted(Swept(Observed(st, r), r), r.now)
  {
    hide Counted, ObserveAll, Observe, SweepAll, NotSeenSince;
    ObservedIsValid(st, r);
    NothingCounted(st, r.now);
    ObserveAllCounts(Progress(st, [], [], {}, 0, 0), r.now, r.devices);
    if r.platform.Some? {
      ObserveCounts(ObserveAll(Progress(st, [], [], {}, 0, 0), r.now, r.devices), r.now, r.platform.value);
    }
    SweepAllCounts(Observed(st, r), r, Missing(Observed(st, r), r));
  }

  /** A poll's messages: shaped as above, ended by a heartbeat with the number of known devices and of unhealthy ones. */
  lemma MessagesSayWhatHappened(w: World, poll: Poll)
    requires ValidStore(w.store)
    ensures var ms, after := Added(w, poll), Step(w, poll).store;
            && (forall n :: 0 <= n < |ms| ==> Shaped(ms, poll.report.now, n))
            && ms != [] && ValidStore(after)
            && Last(ms) == EdgeHealth(poll.report.now, |after.rows.Keys|, CountOf(ms, IsSick), poll.depth)
  {
    hide Observed, SweepAll, NotSeenSince, CountOf;
    var r := poll.report;
    ObservedIsValid(w.store, r);
    SweptCounts(w.store, r);
    var q := Swept(Observed(w.store, r), r);
    var h := Heartbeat(q, r, poll.depth);
    assert Added(w, poll) == q.messages + [h];
    ShapedSnoc(q.messages, r.now, h);
    CountSnoc(q.messages, h, IsSick);
    SweepAllKeepsValid(Observed(w.store, r), r, Missing(Observed(w.store, r), r));
    OrderCountsRows(q.store.order, q.store.rows.Keys);
  }

  lemma {:induction false} OrderCountsRows(order: seq<DeviceId>, keys: set<DeviceId>)
    requires (forall d :: d in order <==> d in keys) && forall a, b :: 0 <= a < b < |order| ==> order[a] != order[b]
    ensures |order| == |keys|
  {
    if order != [] {
      var front := order[..|order| - 1];
      assert order == front + [Last(order)];
      OrderCountsRows(front, keys - {Last(order)});
    }
  }

  /** A poll queues one message per usable device and per transition, one for a reported platform, and a heartbeat. */
  lemma MessagesPerPoll(w: World, poll: Poll)
    requires ValidStore(w.store)
    ensures var r := poll.report;
            && ValidStore(Observed(w.store, r).store)
            && |Added(w, poll)| == |Usables(r.devices)| + CountOf(Added(w, poll), IsTransition) + (if r.platform.Some? then 1 else 0) + 1
  {
    var r := poll.report;
    ObservedIsValid(w.store, r);
    ObservedFacts(w.store, r, 0);
    SweptCounts(w.store, r);
    UsableCounts(r.devices);
    hide Observed, SweepAll, CountOf;
    SweepAllFacts(Observed(w.store, r), r, Missing(Observed(w.store, r), r), 0);
    var q := Swept(Observed(w.store, r), r);
    CountSnoc(q.messages, Heartbeat(q, r, poll.depth), IsTransition);
    assert Added(w, poll) == q.messages + [Heartbeat(q, r, poll.depth)];
  }

  lemma {:induction false} UsableCounts(os: seq<Option<Observation>>)
    ensures Usable(os) == |Usables(os)|
  {
    if os != [] {
      UsableCounts(os[..|os| - 1]);
    }
  }

  // ----------------------------------------------- open kinds, without recursion

  /** A kind is open after a history exactly when it was changed to, and not to healthy since. */
  lemma {:induction false} OpenAfterMeans(h: seq<Status>, k: Status)
    ensures k in OpenAfter(h) <==>
            exists n :: 0 < n < |Destutter(h)| && Destutter(h)[n] == k && forall m :: n <= m < |Destutter(h)| ==> Destutter(h)[m] != Healthy
  {
    if |h| > 1 {
      var front := h[..|h| - 1];
      OpenAfterMeans(front, k);
      var a, b := Destutter(front), Destutter(h);
      if Last(h) != Last(front) {
        assert b == a + [Last(h)];
        if k in OpenAfter(front) && Last(h) != Healthy {
          var n :| 0 < n < |a| && a[n] == k && forall m :: n <= m < |a| ==> a[m] != Healthy;
          assert b[n] == k && forall m :: n <= m < |b| ==> b[m] != Healthy;
        }
        if k == Last(h) && Last(h) != Healthy {
          assert b[|b| - 1] == k;
        }
        if n :| 0 < n < |b| && b[n] == k && forall m :: n <= m < |b| ==> b[m] != Healthy {
          assert b[|b| - 1] != Healthy;
          if n < |a| {
            assert a[n] == k && forall m :: n <= m < |a| ==> b[m] == a[m];
          }
        }
      }
    }
  }
}
