/**
  Keyset pagination of the alerts: severity rank ascending, then opened_at descending, then alert id descending.
  The table may change between the fetches; a page resumes strictly after the key in its cursor.
 */
module Paging {
  import opened Sequences
  import opened Messages
  import opened Cloud
  import opened CloudInvariants
  import opened Cursor

  datatype Key = Key(rank: nat, openedAt: Time, id: AlertId)

  /** `property` is None for the provider-wide list. */
  datatype Filter = Filter(provider: nat, property: Option<nat>, states: set<AlertState>)

  /** `next` is present exactly when there is more and the page is not empty. */
  datatype Page = Page(items: seq<Key>, next: Option<Key>, hasMore: bool)

  function Rank(s: Severity): nat {
    match s
    case P1 => 1
    case P2 => 2
    case P3 => 3
    case P4 => 4
  }

  function KeyOf(alerts: map<AlertId, Alert>, i: AlertId): Key
    requires i in alerts
  {
    Key(Rank(alerts[i].severity), alerts[i].openedAt, i)
  }

  predicate Matches(a: Alert, f: Filter) {
    && a.home.provider == f.provider
    && (f.property.Some? ==> a.home.property == f.property.value)
    && a.state in f.states
  }

  predicate Before(a: Key, b: Key) {
    || a.rank < b.rank
    || (a.rank == b.rank && a.openedAt > b.openedAt)
    || (a.rank == b.rank && a.openedAt == b.openedAt && a.id > b.id)
  }

  predicate Past(cursor: Option<Key>, k: Key) {
    cursor.None? || Before(cursor.value, k)
  }

  /** The WHERE clause. */
  function Candidates(alerts: map<AlertId, Alert>, f: Filter, cursor: Option<Key>): set<Key> {
    set i | i in alerts && Matches(alerts[i], f) && Past(cursor, KeyOf(alerts, i)) :: KeyOf(alerts, i)
  }

  // -------------------------------------------------------- ORDER BY, LIMIT

  predicate Ordered(ks: seq<Key>) {
    forall a, b :: 0 <= a < b < |ks| ==> Before(ks[a], ks[b])
  }

  ghost predicate IsFirst(k: Key, ks: set<Key>) {
    k in ks && forall x :: x in ks ==> x == k || Before(k, x)
  }

  lemma {:induction false} FirstExists(ks: set<Key>)
    requires ks != {}
    ensures exists k :: IsFirst(k, ks)
  {
    var y :| y in ks;
    var rest := ks - {y};
    if rest == {} {
      assert ks == {y};
      assert IsFirst(y, ks);
    } else {
      FirstExists(rest);
      var k :| IsFirst(k, rest);
      assert forall x :: x in ks ==> x == y || x in rest;
      assert IsFirst(if Before(k, y) then k else y, ks);
    }
  }

  lemma PrependFirst(k: Key, rest: seq<Key>, ks: set<Key>)
    requires IsFirst(k, ks) && Ordered(rest) && forall x :: x in rest <==> x in ks - {k}
    ensures Ordered([k] + rest) && forall x :: x in [k] + rest <==> x in ks
  {
    forall n | 0 <= n < |rest| ensures Before(k, rest[n]) {
      assert rest[n] in rest;
    }
  }

  ghost function Sorted(ks: set<Key>): (r: seq<Key>)
    ensures forall k :: k in r <==> k in ks
    ensures Ordered(r)
    ensures |r| == |ks|
  {
    if ks == {} then []
    else
      FirstExists(ks);
      var k :| IsFirst(k, ks);
      var rest := Sorted(ks - {k});
      PrependFirst(k, rest, ks);
      [k] + rest
  }

  ghost function List(alerts: map<AlertId, Alert>, f: Filter, limit: nat, cursor: Option<Key>): Page {
    var all := Sorted(Candidates(alerts, f, cursor));
    var rows := if |all| <= limit + 1 then all else all[..limit + 1];
    var hasMore := |rows| > limit;
    var items := if |rows| <= limit then rows else rows[..limit];
    Page(items, if hasMore && items != [] then Some(Last(items)) else None, hasMore)
  }

  // ------------------------------------------------------------------ facts

  lemma BeforeIsTransitive(a: Key, b: Key, c: Key)
    requires Before(a, b) && Before(b, c)
    ensures Before(a, c)
  {
  }

  lemma FirstsAgree(a: seq<Key>, b: seq<Key>)
    requires Ordered(a) && Ordered(b) && a != [] && b != [] && a[0] in b && b[0] in a
    ensures a[0] == b[0]
  {
    var m :| 0 <= m < |b| && b[m] == a[0];
    var n :| 0 <= n < |a| && a[n] == b[0];
  }

  /** An ordered sequence is determined by its elements. */
  lemma {:induction false} OrderedIsUnique(a: seq<Key>, b: seq<Key>)
    requires Ordered(a) && Ordered(b) && forall k :: k in a <==> k in b
    ensures a == b
  {
    if b != [] {
      assert b[0] in b;
    }
    if a != [] {
      assert a[0] in a;
      assert a[0] in b && b[0] in a;
      FirstsAgree(a, b);
      forall k ensures k in a[1..] <==> k in b[1..] {
        assert k in a[1..] ==> k in a && k != a[0];
        assert k in b[1..] ==> k in b && k != b[0];
      }
      OrderedIsUnique(a[1..], b[1..]);
    }
  }

  lemma OrderedHasNoRepeats(ks: seq<Key>, m: nat, n: nat)
    requires Ordered(ks) && m < |ks| && n < |ks| && ks[m] == ks[n]
    ensures m == n
  {
  }

  /** A page holds the first candidates past its cursor; what it leaves out comes after all it holds. */
  lemma PageIsFront(alerts: map<AlertId, Alert>, f: Filter, limit: nat, cursor: Option<Key>)
    requires limit > 0
    ensures var p, ks := List(alerts, f, limit, cursor), Candidates(alerts, f, cursor);
            && Ordered(p.items)
            && (forall k :: k in p.items ==> k in ks && Past(cursor, k))
            && (p.hasMore <==> |ks| > limit)
            && (p.hasMore ==> p.next.Some? && p.items != [] && p.next.value == Last(p.items) && |p.items| == limit)
            && (!p.hasMore ==> p.items == Sorted(ks))
            && (forall k :: k in ks && k !in p.items ==> p.next.Some? && Before(p.next.value, k))
  {
    var p, ks := List(alerts, f, limit, cursor), Candidates(alerts, f, cursor);
    var all := Sorted(ks);
    assert p.items == if |all| <= limit then all else all[..limit];
    forall k | k in ks && k !in p.items ensures p.next.Some? && Before(p.next.value, k) {
      var n :| 0 <= n < |all| && all[n] == k;
      assert n >= limit;
    }
  }

  // --------------------------------------------------------------- sessions

  /** Following the cursor, one fetch per table state, until a page says there is no more. */
  ghost function Session(tables: seq<map<AlertId, Alert>>, f: Filter, limit: nat, cursor: Option<Key>): seq<Page> {
    if tables == [] then []
    else
      var p := List(tables[0], f, limit, cursor);
      if p.hasMore then [p] + Session(tables[1..], f, limit, p.next) else [p]
  }

  function Items(pages: seq<Page>): seq<Key> {
    if pages == [] then [] else pages[0].items + Items(pages[1..])
  }

  predicate Complete(pages: seq<Page>) {
    pages != [] && !Last(pages).hasMore
  }

  /** Between fetches alerts may appear and change state or detail, but a listed key never changes. */
  ghost predicate KeepsKeys(a: map<AlertId, Alert>, b: map<AlertId, Alert>) {
    forall i :: i in a ==> i in b && KeyOf(b, i) == KeyOf(a, i)
  }

  /** Whatever the tables do between fetches, keys strictly advance, so no alert is returned twice. */
  lemma {:induction false} KeysStrictlyAdvance(tables: seq<map<AlertId, Alert>>, f: Filter, limit: nat, cursor: Option<Key>)
    requires limit > 0
    ensures var items := Items(Session(tables, f, limit, cursor));
            Ordered(items) && forall k :: k in items ==> Past(cursor, k)
  {
    if tables != [] {
      var p := List(tables[0], f, limit, cursor);
      PageIsFront(tables[0], f, limit, cursor);
      if p.hasMore {
        KeysStrictlyAdvance(tables[1..], f, limit, p.next);
        var rest := Session(tables[1..], f, limit, p.next);
        assert ([p] + rest)[1..] == rest;
        AppendOrdered(p.items, Items(rest));
        assert Past(cursor, Last(p.items));
        forall k | k in Items(rest) ensures Past(cursor, k) {
          if cursor.Some? {
            BeforeIsTransitive(cursor.value, Last(p.items), k);
          }
        }
      } else {
        assert [p][1..] == [];
        assert Items([p]) == p.items;
      }
    }
  }

  lemma AppendOrdered(a: seq<Key>, b: seq<Key>)
    requires Ordered(a) && Ordered(b) && (a != [] ==> forall k :: k in b ==> Before(Last(a), k))
    ensures Ordered(a + b)
  {
    forall m, n | 0 <= m < n < |a + b| ensures Before((a + b)[m], (a + b)[n]) {
      if m < |a| <= n {
        assert b[n - |a|] in b;
        if m < |a| - 1 {
          BeforeIsTransitive(a[m], Last(a), b[n - |a|]);
        }
      }
    }
  }

  /** Is the alert in the table with this key, and does it match the filter? */
  predicate Listed(alerts: map<AlertId, Alert>, f: Filter, k: Key) {
    k.id in alerts && KeyOf(alerts, k.id) == k && Matches(alerts[k.id], f)
  }

  lemma {:induction false} ListedIsReturned(tables: seq<map<AlertId, Alert>>, f: Filter, limit: nat, cursor: Option<Key>, k: Key)
    requires limit > 0 && Past(cursor, k) && Complete(Session(tables, f, limit, cursor))
    requires forall n :: 0 <= n < |tables| ==> Listed(tables[n], f, k)
    ensures k in Items(Session(tables, f, limit, cursor))
  {
    var p := List(tables[0], f, limit, cursor);
    PageIsFront(tables[0], f, limit, cursor);
    assert Listed(tables[0], f, k);
    assert k in Candidates(tables[0], f, cursor);
    if p.hasMore {
      var rest := Session(tables[1..], f, limit, p.next);
      assert ([p] + rest)[1..] == rest;
      if k !in p.items {
        assert Last([p] + rest) == (if rest == [] then p else Last(rest));
        ListedIsReturned(tables[1..], f, limit, p.next, k);
      }
    } else {
      assert Items([p]) == p.items + Items([p][1..]);
    }
  }

  ghost predicate KeysStay(tables: seq<map<AlertId, Alert>>) {
    forall n :: 0 < n < |tables| ==> KeepsKeys(tables[n - 1], tables[n])
  }

  lemma {:induction false} KeyReachesLast(tables: seq<map<AlertId, Alert>>, i: AlertId)
    requires KeysStay(tables) && tables != [] && i in tables[0]
    ensures i in Last(tables) && KeyOf(Last(tables), i) == KeyOf(tables[0], i)
  {
    if |tables| > 1 {
      assert KeepsKeys(tables[0], tables[1]);
      KeyReachesLast(tables[1..], i);
    }
  }

  /** Every returned key is the one its alert still has at the end. */
  lemma {:induction false} ItemsAreInLast(tables: seq<map<AlertId, Alert>>, f: Filter, limit: nat, cursor: Option<Key>, k: Key)
    requires limit > 0 && KeysStay(tables) && tables != []
    requires k in Items(Session(tables, f, limit, cursor))
    ensures k.id in Last(tables) && KeyOf(Last(tables), k.id) == k
  {
    hide Ordered, Sorted, List, Past, Before;
    var p := List(tables[0], f, limit, cursor);
    PageIsFront(tables[0], f, limit, cursor);
    var rest := if p.hasMore then Session(tables[1..], f, limit, p.next) else [];
    assert ([p] + rest)[1..] == rest;
    if k in p.items {
      KeyReachesLast(tables, k.id);
    } else {
      ItemsAreInLast(tables[1..], f, limit, p.next, k);
    }
  }

  /** Whatever happens between the fetches, no alert is returned twice. */
  lemma NoAlertReturnedTwice(tables: seq<map<AlertId, Alert>>, f: Filter, limit: nat, m: nat, n: nat)
    requires limit > 0 && KeysStay(tables)
    requires m < |Items(Session(tables, f, limit, None))| && n < |Items(Session(tables, f, limit, None))|
    ensures var items := Items(Session(tables, f, limit, None)); items[m].id == items[n].id ==> m == n
  {
    var items := Items(Session(tables, f, limit, None));
    if items[m].id == items[n].id {
      KeysStrictlyAdvance(tables, f, limit, None);
      assert items[m] in items && items[n] in items;
      ItemsAreInLast(tables, f, limit, None, items[m]);
      ItemsAreInLast(tables, f, limit, None, items[n]);
      OrderedHasNoRepeats(items, m, n);
    }
  }

  ghost predicate ReturnedExactlyOnce(i: AlertId, items: seq<Key>) {
    exists n :: 0 <= n < |items| && items[n].id == i && forall m :: 0 <= m < |items| && items[m].id == i ==> m == n
  }

  /** An alert that matches the filter at every fetch is returned exactly once by the time there is no more. */
  lemma MatchingAlertReturnedExactlyOnce(tables: seq<map<AlertId, Alert>>, f: Filter, limit: nat, i: AlertId)
    requires limit > 0 && KeysStay(tables) && Complete(Session(tables, f, limit, None))
    requires forall n :: 0 <= n < |tables| ==> i in tables[n] && Matches(tables[n][i], f)
    ensures ReturnedExactlyOnce(i, Items(Session(tables, f, limit, None)))
  {
    hide Ordered, Sorted, List, Before, Session, KeyOf, Matches, Items, Complete, KeysStay;
    var items := Items(Session(tables, f, limit, None));
    assert tables != [] by { SessionNeedsTables(tables, f, limit); }
    var k := KeyOf(tables[0], i);
    KeyOfIs(tables[0], i);
    forall n | 0 <= n < |tables| ensures Listed(tables[n], f, k) {
      KeyStaysAt(tables, i, n);
    }
    ListedIsReturned(tables, f, limit, None, k);
    var n :| 0 <= n < |items| && items[n] == k;
    forall m | 0 <= m < |items| && items[m].id == i ensures m == n {
      NoAlertReturnedTwice(tables, f, limit, m, n);
    }
  }

  lemma KeyOfIs(alerts: map<AlertId, Alert>, i: AlertId)
    requires i in alerts
    ensures KeyOf(alerts, i).id == i
  {
  }

  lemma SessionNeedsTables(tables: seq<map<AlertId, Alert>>, f: Filter, limit: nat)
    requires Complete(Session(tables, f, limit, None))
    ensures tables != []
  {
  }

  lemma KeyStaysAt(tables: seq<map<AlertId, Alert>>, i: AlertId, n: nat)
    requires KeysStay(tables) && n < |tables| && i in tables[0]
    ensures i in tables[n] && KeyOf(tables[n], i) == KeyOf(tables[0], i)
  {
    assert KeysStay(tables[..n + 1]);
    KeyReachesLast(tables[..n + 1], i);
  }

  // -------------------------------------------------------- a table at rest

  lemma NextCandidates(alerts: map<AlertId, Alert>, f: Filter, limit: nat, cursor: Option<Key>)
    requires limit > 0 && List(alerts, f, limit, cursor).hasMore
    ensures var p := List(alerts, f, limit, cursor);
            Sorted(Candidates(alerts, f, cursor)) == p.items + Sorted(Candidates(alerts, f, p.next))
  {
    var p := List(alerts, f, limit, cursor);
    var ks, rest := Candidates(alerts, f, cursor), Candidates(alerts, f, p.next);
    PageIsFront(alerts, f, limit, cursor);
    assert Past(cursor, Last(p.items)) && Last(p.items) in p.items;
    forall k ensures k in rest <==> k in ks && k !in p.items {
      if k in rest && cursor.Some? {
        BeforeIsTransitive(cursor.value, Last(p.items), k);
      }
      if k in p.items && Before(Last(p.items), k) {
        assert false by { LastIsLast(p.items, k); }
      }
    }
    AppendOrdered(p.items, Sorted(rest));
    OrderedIsUnique(Sorted(ks), p.items + Sorted(rest));
  }

  lemma LastIsLast(items: seq<Key>, k: Key)
    requires Ordered(items) && k in items
    ensures !Before(Last(items), k)
  {
    var n :| 0 <= n < |items| && items[n] == k;
    assert n < |items| - 1 ==> Before(k, Last(items));
  }

  function Still<T>(x: T, n: nat): seq<T> {
    seq(n, i => x)
  }

  /** Fetches needed for `total` rows: one at least, otherwise the number of pages they fill. */
  function Fetches(total: nat, limit: nat): nat
    requires limit > 0
  {
    if total <= limit then 1 else 1 + Fetches(total - limit, limit)
  }

  /** As many pages as it takes to hold them all, and no more. */
  lemma {:induction false} FetchesIsCeiling(total: nat, limit: nat)
    requires limit > 0
    ensures total <= Fetches(total, limit) * limit
    ensures total > 0 ==> (Fetches(total, limit) - 1) * limit < total
    ensures total == 0 ==> Fetches(total, limit) == 1
  {
    if total > limit {
      FetchesIsCeiling(total - limit, limit);
      var n := Fetches(total - limit, limit);
      assert (n - 1) * limit == n * limit - limit;
      assert (n + 1) * limit == n * limit + limit;
    }
  }

  /** On a table at rest the pages join up to the whole sorted list, in as many fetches as it fills pages. */
  lemma {:induction false} PagesOfStillTable(alerts: map<AlertId, Alert>, f: Filter, limit: nat, cursor: Option<Key>, n: nat)
    requires limit > 0 && n >= Fetches(|Candidates(alerts, f, cursor)|, limit)
    ensures var pages := Session(Still(alerts, n), f, limit, cursor);
            && Complete(pages)
            && Items(pages) == Sorted(Candidates(alerts, f, cursor))
            && |pages| == Fetches(|Candidates(alerts, f, cursor)|, limit)
    decreases n
  {
    hide Ordered, Sorted, List, Candidates, Past, Before;
    var tables := Still(alerts, n);
    var p := List(alerts, f, limit, cursor);
    PageIsFront(alerts, f, limit, cursor);
    if p.hasMore {
      NextCandidates(alerts, f, limit, cursor);
      assert |Candidates(alerts, f, cursor)| == limit + |Candidates(alerts, f, p.next)|;
      assert tables[1..] == Still(alerts, n - 1);
      PagesOfStillTable(alerts, f, limit, p.next, n - 1);
      var rest := Session(tables[1..], f, limit, p.next);
      assert ([p] + rest)[1..] == rest;
    } else {
      assert [p][1..] == [];
    }
  }

  // ------------------------------------------- paging while the cloud runs

  /** Every ingest, auto-fix and authorisation keeps the keys of the alerts already there. */
  lemma ActionKeepsKeys(db: Db, a: Action)
    requires Possible(db, a)
    ensures KeepsKeys(db.alerts, Do(db, a).alerts)
  {
  }

  lemma {:induction false} RunKeepsKeys(actions: seq<Action>, n: nat)
    requires IsRun(actions) && n <= |actions|
    ensures KeepsKeys(Run(actions[..n]).alerts, Run(actions).alerts)
  {
    hide Do, Possible;
    if n == |actions| {
      assert actions[..n] == actions;
    } else {
      var front := actions[..|actions| - 1];
      assert forall k :: 0 <= k <= |front| ==> front[..k] == actions[..k];
      RunKeepsKeys(front, n);
      ActionKeepsKeys(Run(front), Last(actions));
    }
  }

  /** Fetch number n happens after the first cuts[n] steps of the run. */
  ghost function Snapshots(actions: seq<Action>, cuts: seq<nat>): seq<map<AlertId, Alert>>
    requires forall n :: 0 <= n < |cuts| ==> cuts[n] <= |actions|
  {
    seq(|cuts|, n requires 0 <= n < |cuts| => Run(actions[..cuts[n]]).alerts)
  }

  /**
    While the cloud ingests, fixes and authorises between the fetches, the pages never repeat an alert, and
    they hold every alert that matches at each fetch.
   */
  lemma PagingUnderChange(actions: seq<Action>, cuts: seq<nat>, f: Filter, limit: nat)
    requires limit > 0 && IsRun(actions)
    requires forall n :: 0 <= n < |cuts| ==> cuts[n] <= |actions|
    requires forall n :: 0 < n < |cuts| ==> cuts[n - 1] <= cuts[n]
    ensures var tables := Snapshots(actions, cuts);
            var pages := Session(tables, f, limit, None);
            && (forall i :: i in Items(pages) ==> ReturnedExactlyOnce(i.id, Items(pages)))
            && (Complete(pages) ==> forall i ::
                  (forall n :: 0 <= n < |tables| ==> i in tables[n] && Matches(tables[n][i], f)) ==>
                  ReturnedExactlyOnce(i, Items(pages)))
  {
    hide Session, Matches, Complete, Items, KeepsKeys, Run, Last;
    var tables := Snapshots(actions, cuts);
    var pages := Session(tables, f, limit, None);
    forall n | 0 < n < |tables| ensures KeepsKeys(tables[n - 1], tables[n]) {
      var front := actions[..cuts[n]];
      assert forall k :: 0 <= k <= |front| ==> front[..k] == actions[..k];
      RunKeepsKeys(front, cuts[n - 1]);
    }
    var items := Items(pages);
    forall k | k in items ensures ReturnedExactlyOnce(k.id, items) {
      var n :| 0 <= n < |items| && items[n] == k;
      forall m | 0 <= m < |items| && items[m].id == k.id ensures m == n {
        NoAlertReturnedTwice(tables, f, limit, m, n);
      }
    }
    if Complete(pages) {
      forall i | forall n :: 0 <= n < |tables| ==> i in tables[n] && Matches(tables[n][i], f)
        ensures ReturnedExactlyOnce(i, items)
      {
        MatchingAlertReturnedExactlyOnce(tables, f, limit, i);
      }
    }
  }

  // --------------------------------------------------- what is listed at all

  /** Alerts of the provider, and of the property where one is asked for, in one of the states asked for. */
  ghost predicate Wanted(alerts: map<AlertId, Alert>, provider: nat, property: Option<nat>, states: set<AlertState>, i: AlertId) {
    && i in alerts && alerts[i].home.provider == provider && alerts[i].state in states
    && (property == None || property == Some(alerts[i].home.property))
  }

  /** No page ever shows another provider's alert, nor one of another property or state than asked for. */
  lemma PageShowsOnlyWanted(alerts: map<AlertId, Alert>, f: Filter, limit: nat, cursor: Option<Key>, k: Key)
    requires limit > 0 && k in List(alerts, f, limit, cursor).items
    ensures Wanted(alerts, f.provider, f.property, f.states, k.id) && k == KeyOf(alerts, k.id)
  {
    PageIsFront(alerts, f, limit, cursor);
    hide List;
  }

  /** On a table at rest the pages show exactly the alerts asked for. */
  lemma StillPagesShowAllWanted(alerts: map<AlertId, Alert>, f: Filter, limit: nat, n: nat, i: AlertId)
    requires limit > 0 && n >= Fetches(|Candidates(alerts, f, None)|, limit)
    ensures Wanted(alerts, f.provider, f.property, f.states, i) <==>
            i in alerts && KeyOf(alerts, i) in Items(Session(Still(alerts, n), f, limit, None))
  {
    hide List, Session, Items, Still;
    PagesOfStillTable(alerts, f, limit, None, n);
    if i in alerts && KeyOf(alerts, i) in Candidates(alerts, f, None) {
      var j :| j in alerts && Matches(alerts[j], f) && KeyOf(alerts, j) == KeyOf(alerts, i);
      assert j == i;
    }
  }

  // ------------------------------------------------- what comes before what

  function Urgency(s: Status): nat {
    match s
    case Unhealthy => 0
    case Degraded => 1
    case Unknown => 2
    case Healthy => 3
  }

  /** What operators see first: worse devices, then newer alerts. */
  predicate MoreUrgent(a: Alert, b: Alert) {
    Urgency(a.kind.status) < Urgency(b.kind.status) || (a.kind == b.kind && a.openedAt > b.openedAt)
  }

  lemma UrgentComesBefore(actions: seq<Action>, i: AlertId, j: AlertId)
    requires IsRun(actions) && i in Run(actions).alerts && j in Run(actions).alerts
    requires MoreUrgent(Run(actions).alerts[i], Run(actions).alerts[j])
    ensures Before(KeyOf(Run(actions).alerts, i), KeyOf(Run(actions).alerts, j))
  {
    SeverityFollowsKind(actions, i);
    SeverityFollowsKind(actions, j);
    hide Run, IsRun;
  }

  /** On every run a page that holds an alert also holds, before it, every more urgent one that matches and was not paged past. */
  lemma UrgentIsListedFirst(actions: seq<Action>, f: Filter, limit: nat, cursor: Option<Key>, i: AlertId, n: nat)
    requires limit > 0 && IsRun(actions) && i in Run(actions).alerts
    requires var alerts := Run(actions).alerts; Matches(alerts[i], f) && Past(cursor, KeyOf(alerts, i))
    requires var items := List(Run(actions).alerts, f, limit, cursor).items;
             n < |items| && items[n].id in Run(actions).alerts && MoreUrgent(Run(actions).alerts[i], Run(actions).alerts[items[n].id])
    ensures var alerts := Run(actions).alerts; KeyOf(alerts, i) in List(alerts, f, limit, cursor).items[..n]
  {
    var alerts := Run(actions).alerts;
    var p, k := List(alerts, f, limit, cursor), KeyOf(alerts, i);
    assert k in Candidates(alerts, f, cursor);
    PageIsFront(alerts, f, limit, cursor);
    assert p.items[n] in p.items && p.items[n] in Candidates(alerts, f, cursor);
    assert p.items[n] == KeyOf(alerts, p.items[n].id);
    UrgentComesBefore(actions, i, p.items[n].id);
    hide Run, IsRun, List, Sorted, Candidates, KeyOf, Matches, MoreUrgent;
    EarlierOnPage(p, k, n);
  }

  lemma EarlierOnPage(p: Page, k: Key, n: nat)
    requires Ordered(p.items) && n < |p.items| && Before(k, p.items[n])
    requires k !in p.items ==> p.next.Some? && Before(p.next.value, k) && p.next.value == Last(p.items)
    ensures k in p.items[..n]
  {
    if k in p.items {
      var m :| 0 <= m < |p.items| && p.items[m] == k;
      assert p.items[..n][m] == k;
    } else {
      BeforeIsTransitive(Last(p.items), k, p.items[n]);
      assert false by { assert p.items[n] in p.items; LastIsLast(p.items, p.items[n]); }
    }
  }

  // ----------------------------------------------------------------- tokens

  /** A page as the client sees it: the key to resume from is an opaque token. */
  datatype Served = Served(items: seq<Key>, next: Option<string>, hasMore: bool)

  function Serve(p: Page, codec: Codec<Key>): Served {
    Served(p.items, if p.next.Some? then Some(codec.EncodeCursor(p.next.value)) else None, p.hasMore)
  }

  function ServeAll(pages: seq<Page>, codec: Codec<Key>): seq<Served> {
    seq(|pages|, n requires 0 <= n < |pages| => Serve(pages[n], codec))
  }

  /** The endpoint: an empty token means no cursor, and one that does not decode is an error. */
  ghost function ListByToken(alerts: map<AlertId, Alert>, f: Filter, limit: nat, token: string, codec: Codec<Key>): Option<Served> {
    if token == "" then Some(Serve(List(alerts, f, limit, None), codec))
    else
      var k := codec.DecodeCursor(token);
      if k.None? then None else Some(Serve(List(alerts, f, limit, k), codec))
  }

  /** A client that hands each page's token back until there is no more. */
  ghost function TokenSession(tables: seq<map<AlertId, Alert>>, f: Filter, limit: nat, token: string, codec: Codec<Key>): Option<seq<Served>> {
    if tables == [] then Some([])
    else
      var p := ListByToken(tables[0], f, limit, token, codec);
      if p.None? then None
      else if !p.value.hasMore || p.value.next.None? then Some([p.value])
      else
        var rest := TokenSession(tables[1..], f, limit, p.value.next.value, codec);
        if rest.None? then None else Some([p.value] + rest.value)
  }

  function TokenOf(cursor: Option<Key>, codec: Codec<Key>): string {
    if cursor.None? then "" else codec.EncodeCursor(cursor.value)
  }

  ghost predicate ReadsBack(codec: Codec<Key>, cursor: Option<Key>) {
    cursor.Some? ==> codec.FaithfulOn(cursor.value)
  }

  /** One fetch by token is the fetch by the key the token stands for. */
  lemma TokensResumeByKey(alerts: map<AlertId, Alert>, f: Filter, limit: nat, cursor: Option<Key>, codec: Codec<Key>)
    requires ReadsBack(codec, cursor)
    ensures ListByToken(alerts, f, limit, TokenOf(cursor, codec), codec) == Some(Serve(List(alerts, f, limit, cursor), codec))
  {
    hide List;
    if cursor.Some? {
      codec.CursorRoundTrip(cursor.value);
    }
  }

  lemma ServeNothing(codec: Codec<Key>)
    ensures ServeAll([], codec) == []
  {
  }

  lemma ServeFirst(p: Page, rest: seq<Page>, codec: Codec<Key>)
    ensures ServeAll([p] + rest, codec) == [Serve(p, codec)] + ServeAll(rest, codec)
  {
  }

  lemma ServeKeepsShape(p: Page, codec: Codec<Key>)
    ensures Serve(p, codec).hasMore == p.hasMore
    ensures Serve(p, codec).next == if p.next.Some? then Some(TokenOf(p.next, codec)) else None
  {
  }

  /** A whole session driven by tokens serves the very pages of the session by keys; no token is ever refused. */
  lemma {:induction false} TokenSessionServesSession(tables: seq<map<AlertId, Alert>>, f: Filter, limit: nat, cursor: Option<Key>, codec: Codec<Key>)
    requires limit > 0 && ReadsBack(codec, cursor)
    requires forall p :: p in Session(tables, f, limit, cursor) ==> ReadsBack(codec, p.next)
    ensures TokenSession(tables, f, limit, TokenOf(cursor, codec), codec) == Some(ServeAll(Session(tables, f, limit, cursor), codec))
  {
    hide List, Ordered, Sorted, Past, Before, Candidates, Serve, ServeAll, ListByToken;
    ServeNothing(codec);
    if tables != [] {
      var p := List(tables[0], f, limit, cursor);
      PageIsFront(tables[0], f, limit, cursor);
      ServeKeepsShape(p, codec);
      TokensResumeByKey(tables[0], f, limit, cursor, codec);
      if p.hasMore {
        var rest := Session(tables[1..], f, limit, p.next);
        assert Session(tables, f, limit, cursor) == [p] + rest;
        assert p in [p] + rest;
        assert forall q :: q in rest ==> q in [p] + rest;
        TokenSessionServesSession(tables[1..], f, limit, p.next, codec);
        ServeFirst(p, rest, codec);
      } else {
        ServeFirst(p, [], codec);
        assert [p] + [] == [p] && [Serve(p, codec)] + [] == [Serve(p, codec)];
      }
    }
  }

  function ServedItems(pages: seq<Served>): seq<Key> {
    if pages == [] then [] else pages[0].items + ServedItems(pages[1..])
  }

  lemma {:induction false} ServingKeepsItems(pages: seq<Page>, codec: Codec<Key>)
    ensures ServedItems(ServeAll(pages, codec)) == Items(pages)
  {
    if pages != [] {
      assert ServeAll(pages, codec)[1..] == ServeAll(pages[1..], codec);
      ServingKeepsItems(pages[1..], codec);
    }
  }

  /** What a client sees that follows tokens while the cloud runs: no alert twice, and every lasting match once. */
  lemma TokenPagingUnderChange(actions: seq<Action>, cuts: seq<nat>, f: Filter, limit: nat, codec: Codec<Key>)
    requires limit > 0 && IsRun(actions)
    requires forall n :: 0 <= n < |cuts| ==> cuts[n] <= |actions|
    requires forall n :: 0 < n < |cuts| ==> cuts[n - 1] <= cuts[n]
    requires forall p :: p in Session(Snapshots(actions, cuts), f, limit, None) ==> ReadsBack(codec, p.next)
    ensures var tables := Snapshots(actions, cuts);
            var served := TokenSession(tables, f, limit, "", codec);
            && served.Some?
            && (forall k :: k in ServedItems(served.value) ==> ReturnedExactlyOnce(k.id, ServedItems(served.value)))
            && (served.value != [] && !Last(served.value).hasMore ==> forall i ::
                  (forall n :: 0 <= n < |tables| ==> i in tables[n] && Matches(tables[n][i], f)) ==>
                  ReturnedExactlyOnce(i, ServedItems(served.value)))
  {
    hide Session, TokenSession, Matches, Items, ServedItems, Snapshots, ReturnedExactlyOnce, IsRun;
    var tables := Snapshots(actions, cuts);
    var pages := Session(tables, f, limit, None);
    PagingUnderChange(actions, cuts, f, limit);
    TokenSessionServesSession(tables, f, limit, None, codec);
    ServingKeepsItems(pages, codec);
    assert pages != [] ==> Last(ServeAll(pages, codec)) == Serve(Last(pages), codec);
  }
}
