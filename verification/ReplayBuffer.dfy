/** The replay buffer behind the event stream: recent events, and those after a given one. */
module ReplayBuffer {
  import opened Sequences
  import opened Messages

  type EventId = nat

  datatype Event = Event(id: EventId, payload: nat, at: Time)

  /** One call of `add`: the event, and the clock reading that decides the cutoff. */
  datatype Addition = Addition(event: Event, now: Time)

  function Fresh(events: seq<Event>, cutoff: Time): seq<Event> {
    if events == [] then []
    else
      var before := Fresh(events[..|events| - 1], cutoff);
      if Last(events).at >= cutoff then before + [Last(events)] else before
  }

  function Added(events: seq<Event>, window: Time, a: Addition): seq<Event> {
    Fresh(events, a.now - window) + [a.event]
  }

  function Buffer(window: Time, history: seq<Addition>): seq<Event> {
    if history == [] then [] else Added(Buffer(window, history[..|history| - 1]), window, Last(history))
  }

  function Events(history: seq<Addition>): seq<Event> {
    seq(|history|, n requires 0 <= n < |history| => history[n].event)
  }

  predicate At(events: seq<Event>, id: EventId, n: nat) {
    n < |events| && events[n].id == id && forall m :: 0 <= m < n ==> events[m].id != id
  }

  class SseReplayBuffer {
    const window: Time
    var events: seq<Event>

    constructor (windowSeconds: Time)
      ensures window == windowSeconds && events == []
    {
      window, events := windowSeconds, [];
    }

    method Add(event: Event, now: Time)
      modifies this
      ensures events == Added(old(events), window, Addition(event, now))
    {
      var cutoff := now - window;
      var kept: seq<Event> := [];
      for n := 0 to |events|
        invariant kept == Fresh(events[..n], cutoff) && events == old(events)
      {
        assert events[..n + 1][..n] == events[..n];
        if events[n].at >= cutoff {
          kept := kept + [events[n]];
        }
      }
      assert events[..|events|] == events;
      events := kept + [event];
    }

    /** Everything after the first event with this id; nothing when the id is not held. */
    method EventsSince(id: EventId) returns (later: seq<Event>)
      ensures (forall e :: e in events ==> e.id != id) ==> later == []
      ensures forall n :: At(events, id, n) ==> later == events[n + 1..]
    {
      for n := 0 to |events|
        invariant forall m :: 0 <= m < n ==> events[m].id != id
      {
        if events[n].id == id {
          return events[n + 1..];
        }
      }
      later := [];
    }
  }

  // ------------------------------------------------------------------ facts

  /** Event times and clock readings never go back. */
  ghost predicate Clocked(history: seq<Addition>) {
    forall m, n :: 0 <= m < n < |history| ==> history[m].event.at <= history[n].event.at && history[m].now <= history[n].now
  }

  ghost predicate InOrder(events: seq<Event>) {
    forall m, n :: 0 <= m < n < |events| ==> events[m].at <= events[n].at
  }

  ghost predicate UniqueIds(events: seq<Event>) {
    forall m, n :: 0 <= m < n < |events| ==> events[m].id != events[n].id
  }

  ghost predicate IsSuffix(tail: seq<Event>, events: seq<Event>) {
    |tail| <= |events| && tail == events[|events| - |tail|..]
  }

  lemma {:induction false} FreshIsSuffix(events: seq<Event>, cutoff: Time)
    requires InOrder(events)
    ensures IsSuffix(Fresh(events, cutoff), events)
  {
    if events != [] {
      var front := events[..|events| - 1];
      FreshIsSuffix(front, cutoff);
      assert events == front + [Last(events)];
      if Last(events).at < cutoff {
        NothingFresh(front, cutoff);
      }
    }
  }

  lemma {:induction false} FreshKeeps(events: seq<Event>, cutoff: Time, e: Event)
    requires e in events && e.at >= cutoff
    ensures e in Fresh(events, cutoff)
  {
    assert events == events[..|events| - 1] + [Last(events)];
    if e != Last(events) {
      FreshKeeps(events[..|events| - 1], cutoff, e);
    }
  }

  lemma {:induction false} NothingFresh(events: seq<Event>, cutoff: Time)
    requires forall n :: 0 <= n < |events| ==> events[n].at < cutoff
    ensures Fresh(events, cutoff) == []
  {
    if events != [] {
      NothingFresh(events[..|events| - 1], cutoff);
    }
  }

  lemma EventsSnoc(history: seq<Addition>)
    requires history != []
    ensures Events(history) == Events(history[..|history| - 1]) + [Last(history).event]
  {
  }

  lemma ClockedFront(history: seq<Addition>)
    requires Clocked(history) && history != []
    ensures Clocked(history[..|history| - 1]) && InOrder(Events(history[..|history| - 1]))
  {
  }

  lemma SuffixInOrder(tail: seq<Event>, events: seq<Event>)
    requires IsSuffix(tail, events) && InOrder(events)
    ensures InOrder(tail)
  {
  }

  /** The buffer is a suffix of all that was ever added. */
  lemma {:induction false} BufferIsSuffix(window: Time, history: seq<Addition>)
    requires Clocked(history)
    ensures IsSuffix(Buffer(window, history), Events(history))
  {
    if history != [] {
      hide Clocked, InOrder, IsSuffix, Fresh, Events;
      var front, a := history[..|history| - 1], Last(history);
      ClockedFront(history);
      BufferIsSuffix(window, front);
      EventsSnoc(history);
      SuffixInOrder(Buffer(window, front), Events(front));
      FreshIsSuffix(Buffer(window, front), a.now - window);
      SuffixOfSuffix(Fresh(Buffer(window, front), a.now - window), Buffer(window, front), Events(front), a.event);
    }
  }

  /** It holds every event still inside the window at the latest addition. */
  lemma {:induction false} BufferHoldsWindow(window: Time, history: seq<Addition>, e: Event)
    requires Clocked(history) && e in Events(history) && e.at >= Last(history).now - window
    ensures e in Buffer(window, history)
  {
    hide InOrder, IsSuffix, Fresh, Events;
    EventsOfNone(history, e);
    var front, a := history[..|history| - 1], Last(history);
    ClockedFront(history);
    EventsSnoc(history);
    if e in Events(front) {
      EventsOfNone(front, e);
      BufferHoldsWindow(window, front, e);
      FreshKeeps(Buffer(window, front), a.now - window, e);
    }
  }

  lemma EventsOfNone(history: seq<Addition>, e: Event)
    requires e in Events(history)
    ensures history != []
  {
  }

  lemma SuffixOfSuffix(tail: seq<Event>, middle: seq<Event>, all: seq<Event>, e: Event)
    requires IsSuffix(tail, middle) && IsSuffix(middle, all)
    ensures IsSuffix(tail + [e], all + [e])
  {
  }

  lemma SamePlace(events: seq<Event>, k: nat, j: nat)
    requires UniqueIds(events) && k < |events| && j < |events| && events[k].id == events[j].id
    ensures k == j
  {
  }

  lemma SuffixAt(tail: seq<Event>, events: seq<Event>, n: nat)
    requires IsSuffix(tail, events) && n < |tail|
    ensures tail[n] == events[|events| - |tail| + n] && tail[n + 1..] == events[|events| - |tail| + n + 1..]
  {
  }

  /** An event inside the window can always be asked about. */
  lemma RecentEventIsHeld(window: Time, history: seq<Addition>, k: nat)
    requires Clocked(history) && UniqueIds(Events(history)) && k < |history|
    requires history[k].event.at >= Last(history).now - window
    ensures exists n :: At(Buffer(window, history), history[k].event.id, n)
  {
    hide Clocked, UniqueIds, IsSuffix, Buffer;
    var held, all := Buffer(window, history), Events(history);
    BufferIsSuffix(window, history);
    assert all[k] in all;
    BufferHoldsWindow(window, history, all[k]);
    var n :| 0 <= n < |held| && held[n] == all[k];
    SuffixAt(held, all, n);
    BufferIsNoLonger(held, all);
    forall m | 0 <= m < n ensures held[m].id != all[k].id {
      SuffixAt(held, all, m);
      if held[m].id == all[k].id {
        SamePlace(all, |all| - |held| + m, |all| - |held| + n);
      }
    }
    assert At(held, history[k].event.id, n);
  }

  /** What follows a held event in the buffer is exactly what was added after it. */
  lemma ReplayIsWhatCameAfter(window: Time, history: seq<Addition>, k: nat, n: nat)
    requires Clocked(history) && UniqueIds(Events(history)) && k < |history|
    requires At(Buffer(window, history), history[k].event.id, n)
    ensures Buffer(window, history)[n + 1..] == Events(history)[k + 1..]
  {
    hide Clocked, UniqueIds, IsSuffix, Buffer;
    var held, all := Buffer(window, history), Events(history);
    BufferIsSuffix(window, history);
    SuffixAt(held, all, n);
    BufferIsNoLonger(held, all);
    SamePlace(all, k, |all| - |held| + n);
  }

  lemma BufferIsNoLonger(tail: seq<Event>, events: seq<Event>)
    requires IsSuffix(tail, events)
    ensures |tail| <= |events|
  {
  }
}
