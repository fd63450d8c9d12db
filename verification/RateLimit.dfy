/** The fixed-window limiter of guest requests (lib/guests/service.ts) and the sweep that
    deletes its old windows (lib/operations/retention.ts). Times are milliseconds. */
module RateLimit {

  const WINDOW := 60_000
  const DAY := 86_400_000

  datatype Action = Exchange | Read | Rsvp

  function Limit(action: Action): nat {
    match action
    case Exchange => 12
    case Read => 60
    case Rsvp => 12
  }

  datatype Subject = Subject(keyDigest: nat, action: Action)

  /** The primary key of a row. */
  datatype Bucket = Bucket(subject: Subject, startedAt: int)

  type Table = map<Bucket, nat>

  function StartOf(now: int): int { now - now % WINDOW }

  function Attempts(table: Table, b: Bucket): nat {
    if b in table then table[b] else 0
  }

  datatype Event = Call(subject: Subject, at: int) | Sweep(at: int)

  function BucketOf(e: Event): Bucket
    requires e.Call?
  {
    Bucket(e.subject, StartOf(e.at))
  }

  function Step(table: Table, e: Event): Table {
    match e
    case Call(_, _) => table[BucketOf(e) := Attempts(table, BucketOf(e)) + 1]
    case Sweep(now) => map b | b in table && b.startedAt >= now - DAY :: table[b]
  }

  class RateLimits {
    var table: Table

    constructor ()
      ensures table == map[]
    {
      table := map[];
    }

    /** Upsert, then compare the returned counter. */
    method Enforce(subject: Subject, now: int) returns (accepted: bool)
      modifies this
      ensures table == Step(old(table), Call(subject, now))
      ensures accepted <==> Attempts(old(table), Bucket(subject, StartOf(now))) < Limit(subject.action)
    {
      var row := Bucket(subject, StartOf(now));
      if row in table {
        table := table[row := table[row] + 1];
      } else {
        table := table[row := 1];
      }
      accepted := !(table[row] > Limit(subject.action));
    }

    method DeleteOldWindows(now: int)
      modifies this
      ensures table == Step(old(table), Sweep(now))
    {
      table := map b | b in table && !(b.startedAt < now - DAY) :: table[b];
    }
  }

  /** Windows are the minutes of the clock. */
  lemma WindowsAreMinutes(now: int)
    ensures StartOf(now) % (60 * 1000) == 0 && StartOf(now) <= now < StartOf(now) + 60 * 1000
  {
  }

  /** A sweep keeps exactly the windows that started within the last 24 hours, and their counters. */
  lemma SweepKeepsADay(table: Table, now: int)
    ensures var swept := Step(table, Sweep(now));
            && (forall b :: b in swept <==> b in table && now - b.startedAt <= 24 * 60 * 60 * 1000)
            && (forall b :: b in swept ==> swept[b] == table[b])
  {
  }

  /** 12 exchanges, 12 responses or 60 reads pass in a window, and the next call does not. */
  lemma CallsPerMinute(table: Table, subject: Subject, at: int)
    ensures LimitsCall(table, subject, at) <==>
              Attempts(table, Bucket(subject, StartOf(at))) >= match subject.action case Exchange => 12 case Read => 60 case Rsvp => 12
  {
  }

  predicate LimitsCall(table: Table, subject: Subject, at: int) {
    !(Attempts(table, Bucket(subject, StartOf(at))) < Limit(subject.action))
  }

  // ----- Runs -----

  function TableAfter(events: seq<Event>): Table {
    if events == [] then map[] else Step(TableAfter(events[..|events| - 1]), events[|events| - 1])
  }

  /** Whether the last event of a run is an accepted call. */
  predicate LastAccepted(events: seq<Event>)
    requires events != []
  {
    var e := events[|events| - 1];
    e.Call? && Attempts(TableAfter(events[..|events| - 1]), BucketOf(e)) < Limit(e.subject.action)
  }

  function CallsIn(events: seq<Event>, b: Bucket): nat {
    if events == [] then 0
    else
      var e := events[|events| - 1];
      CallsIn(events[..|events| - 1], b) + if e.Call? && BucketOf(e) == b then 1 else 0
  }

  function AcceptedIn(events: seq<Event>, b: Bucket): nat {
    if events == [] then 0
    else
      var e := events[|events| - 1];
      AcceptedIn(events[..|events| - 1], b) + if LastAccepted(events) && BucketOf(e) == b then 1 else 0
  }

  /** Accepted calls of a subject in the half-open minute that starts at `from`, aligned or not. */
  function AcceptedFrom(events: seq<Event>, subject: Subject, from: int): nat {
    if events == [] then 0
    else
      var e := events[|events| - 1];
      AcceptedFrom(events[..|events| - 1], subject, from)
      + if LastAccepted(events) && e.subject == subject && from <= e.at < from + WINDOW then 1 else 0
  }

  /** For a minute of the clock that is what its window counts. */
  lemma {:induction false} AlignedMinuteCounts(events: seq<Event>, subject: Subject, from: int)
    requires from % WINDOW == 0
    ensures AcceptedFrom(events, subject, from) == AcceptedIn(events, Bucket(subject, from))
  {
    if events != [] {
      var e := events[|events| - 1];
      AlignedMinuteCounts(events[..|events| - 1], subject, from);
      assert from <= e.at < from + WINDOW <==> StartOf(e.at) == from;
    }
  }

  ghost predicate TimeMovesForward(events: seq<Event>) {
    forall i, j :: 0 <= i < j < |events| ==> events[i].at <= events[j].at
  }

  /** The counter of every window still open counts its calls, whatever the sweeps deleted. */
  lemma {:induction false} OpenWindowsCountCalls(events: seq<Event>, b: Bucket)
    requires TimeMovesForward(events)
    requires forall i :: 0 <= i < |events| ==> events[i].at < b.startedAt + WINDOW
    ensures Attempts(TableAfter(events), b) == CallsIn(events, b)
    decreases |events|
  {
    if events != [] {
      OpenWindowsCountCalls(events[..|events| - 1], b);
    }
  }

  /** A call is accepted exactly when fewer than `Limit` calls came before it in its minute. */
  lemma AcceptedExactlyBelowLimit(events: seq<Event>)
    requires TimeMovesForward(events) && events != [] && events[|events| - 1].Call?
    ensures var e := events[|events| - 1];
            LastAccepted(events) <==> CallsIn(events[..|events| - 1], BucketOf(e)) < Limit(e.subject.action)
  {
    OpenWindowsCountCalls(events[..|events| - 1], BucketOf(events[|events| - 1]));
  }

  /** In each aligned minute exactly the first `Limit` calls pass. */
  lemma {:induction false} AlignedMinuteBound(events: seq<Event>, b: Bucket)
    requires TimeMovesForward(events)
    ensures var limit := Limit(b.subject.action);
            AcceptedIn(events, b) == if CallsIn(events, b) < limit then CallsIn(events, b) else limit
    decreases |events|
  {
    if events != [] {
      AlignedMinuteBound(events[..|events| - 1], b);
      if events[|events| - 1].Call? { AcceptedExactlyBelowLimit(events); }
    }
  }

  lemma {:induction false} IntervalTouchesTwoWindows(events: seq<Event>, subject: Subject, from: int)
    ensures AcceptedFrom(events, subject, from)
         <= AcceptedIn(events, Bucket(subject, StartOf(from))) + AcceptedIn(events, Bucket(subject, StartOf(from) + WINDOW))
    decreases |events|
  {
    if events != [] {
      IntervalTouchesTwoWindows(events[..|events| - 1], subject, from);
      var e := events[|events| - 1];
    }
  }

  /** Sliding the minute at most doubles what passes. */
  lemma SlidingMinuteBound(events: seq<Event>, subject: Subject, from: int)
    requires TimeMovesForward(events)
    ensures AcceptedFrom(events, subject, from) <= 2 * Limit(subject.action)
  {
    IntervalTouchesTwoWindows(events, subject, from);
    AlignedMinuteBound(events, Bucket(subject, StartOf(from)));
    AlignedMinuteBound(events, Bucket(subject, StartOf(from) + WINDOW));
  }
}
