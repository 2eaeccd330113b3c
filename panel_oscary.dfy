/**
 * The panel's teacher-awards views: the status a round is shown with, the
 * events a candidature may be attached to, the status filter of the events
 * list, and the update view that reschedules an event's rounds.
 */
module PanelOscary {
  import opened Validation
  import opened Schedule
  import opened OscaryModels
  import opened PanelHelpers

  // ----------------------------------------------------------- round status

  /** `_create_voting_status` of this view module, applied to a round. */
  function RoundStatus(r: Round, now: int): (s: Status)
    ensures s == VotingStatus(r.plannedStart, r.plannedEnd, now)
  {
    if r.plannedStart <= now && r.plannedEnd >= now then Active
    else if r.plannedEnd > now then Planned
    else Ended
  }

  /** A stored round (start before end) is shown as planned until it starts and as ended once it is over. */
  lemma StoredRoundStatus(a: Awards, i: nat, now: int)
    requires Inv(a) && i < |a.rounds|
    ensures RoundStatus(a.rounds[i], now) == Planned <==> now < a.rounds[i].plannedStart
    ensures RoundStatus(a.rounds[i], now) == Ended <==> a.rounds[i].plannedEnd < now
  {
    PlannedMeansNotStarted(a.rounds[i].plannedStart, a.rounds[i].plannedEnd, now);
  }

  // ------------------------------------------------ events open to candidatures

  /** The event's round that starts first (`first_round_pk`), and the event is offered when that start lies ahead. */
  predicate Offered(a: Awards, ev: nat, now: int) {
    var first := FirstBy(a.rounds, ev, PlannedStart, false);
    first.Some? && now < a.rounds[first.value].plannedStart
  }

  /** An event with rounds is offered exactly when none of its rounds has started. */
  lemma OfferedMeansNothingStarted(a: Awards, ev: nat, now: int)
    ensures Offered(a, ev, now) <==>
      (exists i :: 0 <= i < |a.rounds| && a.rounds[i].event == ev) &&
      (forall i :: 0 <= i < |a.rounds| && a.rounds[i].event == ev ==> now < a.rounds[i].plannedStart)
  {
    var first := FirstBy(a.rounds, ev, PlannedStart, false);
    if first.Some? {
      assert a.rounds[first.value].event == ev;
    }
  }

  /** The offered events among the first `n`, in pk order, leaving out `excluded`. */
  function OfferedAmong(a: Awards, n: nat, now: int, excluded: Option<nat>): (r: seq<nat>)
    requires n <= |a.events|
    ensures forall ev: nat :: ev in r <==> ev < n && Offered(a, ev, now) && Some(ev) != excluded
    ensures forall i, j :: 0 <= i < j < |r| ==> r[i] < r[j]
    ensures forall i :: 0 <= i < |r| ==> r[i] < n
  {
    if n == 0 then []
    else
      var prev := OfferedAmong(a, n - 1, now, excluded);
      if Offered(a, n - 1, now) && Some(n - 1) != excluded then prev + [n - 1] else prev
  }

  /**
   * The events the create-candidature form offers, each once and in pk
   * order: those whose first round (`first_round_pk`, FirstBy on the start)
   * starts after now; an event without rounds has no first round and is not
   * offered. The update form offers the same list without the event the
   * candidature is already in.
   */
  function CandidatureEvents(a: Awards, now: int, selected: Option<nat>): (r: seq<nat>)
    ensures forall ev: nat :: ev in r <==> ev < |a.events| && Offered(a, ev, now) && Some(ev) != selected
    ensures forall i, j :: 0 <= i < j < |r| ==> r[i] < r[j]
  {
    OfferedAmong(a, |a.events|, now, selected)
  }

  // ---------------------------------------------------------- status filter

  /**
   * `[e for e in events if status(e) in statuses]` when at least one status
   * is selected; an empty selection keeps the list as it is.
   */
  function FilterByStatus<E>(events: seq<E>, selected: seq<Status>, statusOf: E -> Status): (r: seq<E>)
    ensures selected == [] ==> r == events
    ensures |r| <= |events|
  {
    if selected == [] || events == [] then events
    else
      var rest := FilterByStatus(events[1..], selected, statusOf);
      if statusOf(events[0]) in selected then [events[0]] + rest else rest
  }

  /** With a selection, the result keeps exactly the events whose status is selected. */
  lemma {:induction false} FilterKeepsSelected<E>(events: seq<E>, selected: seq<Status>, statusOf: E -> Status)
    ensures selected != [] ==> forall x :: x in FilterByStatus(events, selected, statusOf) ==> x in events && statusOf(x) in selected
    ensures selected != [] ==> forall x :: x in events && statusOf(x) in selected ==> x in FilterByStatus(events, selected, statusOf)
  {
    if selected != [] && events != [] {
      var r := FilterByStatus(events, selected, statusOf);
      var tail := events[1..];
      var rest := FilterByStatus(tail, selected, statusOf);
      FilterKeepsSelected(tail, selected, statusOf);
      var kept := statusOf(events[0]) in selected;
      assert r == (if kept then [events[0]] else []) + rest;
      forall x | x in r
        ensures x in events && statusOf(x) in selected
      {
        if x != events[0] {
          assert x in rest;
        }
      }
      forall x | x in events && statusOf(x) in selected
        ensures x in r
      {
        if x != events[0] {
          assert x in tail;
        }
      }
    }
  }

  /** One event is kept exactly when no status is selected or its own status is. */
  lemma FilterSingle<E>(x: E, selected: seq<Status>, statusOf: E -> Status)
    ensures FilterByStatus([x], selected, statusOf) == if selected == [] || statusOf(x) in selected then [x] else []
  {
    assert [x][1..] == [];
  }

  /**
   * The comprehension keeps the listing's order: filtering a concatenation
   * is filtering each part, so with FilterSingle the result is the events
   * kept, in the order they were listed.
   */
  lemma {:induction false} FilterAppend<E>(xs: seq<E>, ys: seq<E>, selected: seq<Status>, statusOf: E -> Status)
    ensures FilterByStatus(xs + ys, selected, statusOf) == FilterByStatus(xs, selected, statusOf) + FilterByStatus(ys, selected, statusOf)
  {
    if selected != [] && xs != [] {
      FilterAppend(xs[1..], ys, selected, statusOf);
      assert (xs + ys)[0] == xs[0];
      assert (xs + ys)[1..] == xs[1..] + ys;
    } else if selected != [] {
      assert xs + ys == ys;
    }
  }

  /** Filtering twice by the same statuses is filtering once. */
  lemma {:induction false} FilterIdempotent<E>(events: seq<E>, selected: seq<Status>, statusOf: E -> Status)
    ensures FilterByStatus(FilterByStatus(events, selected, statusOf), selected, statusOf) == FilterByStatus(events, selected, statusOf)
  {
    if selected != [] && events != [] {
      var rest := FilterByStatus(events[1..], selected, statusOf);
      FilterIdempotent(events[1..], selected, statusOf);
      if statusOf(events[0]) in selected {
        assert ([events[0]] + rest)[1..] == rest;
      }
    }
  }

  /** Selecting every status keeps every event. */
  lemma {:induction false} AllStatusesKeepAll<E>(events: seq<E>, statusOf: E -> Status)
    ensures FilterByStatus(events, [Planned, Active, Ended], statusOf) == events
  {
    if events != [] {
      AllStatusesKeepAll(events[1..], statusOf);
      assert events == [events[0]] + events[1..];
      var st := statusOf(events[0]);
      assert st == Planned || st == Active || st == Ended;
      assert st in [Planned, Active, Ended];
    }
  }

  // ------------------------------------------------------------ update view

  /** `VotingRound.objects.filter(round_type=t, voting_event=ev).first()`: the lowest pk among them. */
  function FirstOfType(rounds: seq<Round>, ev: nat, t: RoundType): (r: Option<nat>)
    ensures r.None? <==> forall i :: 0 <= i < |rounds| ==> !(rounds[i].event == ev && rounds[i].roundType == t)
    ensures r.Some? ==> r.value < |rounds| && rounds[r.value].event == ev && rounds[r.value].roundType == t
    ensures r.Some? ==> forall i :: 0 <= i < r.value ==> !(rounds[i].event == ev && rounds[i].roundType == t)
  {
    if rounds == [] then None
    else if rounds[0].event == ev && rounds[0].roundType == t then Some(0)
    else match FirstOfType(rounds[1..], ev, t)
      case None => None
      case Some(i) => Some(i + 1)
  }

  /** How the update view answers: 404, an uncaught exception (500), or a redirect after the helper ran. */
  datatype ViewOutcome = NotFound | ServerError | Redirected(result: Result<Option<nat>>)

  /**
   * The update helper as the view calls it: with the event's first
   * nomination round (None when there is none), its first final round, and
   * the stored `with_nominations` (the form's own checkbox is not used).
   */
  function UpdateViewSpec(a: Awards, f: EventForm, eventId: nat, now: int): (u: Updated)
    requires eventId < |a.events|
    requires FirstOfType(a.rounds, eventId, Final).Some?
    ensures u.result.Err? ==> u.tables == a
    ensures u.result.Ok? ==> u.result == Ok(Some(eventId))
    ensures u.result.Ok? && a.events[eventId].withNominations ==> FirstOfType(a.rounds, eventId, Nomination).Some?
  {
    UpdateSpec(a, f, eventId, FirstOfType(a.rounds, eventId, Nomination),
               FirstOfType(a.rounds, eventId, Final).value, a.events[eventId].withNominations, now)
  }

  /**
   * Updating an event from its own page touches only that event's rounds:
   * every other event's rounds, the events, competitions and votes stay as
   * they were; on success the final round carries the submitted dates.
   */
  lemma UpdateViewTouchesOnlyItsEvent(a: Awards, f: EventForm, eventId: nat, now: int)
    requires eventId < |a.events|
    requires FirstOfType(a.rounds, eventId, Final).Some?
    ensures var u := UpdateViewSpec(a, f, eventId, now);
      && u.tables.events == a.events && u.tables.competitions == a.competitions && u.tables.votes == a.votes
      && |u.tables.rounds| == |a.rounds|
      && (forall i :: 0 <= i < |a.rounds| && a.rounds[i].event != eventId ==> u.tables.rounds[i] == a.rounds[i])
    ensures var u := UpdateViewSpec(a, f, eventId, now);
      u.result.Ok? ==>
        u.result == Ok(Some(eventId)) &&
        var k := FirstOfType(a.rounds, eventId, Final).value;
        u.tables.rounds[k].plannedStart == f.lStart && u.tables.rounds[k].plannedEnd == f.lEnd
  {
    UpdateOnlyReschedules(a, f, eventId, FirstOfType(a.rounds, eventId, Nomination),
                          FirstOfType(a.rounds, eventId, Final).value, a.events[eventId].withNominations, now);
  }

  /** An event stored without nominations keeps its nomination-free shape: the submitted nomination fields are ignored. */
  lemma UpdateIgnoresNominationFields(a: Awards, f: EventForm, g: EventForm, eventId: nat, now: int)
    requires eventId < |a.events| && !a.events[eventId].withNominations
    requires FirstOfType(a.rounds, eventId, Final).Some?
    requires f.lStart == g.lStart && f.lEnd == g.lEnd
    ensures UpdateViewSpec(a, f, eventId, now) == UpdateViewSpec(a, g, eventId, now)
  {
  }

  /** The stored `with_nominations` governs the update: the submitted checkbox has no effect, whichever way the event was stored. */
  lemma UpdateUsesStoredNominations(a: Awards, f: EventForm, b: bool, eventId: nat, now: int)
    requires eventId < |a.events|
    requires FirstOfType(a.rounds, eventId, Final).Some?
    ensures UpdateViewSpec(a, f, eventId, now) == UpdateViewSpec(a, f.(withNominations := b), eventId, now)
  {
  }

  /** update_voting_event, POST with a valid form. */
  method UpdateVotingEventView(s: AwardsStore, f: EventForm, eventId: nat, now: int) returns (o: ViewOutcome)
    requires s.Valid()
    modifies s
    ensures s.Valid()
    ensures eventId >= |old(s.events)| ==> o == NotFound && s.Snapshot() == old(s.Snapshot())
    ensures eventId < |old(s.events)| && FirstOfType(old(s.rounds), eventId, Final).None? ==>
      o == ServerError && s.Snapshot() == old(s.Snapshot())
    ensures eventId < |old(s.events)| && FirstOfType(old(s.rounds), eventId, Final).Some? ==>
      var u := UpdateViewSpec(old(s.Snapshot()), f, eventId, now);
      o == Redirected(u.result) && s.Snapshot() == u.tables
  {
    if eventId >= |s.events| {
      return NotFound;
    }
    var nominationId := FirstOfType(s.rounds, eventId, Nomination);
    var finalId := FirstOfType(s.rounds, eventId, Final);
    if finalId.None? {
      return ServerError;
    }
    var r := UpdateEventVoting(s, f, eventId, nominationId, finalId.value, s.events[eventId].withNominations, now);
    return Redirected(r);
  }
}
