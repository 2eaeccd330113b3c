/**
 * The panel's database helpers for the teacher awards: creating an event
 * with its rounds in one transaction, updating the rounds' schedule in one
 * transaction, and the per-event annotations of the events listing.
 *
 * A transaction is modelled by remembering the tables on entry and putting
 * them back (AwardsStore.Restore) when a save inside it fails.
 */
module PanelHelpers {
  import opened Validation
  import opened OscaryModels

  /** The cleaned data of the whole-event form the helpers read. */
  datatype EventForm = EventForm(
    withNominations: bool,
    lStart: int, lEnd: int,       // the final round
    fStart: int, fEnd: int,       // the nomination round
    fCount: int)                  // the nomination round's number of winners

  /** The FINAL round the create helper builds: the form's final dates, the default single winner. */
  function FinalRoundOf(ev: nat, f: EventForm): Round {
    Round(ev, f.lStart, f.lEnd, 1, Final)
  }

  /** The NOMINATION round the create helper builds. */
  function NominationRoundOf(ev: nat, f: EventForm): Round {
    Round(ev, f.fStart, f.fEnd, f.fCount, Nomination)
  }

  // ------------------------------------------------------------- create

  /** The tables after the helper, its result (the event's pk) and the round handed to populate_first_round. */
  datatype Created = Created(tables: Awards, result: Result<nat>, firstRound: Option<nat>)

  /**
   * create_event_voting_db_helper: the event, then its final round, then
   * (with nominations) its nomination round, all or nothing; the first
   * round is the nomination round when there is one, else the final.
   */
  function CreateSpec(a: Awards, f: EventForm, now: int): (c: Created)
    ensures c.result.Err? ==> c.tables == a && c.firstRound.None?
    ensures c.tables.competitions == a.competitions && c.tables.votes == a.votes
    ensures c.result.Ok? ==>
      && c.result.value == |a.events| && c.firstRound.Some? && c.firstRound.value < |c.tables.rounds|
      && c.tables.rounds[c.firstRound.value].event == |a.events|
      && c.tables.rounds[c.firstRound.value].roundType == (if f.withNominations then Nomination else Final)
  {
    var ev := |a.events|;
    var a1 := Apply(a, SaveEventOp(None, Event(f.withNominations)));
    var finalErrs := RoundSaveErrors(a1, None, FinalRoundOf(ev, f), now);
    if finalErrs != [] then Created(a, Err(finalErrs), None)
    else
      var a2 := Apply(a1, SaveRoundOp(None, FinalRoundOf(ev, f), now));
      if !f.withNominations then Created(a2, Ok(ev), Some(|a.rounds|))
      else
        var nominationErrs := RoundSaveErrors(a2, None, NominationRoundOf(ev, f), now);
        if nominationErrs != [] then Created(a, Err(nominationErrs), None)
        else Created(Apply(a2, SaveRoundOp(None, NominationRoundOf(ev, f), now)), Ok(ev), Some(|a.rounds| + 1))
  }

  /** The final round is in the future, well ordered, and its start and end are free. */
  predicate FinalRoundFits(a: Awards, f: EventForm, now: int) {
    now < f.lStart < f.lEnd && !StartTaken(a.rounds, None, f.lStart) && !EndTaken(a.rounds, None, f.lEnd)
  }

  /** The nomination round is too, it does not share the final's start or end, and it has 2..32767 winners. */
  predicate NominationRoundFits(a: Awards, f: EventForm, now: int) {
    && 2 <= f.fCount <= SmallIntMax
    && now < f.fStart < f.fEnd
    && f.fStart != f.lStart && f.fEnd != f.lEnd
    && !StartTaken(a.rounds, None, f.fStart) && !EndTaken(a.rounds, None, f.fEnd)
  }

  lemma StartTakenSnoc(rounds: seq<Round>, r: Round, start: int)
    ensures StartTaken(rounds + [r], None, start) <==> StartTaken(rounds, None, start) || r.plannedStart == start
  {
    var rs := rounds + [r];
    if StartTaken(rounds, None, start) {
      var i :| 0 <= i < |rounds| && rounds[i].plannedStart == start;
      assert rs[i] == rounds[i];
    }
    if StartTaken(rs, None, start) && r.plannedStart != start {
      var i :| 0 <= i < |rs| && rs[i].plannedStart == start;
      assert rs[i] == rounds[i];
    }
    if r.plannedStart == start {
      assert rs[|rounds|] == r;
    }
  }

  lemma EndTakenSnoc(rounds: seq<Round>, r: Round, end: int)
    ensures EndTaken(rounds + [r], None, end) <==> EndTaken(rounds, None, end) || r.plannedEnd == end
  {
    var rs := rounds + [r];
    if EndTaken(rounds, None, end) {
      var i :| 0 <= i < |rounds| && rounds[i].plannedEnd == end;
      assert rs[i] == rounds[i];
    }
    if EndTaken(rs, None, end) && r.plannedEnd != end {
      var i :| 0 <= i < |rs| && rs[i].plannedEnd == end;
      assert rs[i] == rounds[i];
    }
    if r.plannedEnd == end {
      assert rs[|rounds|] == r;
    }
  }

  /**
   * When creating succeeds, and what it leaves behind: the new event at the
   * end of the events, its final round (and nomination round) at the end of
   * the rounds, nothing else touched; when it fails, nothing at all changed.
   */
  lemma CreateOutcome(a: Awards, f: EventForm, now: int)
    requires RefsOk(a)
    ensures var c := CreateSpec(a, f, now);
      c.result.Ok? <==> FinalRoundFits(a, f, now) && (f.withNominations ==> NominationRoundFits(a, f, now))
    ensures var c := CreateSpec(a, f, now);
      c.result.Err? ==> c.tables == a && c.firstRound.None?
    ensures var c := CreateSpec(a, f, now); var ev := |a.events|;
      c.result.Ok? ==>
        && c.result.value == ev
        && c.tables.events == a.events + [Event(f.withNominations)]
        && c.tables.rounds == a.rounds + [FinalRoundOf(ev, f)] + (if f.withNominations then [NominationRoundOf(ev, f)] else [])
        && c.tables.competitions == a.competitions && c.tables.votes == a.votes
        && c.firstRound == Some(if f.withNominations then |a.rounds| + 1 else |a.rounds|)
  {
    var ev := |a.events|;
    var a1 := Apply(a, SaveEventOp(None, Event(f.withNominations)));
    assert a1 == a.(events := a.events + [Event(f.withNominations)]);
    var fin := FinalRoundOf(ev, f);
    assert !TypeTaken(a1.rounds, None, fin);
    assert RoundSaveErrors(a1, None, fin, now) == [] <==> FinalRoundFits(a, f, now);
    if RoundSaveErrors(a1, None, fin, now) == [] {
      var a2 := Apply(a1, SaveRoundOp(None, fin, now));
      assert a2.rounds == a.rounds + [fin];
      var nom := NominationRoundOf(ev, f);
      StartTakenSnoc(a.rounds, fin, f.fStart);
      EndTakenSnoc(a.rounds, fin, f.fEnd);
      assert forall i :: 0 <= i < |a.rounds| ==> a2.rounds[i] == a.rounds[i];
      assert !TypeTaken(a2.rounds, None, nom);
      assert RoundSaveErrors(a2, None, nom, now) == [] <==> NominationRoundFits(a, f, now);
    }
  }

  /** The helper; its result is the new event's pk and the round to populate first. */
  method CreateEventVoting(s: AwardsStore, f: EventForm, now: int) returns (r: Result<nat>, firstRound: Option<nat>)
    requires s.Valid()
    modifies s
    ensures s.Valid()
    ensures Created(s.Snapshot(), r, firstRound) == CreateSpec(old(s.Snapshot()), f, now)
  {
    var saved := s.Snapshot();
    var ev := |s.events|;
    var e := s.SaveEvent(None, Event(f.withNominations));
    ghost var a1 := s.Snapshot();
    var finalPk := s.SaveRound(None, FinalRoundOf(ev, f), now);
    assert finalPk.Err? <==> RoundSaveErrors(a1, None, FinalRoundOf(ev, f), now) != [];
    if finalPk.Err? {
      assert CreateSpec(saved, f, now) == Created(saved, Err(finalPk.codes), None);
      s.Restore(saved);
      return Err(finalPk.codes), None;
    }
    ghost var a2 := s.Snapshot();
    assert finalPk.value == |saved.rounds|;
    if !f.withNominations {
      return Ok(ev), Some(finalPk.value);
    }
    var nominationPk := s.SaveRound(None, NominationRoundOf(ev, f), now);
    assert nominationPk.Err? <==> RoundSaveErrors(a2, None, NominationRoundOf(ev, f), now) != [];
    if nominationPk.Err? {
      assert CreateSpec(saved, f, now) == Created(saved, Err(nominationPk.codes), None);
      s.Restore(saved);
      return Err(nominationPk.codes), None;
    }
    assert nominationPk.value == |saved.rounds| + 1;
    return Ok(ev), Some(nominationPk.value);
  }

  /** An event without nominations from an empty database: one event, one final round, populated first. */
  lemma CreateWithoutNominations(a: Awards, f: EventForm)
    requires a == Awards([], [], [], []) && f == EventForm(false, 10, 20, 0, 0, 0)
    ensures CreateSpec(a, f, 0) == Created(Awards([Event(false)], [Round(0, 10, 20, 1, Final)], [], []), Ok(0), Some(0))
  {
    CreateOutcome(a, f, 0);
    assert [] + [Event(false)] == [Event(false)];
    assert [] + [FinalRoundOf(0, f)] + [] == [Round(0, 10, 20, 1, Final)];
  }

  /** With nominations the nomination round is stored second and is the one populated first. */
  lemma CreateWithNominations(a: Awards, f: EventForm)
    requires a == Awards([], [], [], []) && f == EventForm(true, 30, 40, 10, 20, 3)
    ensures CreateSpec(a, f, 0)
      == Created(Awards([Event(true)], [Round(0, 30, 40, 1, Final), Round(0, 10, 20, 3, Nomination)], [], []), Ok(0), Some(1))
  {
    CreateOutcome(a, f, 0);
    assert FinalRoundFits(a, f, 0) && NominationRoundFits(a, f, 0);
    assert [] + [Event(true)] == [Event(true)];
    assert [] + [FinalRoundOf(0, f)] + [NominationRoundOf(0, f)] == [Round(0, 30, 40, 1, Final), Round(0, 10, 20, 3, Nomination)];
  }

  /** A nomination round with a single winner is refused, and the event and final round are rolled back too. */
  lemma CreateRollsBack()
    ensures CreateSpec(Awards([], [], [], []), EventForm(true, 30, 40, 10, 20, 1), 0)
      == Created(Awards([], [], [], []), Err([NominationNeedsTwoWinners]), None)
  {
    var a := Awards([], [], [], []);
    var f := EventForm(true, 30, 40, 10, 20, 1);
    var a1 := Apply(a, SaveEventOp(None, Event(true)));
    assert a1 == Awards([Event(true)], [], [], []);
    assert RoundSaveErrors(a1, None, FinalRoundOf(0, f), 0) == [];
    var a2 := Awards([Event(true)], [Round(0, 30, 40, 1, Final)], [], []);
    assert Apply(a1, SaveRoundOp(None, FinalRoundOf(0, f), 0)) == a2;
    assert !StartTaken(a2.rounds, None, 10) && !EndTaken(a2.rounds, None, 20);
    var nom := Round(0, 10, 20, 1, Nomination);
    assert !TypeTaken(a2.rounds, None, nom);
    assert RoundFieldErrors(a2, nom) == [];
    assert RoundCleanError(nom, 0) == Some(NominationNeedsTwoWinners);
    assert RoundUniqueErrors(a2, None, nom) == [];
    assert RoundSaveErrors(a2, None, NominationRoundOf(0, f), 0) == [NominationNeedsTwoWinners];
  }

  // ------------------------------------------------------------- update

  /** `VotingRound.objects.filter(round_type=t, id=id).first()` */
  function FindRound(a: Awards, id: Option<nat>, t: RoundType): (r: Option<nat>)
    ensures r.Some? <==> id.Some? && id.value < |a.rounds| && a.rounds[id.value].roundType == t
    ensures r.Some? ==> r == id
  {
    if id.Some? && id.value < |a.rounds| && a.rounds[id.value].roundType == t then id else None
  }

  /** The tables after the update helper and what it returns (the event's pk, or None when no such event). */
  datatype Updated = Updated(tables: Awards, result: Result<Option<nat>>)

  /**
   * update_event_voting_db_helper: new dates for the final round, then (with
   * nominations) new dates and winners for the nomination round, all or
   * nothing. A round that is not found is an AttributeError on None.
   */
  function UpdateSpec(a: Awards, f: EventForm, eventId: nat, nominationId: Option<nat>, finalId: nat,
                      withNominations: bool, now: int): (u: Updated)
    ensures u.result.Err? ==> u.tables == a
    ensures u.tables.events == a.events && u.tables.competitions == a.competitions && u.tables.votes == a.votes
    ensures |u.tables.rounds| == |a.rounds|
    ensures u.result.Ok? ==> u.result.value == (if eventId < |a.events| then Some(eventId) else None)
  {
    var found := Ok(if eventId < |a.events| then Some(eventId) else None);
    match FindRound(a, Some(finalId), Final)
    case None => Updated(a, Err([AttributeMissing]))
    case Some(k) =>
      var fr := a.rounds[k].(plannedStart := f.lStart, plannedEnd := f.lEnd);
      var finalErrs := RoundSaveErrors(a, Some(k), fr, now);
      if finalErrs != [] then Updated(a, Err(finalErrs))
      else
        var a1 := Apply(a, SaveRoundOp(Some(k), fr, now));
        if !withNominations then Updated(a1, found)
        else match FindRound(a1, nominationId, Nomination)
          case None => Updated(a, Err([AttributeMissing]))
          case Some(m) =>
            var nr := a1.rounds[m].(plannedStart := f.fStart, plannedEnd := f.fEnd, maxTeachersForEnd := f.fCount);
            var nominationErrs := RoundSaveErrors(a1, Some(m), nr, now);
            if nominationErrs != [] then Updated(a, Err(nominationErrs))
            else Updated(Apply(a1, SaveRoundOp(Some(m), nr, now)), found)
  }

  /**
   * The update only reschedules: the events, competitions and votes stay as
   * they were, every round keeps its event and type, rounds other than the
   * two named keep everything, and on success the final carries the form's
   * dates and the nomination round the form's dates and winners. On failure
   * nothing changed.
   */
  lemma UpdateOnlyReschedules(a: Awards, f: EventForm, eventId: nat, nominationId: Option<nat>, finalId: nat,
                              withNominations: bool, now: int)
    ensures var u := UpdateSpec(a, f, eventId, nominationId, finalId, withNominations, now);
      && u.tables.events == a.events && u.tables.competitions == a.competitions && u.tables.votes == a.votes
      && |u.tables.rounds| == |a.rounds|
      && (forall i :: 0 <= i < |a.rounds| ==>
            u.tables.rounds[i].event == a.rounds[i].event && u.tables.rounds[i].roundType == a.rounds[i].roundType)
      && (forall i :: 0 <= i < |a.rounds| && i != finalId && Some(i) != nominationId ==> u.tables.rounds[i] == a.rounds[i])
    ensures var u := UpdateSpec(a, f, eventId, nominationId, finalId, withNominations, now);
      u.result.Err? ==> u.tables == a
    ensures var u := UpdateSpec(a, f, eventId, nominationId, finalId, withNominations, now);
      u.result.Ok? ==>
        && u.result.value == (if eventId < |a.events| then Some(eventId) else None)
        && finalId < |a.rounds| && a.rounds[finalId].roundType == Final
        && u.tables.rounds[finalId].plannedStart == f.lStart && u.tables.rounds[finalId].plannedEnd == f.lEnd
        && u.tables.rounds[finalId].maxTeachersForEnd == a.rounds[finalId].maxTeachersForEnd
        && (withNominations ==>
              && nominationId.Some? && nominationId.value < |a.rounds|
              && a.rounds[nominationId.value].roundType == Nomination
              && u.tables.rounds[nominationId.value].plannedStart == f.fStart
              && u.tables.rounds[nominationId.value].plannedEnd == f.fEnd
              && u.tables.rounds[nominationId.value].maxTeachersForEnd == f.fCount)
  {
    if FindRound(a, Some(finalId), Final).Some? {
      var fr := a.rounds[finalId].(plannedStart := f.lStart, plannedEnd := f.lEnd);
      if RoundSaveErrors(a, Some(finalId), fr, now) == [] {
        var a1 := Apply(a, SaveRoundOp(Some(finalId), fr, now));
        assert a1 == a.(rounds := a.rounds[finalId := fr]);
        var m := FindRound(a1, nominationId, Nomination);
        if withNominations && m.Some? {
          var nr := a1.rounds[m.value].(plannedStart := f.fStart, plannedEnd := f.fEnd, maxTeachersForEnd := f.fCount);
          if RoundSaveErrors(a1, m, nr, now) == [] {
            assert Apply(a1, SaveRoundOp(m, nr, now)) == a1.(rounds := a1.rounds[m.value := nr]);
          }
        }
      }
    }
  }

  /** The helper, on the store. */
  method UpdateEventVoting(s: AwardsStore, f: EventForm, eventId: nat, nominationId: Option<nat>, finalId: nat,
                           withNominations: bool, now: int) returns (r: Result<Option<nat>>)
    requires s.Valid()
    modifies s
    ensures s.Valid()
    ensures Updated(s.Snapshot(), r) == UpdateSpec(old(s.Snapshot()), f, eventId, nominationId, finalId, withNominations, now)
  {
    var saved := s.Snapshot();
    var found := if eventId < |s.events| then Some(eventId) else None;
    var k := FindRound(s.Snapshot(), Some(finalId), Final);
    if k.None? {
      return Err([AttributeMissing]);
    }
    var fr := s.rounds[k.value].(plannedStart := f.lStart, plannedEnd := f.lEnd);
    var finalSaved := s.SaveRound(k, fr, now);
    if finalSaved.Err? {
      return Err(finalSaved.codes);
    }
    if !withNominations {
      return Ok(found);
    }
    var m := FindRound(s.Snapshot(), nominationId, Nomination);
    if m.None? {
      s.Restore(saved);
      return Err([AttributeMissing]);
    }
    var nr := s.rounds[m.value].(plannedStart := f.fStart, plannedEnd := f.fEnd, maxTeachersForEnd := f.fCount);
    var nominationSaved := s.SaveRound(m, nr, now);
    if nominationSaved.Err? {
      s.Restore(saved);
      return Err(nominationSaved.codes);
    }
    return Ok(found);
  }

  // ------------------------------------------------------------ listing

  /** The round column a listing subquery orders by. */
  datatype Column = PlannedStart | PlannedEnd

  function ValueOf(r: Round, c: Column): int {
    match c
    case PlannedStart => r.plannedStart
    case PlannedEnd => r.plannedEnd
  }

  /** `x` comes no later than `y` in the subquery's order (descending when `desc`). */
  predicate NoLater(x: int, y: int, desc: bool) {
    if desc then x >= y else x <= y
  }

  /**
   * `VotingRound.objects.filter(voting_event=ev).order_by(c or -c)[:1]`: a
   * round of the event that comes first in that order, None when the event
   * has no round.
   */
  function FirstBy(rounds: seq<Round>, ev: nat, c: Column, desc: bool): (r: Option<nat>)
    ensures r.None? <==> forall i :: 0 <= i < |rounds| ==> rounds[i].event != ev
    ensures r.Some? ==> r.value < |rounds| && rounds[r.value].event == ev
    ensures r.Some? ==> forall i :: 0 <= i < |rounds| && rounds[i].event == ev ==>
      NoLater(ValueOf(rounds[r.value], c), ValueOf(rounds[i], c), desc)
  {
    if rounds == [] then None
    else
      var n := |rounds| - 1;
      var best := FirstBy(rounds[..n], ev, c, desc);
      assert forall i :: 0 <= i < n ==> rounds[i] == rounds[..n][i];
      if rounds[n].event != ev then best
      else if best.Some? && NoLater(ValueOf(rounds[best.value], c), ValueOf(rounds[n], c), desc) then best
      else Some(n)
  }

  /** The subquery picks a single round: with unique starts and ends, the first round in the order is determined. */
  lemma FirstByDetermined(rounds: seq<Round>, ev: nat, c: Column, desc: bool, i: nat)
    requires RoundsUnique(rounds)
    requires i < |rounds| && rounds[i].event == ev
    requires forall j :: 0 <= j < |rounds| && rounds[j].event == ev ==> NoLater(ValueOf(rounds[i], c), ValueOf(rounds[j], c), desc)
    ensures FirstBy(rounds, ev, c, desc) == Some(i)
  {
    var p := FirstBy(rounds, ev, c, desc).value;
    assert ValueOf(rounds[p], c) == ValueOf(rounds[i], c);
  }

  function ColumnOf(rounds: seq<Round>, i: Option<nat>, c: Column): Option<int>
    requires i.Some? ==> i.value < |rounds|
  {
    if i.Some? then Some(ValueOf(rounds[i.value], c)) else None
  }

  /** The annotations partial_list_voting_events_db_helper adds to one event. */
  datatype ListingRow = ListingRow(
    firstRoundStart: Option<int>,
    firstRoundEnd: Option<int>,
    lastRoundStart: Option<int>,
    lastRoundEnd: Option<int>,
    teachersPerEnd: Option<int>)

  /**
   * `v` is the value of column `c` of some round of `ev`, and no round of
   * `ev` comes before it in the order (the greatest when `desc`, else the
   * least).
   */
  predicate Extreme(rounds: seq<Round>, ev: nat, c: Column, desc: bool, v: int) {
    && (exists i :: 0 <= i < |rounds| && rounds[i].event == ev && ValueOf(rounds[i], c) == v)
    && (forall i :: 0 <= i < |rounds| && rounds[i].event == ev ==> NoLater(v, ValueOf(rounds[i], c), desc))
  }

  /**
   * The first round's dates (only for events with nominations; NULL
   * otherwise), the latest start and latest end, and the winners of the
   * round that starts first.
   */
  function Annotate(a: Awards, ev: nat): (row: ListingRow)
    requires ev < |a.events|
    ensures row.lastRoundStart.None? <==> forall i :: 0 <= i < |a.rounds| ==> a.rounds[i].event != ev
    ensures row.lastRoundEnd.Some? <==> row.lastRoundStart.Some?
    ensures row.firstRoundStart.Some? <==> a.events[ev].withNominations && row.lastRoundStart.Some?
    ensures row.firstRoundEnd.Some? <==> row.firstRoundStart.Some?
    ensures row.firstRoundStart.Some? && row.lastRoundStart.Some? ==> row.firstRoundStart.value <= row.lastRoundStart.value
    ensures row.teachersPerEnd.Some? <==> row.lastRoundStart.Some?
    ensures row.lastRoundStart.Some? ==> Extreme(a.rounds, ev, PlannedStart, true, row.lastRoundStart.value)
    ensures row.lastRoundEnd.Some? ==> Extreme(a.rounds, ev, PlannedEnd, true, row.lastRoundEnd.value)
    ensures row.firstRoundStart.Some? ==> Extreme(a.rounds, ev, PlannedStart, false, row.firstRoundStart.value)
    ensures row.firstRoundEnd.Some? ==> Extreme(a.rounds, ev, PlannedEnd, false, row.firstRoundEnd.value)
    ensures row.teachersPerEnd.Some? ==>
      exists i :: && 0 <= i < |a.rounds| && a.rounds[i].event == ev
                  && Extreme(a.rounds, ev, PlannedStart, false, a.rounds[i].plannedStart)
                  && a.rounds[i].maxTeachersForEnd == row.teachersPerEnd.value
  {
    var w := a.events[ev].withNominations;
    var earliest := FirstBy(a.rounds, ev, PlannedStart, false);
    ListingRow(
      if w then ColumnOf(a.rounds, earliest, PlannedStart) else None,
      if w then ColumnOf(a.rounds, FirstBy(a.rounds, ev, PlannedEnd, false), PlannedEnd) else None,
      ColumnOf(a.rounds, FirstBy(a.rounds, ev, PlannedStart, true), PlannedStart),
      ColumnOf(a.rounds, FirstBy(a.rounds, ev, PlannedEnd, true), PlannedEnd),
      if earliest.Some? then Some(a.rounds[earliest.value].maxTeachersForEnd) else None)
  }

  /** FirstBy on a table whose only rounds of `ev` are the last one or two. */
  lemma FirstByOfNew(old_: seq<Round>, added: seq<Round>, ev: nat, c: Column, desc: bool)
    requires forall i :: 0 <= i < |old_| ==> old_[i].event != ev
    requires 1 <= |added| <= 2 && forall i :: 0 <= i < |added| ==> added[i].event == ev
    ensures var r := FirstBy(old_ + added, ev, c, desc);
      r.Some? && |old_| <= r.value
      && (|added| == 1 ==> r.value == |old_|)
      && (|added| == 2 ==> r.value == (if NoLater(ValueOf(added[0], c), ValueOf(added[1], c), desc) then |old_| else |old_| + 1))
  {
    var rs := old_ + added;
    var n := |old_|;
    assert (old_ + added[..1])[..n] == old_;
    assert FirstBy(old_ + added[..1], ev, c, desc) == Some(n);
    if |added| == 2 {
      assert rs[..n + 1] == old_ + added[..1];
    } else {
      assert rs == old_ + added[..1];
    }
  }

  /**
   * How a freshly created event shows in the listing: with nominations, the
   * nomination round's dates as the first round, the final's as the last,
   * and the nomination round's winners (given the nomination round comes
   * first); without nominations, no first-round dates and a single winner.
   */
  lemma ListingOfCreated(a: Awards, f: EventForm, now: int)
    requires RefsOk(a)
    requires CreateSpec(a, f, now).result.Ok?
    requires f.withNominations ==> f.fEnd < f.lStart
    ensures Annotate(CreateSpec(a, f, now).tables, |a.events|) ==
      if f.withNominations then ListingRow(Some(f.fStart), Some(f.fEnd), Some(f.lStart), Some(f.lEnd), Some(f.fCount))
      else ListingRow(None, None, Some(f.lStart), Some(f.lEnd), Some(1))
  {
    CreateOutcome(a, f, now);
    var ev := |a.events|;
    var t := CreateSpec(a, f, now).tables;
    assert t.events[ev] == Event(f.withNominations);
    if f.withNominations {
      var added := [FinalRoundOf(ev, f), NominationRoundOf(ev, f)];
      assert t.rounds == a.rounds + added;
      FirstByOfNew(a.rounds, added, ev, PlannedStart, false);
      FirstByOfNew(a.rounds, added, ev, PlannedEnd, false);
      FirstByOfNew(a.rounds, added, ev, PlannedStart, true);
      FirstByOfNew(a.rounds, added, ev, PlannedEnd, true);
    } else {
      var added := [FinalRoundOf(ev, f)];
      assert t.rounds == a.rounds + added;
      FirstByOfNew(a.rounds, added, ev, PlannedStart, false);
      FirstByOfNew(a.rounds, added, ev, PlannedEnd, true);
      FirstByOfNew(a.rounds, added, ev, PlannedStart, true);
    }
  }
}
