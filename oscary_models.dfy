/**
 * The teacher awards (oscary): voting events, their nomination and final
 * rounds, competitions (a teacher standing for an oscar in a round; the
 * views call them candidatures) and votes.
 *
 * Tables are sequences and a row's pk is its index. VotingRound.save and
 * Vote.save run full_clean (field validators, clean(), unique fields, unique
 * constraints); Competition.save does not, so its unique constraint is
 * enforced by the database alone. A failed save changes nothing.
 *
 * The file is mid-refactor and two of its clean() methods name attributes
 * that do not exist; those are modelled twice, as written (the save crashes)
 * and as evidently intended (the rule the code spells out).
 */
module OscaryModels {
  import opened Validation
  import opened Schedule

  /** VotingRound.VotingRoundType: NOMINATION = 'N', FINAL = 'F'. */
  datatype RoundType = Nomination | Final
  {
    function Value(): string {
      match this
      case Nomination => "N"
      case Final => "F"
    }
  }

  datatype Event = Event(withNominations: bool)

  datatype Round = Round(event: nat, plannedStart: int, plannedEnd: int, maxTeachersForEnd: int, roundType: RoundType)

  /** `VotingRound(voting_event=event, planned_start=start, planned_end=end)` with the field defaults. */
  function NewRound(event: nat, start: int, end: int): (r: Round)
    ensures r.event == event && r.plannedStart == start && r.plannedEnd == end
    ensures r.maxTeachersForEnd == 1 && r.roundType == Final
  {
    Round(event, start, end, 1, Final)
  }

  datatype Competition = Competition(oscar: nat, teacher: nat, round: nat)

  datatype OscarVote = OscarVote(competition: nat, user: nat)

  datatype Awards = Awards(events: seq<Event>, rounds: seq<Round>, competitions: seq<Competition>, votes: seq<OscarVote>)

  // ------------------------------------------------------------ VotingEvent

  /**
   * VotingEvent.save as written: clean() reads `planned_start`, a field the
   * event does not have, so the save raises AttributeError whatever the event.
   */
  function EventSaveErrorsAsWritten(e: Event, now: int): (errs: seq<ErrorCode>)
    ensures errs != [] && errs[0] == AttributeMissing
  {
    [AttributeMissing]
  }

  /**
   * VotingEvent.save as intended: the event carries no schedule of its own
   * (its rounds do), and `with_nominations` is a boolean with nothing to
   * validate, so only a pk naming no row is refused.
   */
  function EventSaveErrors(a: Awards, pk: Option<nat>, e: Event): (errs: seq<ErrorCode>)
    ensures errs == [] <==> (pk.Some? ==> pk.value < |a.events|)
  {
    if pk.Some? && pk.value >= |a.events| then [RelatedObjectDoesNotExist] else []
  }

  // ------------------------------------------------------------ VotingRound

  /** Field validators: the event must exist; max_tearchers_for_end in 1..32767. */
  function RoundFieldErrors(a: Awards, r: Round): (errs: seq<ErrorCode>)
    ensures errs == [] <==> r.event < |a.events| && 1 <= r.maxTeachersForEnd <= SmallIntMax
  {
    (if r.event >= |a.events| then [Invalid] else [])
    + (if r.maxTeachersForEnd < 1 then [MinValue] else if r.maxTeachersForEnd > SmallIntMax then [MaxValue] else [])
  }

  /** The schedule half of VotingRound.clean, which runs before the attribute error. */
  function RoundWindowError(r: Round, now: int): (e: Option<ErrorCode>)
    ensures e == None <==> now < r.plannedStart < r.plannedEnd
  {
    match CreationFault(r.plannedStart, r.plannedEnd, now)
    case None => None
    case Some(StartNotInFuture) => Some(RoundStartNotInFuture)
    case Some(EndNotAfterStart) => Some(RoundStartNotBeforeEnd)
  }

  /** The winners rule as intended: a nomination needs at least two winners, a final exactly one. */
  predicate WinnersOk(r: Round) {
    match r.roundType
    case Nomination => r.maxTeachersForEnd >= 2
    case Final => r.maxTeachersForEnd == 1
  }

  /** VotingRound.clean as intended, reading `VotingRoundType` and `max_tearchers_for_end`. */
  function RoundCleanError(r: Round, now: int): (e: Option<ErrorCode>)
    ensures e == None <==> now < r.plannedStart < r.plannedEnd && WinnersOk(r)
    ensures RoundWindowError(r, now).Some? ==> e == RoundWindowError(r, now)
  {
    if RoundWindowError(r, now).Some? then RoundWindowError(r, now)
    else if r.roundType == Nomination && r.maxTeachersForEnd < 2 then Some(NominationNeedsTwoWinners)
    else if r.roundType == Final && r.maxTeachersForEnd != 1 then Some(FinalNeedsOneWinner)
    else None
  }

  /** `planned_start` is a unique field: another round already starts at `start`. */
  predicate StartTaken(rounds: seq<Round>, pk: Option<nat>, start: int) {
    exists i :: 0 <= i < |rounds| && Some(i) != pk && rounds[i].plannedStart == start
  }

  /** `planned_end` is a unique field: another round already ends at `end`. */
  predicate EndTaken(rounds: seq<Round>, pk: Option<nat>, end: int) {
    exists i :: 0 <= i < |rounds| && Some(i) != pk && rounds[i].plannedEnd == end
  }

  /** The unique_round_type_per_event constraint. */
  predicate TypeTaken(rounds: seq<Round>, pk: Option<nat>, r: Round) {
    exists i :: 0 <= i < |rounds| && Some(i) != pk && rounds[i].event == r.event && rounds[i].roundType == r.roundType
  }

  /** The unique-field and constraint checks of full_clean; the constraint is skipped when the event failed. */
  function RoundUniqueErrors(a: Awards, pk: Option<nat>, r: Round): (errs: seq<ErrorCode>)
    ensures errs == [] <==>
      !StartTaken(a.rounds, pk, r.plannedStart) && !EndTaken(a.rounds, pk, r.plannedEnd) &&
      (r.event < |a.events| ==> !TypeTaken(a.rounds, pk, r))
  {
    (if StartTaken(a.rounds, pk, r.plannedStart) then [Unique] else [])
    + (if EndTaken(a.rounds, pk, r.plannedEnd) then [Unique] else [])
    + (if r.event < |a.events| && TypeTaken(a.rounds, pk, r) then [UniqueRoundTypePerEvent] else [])
  }

  /** VotingRound.save as intended: full_clean with the winners rule as the code spells it out. */
  function RoundSaveErrors(a: Awards, pk: Option<nat>, r: Round, now: int): (errs: seq<ErrorCode>)
    ensures errs == [] <==>
      (pk.Some? ==> pk.value < |a.rounds|) &&
      r.event < |a.events| && 1 <= r.maxTeachersForEnd <= SmallIntMax &&
      now < r.plannedStart < r.plannedEnd && WinnersOk(r) &&
      !StartTaken(a.rounds, pk, r.plannedStart) && !EndTaken(a.rounds, pk, r.plannedEnd) && !TypeTaken(a.rounds, pk, r)
  {
    if pk.Some? && pk.value >= |a.rounds| then [RelatedObjectDoesNotExist]
    else
      RoundFieldErrors(a, r)
      + (match RoundCleanError(r, now) case None => [] case Some(e) => [e])
      + RoundUniqueErrors(a, pk, r)
  }

  /**
   * VotingRound.save as written: clean() reaches `self.RoundType` once the
   * schedule checks pass, and that AttributeError escapes full_clean, so the
   * only saves that end in a ValidationError are those with a bad schedule.
   */
  function RoundSaveErrorsAsWritten(a: Awards, pk: Option<nat>, r: Round, now: int): (errs: seq<ErrorCode>)
    ensures RoundWindowError(r, now).None? ==> errs == [AttributeMissing]
    ensures RoundWindowError(r, now).Some? ==> RoundWindowError(r, now).value in errs
  {
    if RoundWindowError(r, now).None? then [AttributeMissing]
    else
      (if pk.Some? && pk.value >= |a.rounds| then [RelatedObjectDoesNotExist] else [])
      + RoundFieldErrors(a, r) + [RoundWindowError(r, now).value] + RoundUniqueErrors(a, pk, r)
  }

  /** As written no round can ever be stored: every save ends in an error. */
  lemma NoRoundSavesAsWritten(a: Awards, pk: Option<nat>, r: Round, now: int)
    ensures RoundSaveErrorsAsWritten(a, pk, r, now) != []
  {
  }

  /**
   * A default FINAL round in a fresh event, scheduled in the future: refused
   * by the code as written, accepted by the intended rule.
   */
  lemma DefaultFinalRoundAsWritten()
    ensures RoundSaveErrorsAsWritten(Awards([Event(false)], [], [], []), None, NewRound(0, 10, 20), 0) == [AttributeMissing]
    ensures RoundSaveErrors(Awards([Event(false)], [], [], []), None, NewRound(0, 10, 20), 0) == []
  {
  }

  /** The defaults satisfy the winners rule: a default round is a final with one winner. */
  lemma DefaultsSatisfyWinnersRule(event: nat, start: int, end: int)
    ensures WinnersOk(NewRound(event, start, end))
    ensures RoundSaveErrors(Awards([Event(false)], [], [], []), None, NewRound(0, start, end), 0) == [] <==> 0 < start < end
  {
  }

  // ------------------------------------------------------------ Competition

  /** The unique_comp_per_teacher_per_oscar_per_round constraint, ignoring the row itself. */
  predicate CompetitionTaken(comps: seq<Competition>, pk: Option<nat>, c: Competition) {
    exists i :: 0 <= i < |comps| && Some(i) != pk &&
      comps[i].teacher == c.teacher && comps[i].oscar == c.oscar && comps[i].round == c.round
  }

  /** Competition.save: no full_clean; the database refuses a missing round or a duplicate. */
  function CompetitionSaveErrors(a: Awards, pk: Option<nat>, c: Competition): (errs: seq<ErrorCode>)
    ensures errs == [] <==>
      (pk.Some? ==> pk.value < |a.competitions|) && c.round < |a.rounds| && !CompetitionTaken(a.competitions, pk, c)
    ensures (pk.Some? ==> pk.value < |a.competitions|) && c.round < |a.rounds| && CompetitionTaken(a.competitions, pk, c) ==>
      errs == [UniqueCompetition]
  {
    if pk.Some? && pk.value >= |a.competitions| then [RelatedObjectDoesNotExist]
    else if c.round >= |a.rounds| then [RelatedObjectDoesNotExist]
    else if CompetitionTaken(a.competitions, pk, c) then [UniqueCompetition]
    else []
  }

  // ------------------------------------------------------------------ Vote

  /** Vote.clean's query: another vote of `user` for the same oscar in the same round. */
  predicate OscarRoundTaken(a: Awards, pk: Option<nat>, competition: nat, user: nat)
    requires competition < |a.competitions|
  {
    exists i :: 0 <= i < |a.votes| && Some(i) != pk && a.votes[i].user == user &&
      a.votes[i].competition < |a.competitions| &&
      a.competitions[a.votes[i].competition].oscar == a.competitions[competition].oscar &&
      a.competitions[a.votes[i].competition].round == a.competitions[competition].round
  }

  /** The unique_vote_per_competition constraint. */
  predicate CompetitionVoteTaken(votes: seq<OscarVote>, pk: Option<nat>, competition: nat, user: nat) {
    exists i :: 0 <= i < |votes| && Some(i) != pk && votes[i].user == user && votes[i].competition == competition
  }

  /**
   * Vote.save: full_clean (clean(), then the constraint), and then a vote
   * that already has a pk is refused, so a stored vote is never edited. A
   * competition that names no row makes clean() raise before any check.
   */
  function OscarVoteErrors(a: Awards, pk: Option<nat>, competition: nat, user: nat): (errs: seq<ErrorCode>)
    ensures errs == [] <==>
      pk.None? && competition < |a.competitions| &&
      !OscarRoundTaken(a, pk, competition, user) && !CompetitionVoteTaken(a.votes, pk, competition, user)
    ensures pk.Some? ==> errs != []
  {
    if competition >= |a.competitions| then [RelatedObjectDoesNotExist]
    else
      var cleaned :=
        (if OscarRoundTaken(a, pk, competition, user) then [OneVotePerOscarPerRound] else [])
        + (if CompetitionVoteTaken(a.votes, pk, competition, user) then [UniqueVotePerCompetition] else []);
      if cleaned != [] then cleaned
      else if pk.Some? then [OscarVoteEditForbidden]
      else []
  }

  /**
   * Vote.save reads no schedule and no eligibility flag: the verdict on a vote
   * is the same whatever the events and rounds hold, so a vote is judged
   * alike before, inside and after its round's window.
   */
  lemma VoteIgnoresSchedule(a: Awards, events: seq<Event>, rounds: seq<Round>, pk: Option<nat>, competition: nat, user: nat)
    ensures OscarVoteErrors(a.(events := events, rounds := rounds), pk, competition, user) == OscarVoteErrors(a, pk, competition, user)
  {
  }

  /** A second vote for the same competition is always caught by clean() too. */
  lemma SameCompetitionIsSameOscarRound(a: Awards, pk: Option<nat>, competition: nat, user: nat)
    requires competition < |a.competitions|
    requires CompetitionVoteTaken(a.votes, pk, competition, user)
    ensures OneVotePerOscarPerRound in OscarVoteErrors(a, pk, competition, user)
  {
    var i :| 0 <= i < |a.votes| && Some(i) != pk && a.votes[i].user == user && a.votes[i].competition == competition;
    assert OscarRoundTaken(a, pk, competition, user);
  }

  // ------------------------------------------------------ the store's rules

  datatype Op =
    | SaveEventOp(eventPk: Option<nat>, event: Event)
    | SaveRoundOp(roundPk: Option<nat>, round: Round, now: int)
    | SaveCompetitionOp(competitionPk: Option<nat>, competition: Competition)
    | SaveOscarVoteOp(votePk: Option<nat>, voteCompetition: nat, user: nat)

  function OpErrors(a: Awards, op: Op): seq<ErrorCode> {
    match op
    case SaveEventOp(pk, e) => EventSaveErrors(a, pk, e)
    case SaveRoundOp(pk, r, now) => RoundSaveErrors(a, pk, r, now)
    case SaveCompetitionOp(pk, c) => CompetitionSaveErrors(a, pk, c)
    case SaveOscarVoteOp(pk, c, user) => OscarVoteErrors(a, pk, c, user)
  }

  /**
   * The tables after a save: a failed save changes nothing, a save writes
   * only its own table, no row is ever removed and stored votes are never
   * rewritten.
   */
  function Apply(a: Awards, op: Op): (r: Awards)
    ensures OpErrors(a, op) != [] ==> r == a
    ensures !op.SaveEventOp? ==> r.events == a.events
    ensures !op.SaveRoundOp? ==> r.rounds == a.rounds
    ensures !op.SaveCompetitionOp? ==> r.competitions == a.competitions
    ensures !op.SaveOscarVoteOp? ==> r.votes == a.votes
    ensures |a.events| <= |r.events| <= |a.events| + 1
    ensures |a.rounds| <= |r.rounds| <= |a.rounds| + 1
    ensures |a.competitions| <= |r.competitions| <= |a.competitions| + 1
    ensures |a.votes| <= |r.votes| <= |a.votes| + 1 && r.votes[..|a.votes|] == a.votes
  {
    if OpErrors(a, op) != [] then a
    else
      match op
      case SaveEventOp(pk, e) =>
        (if pk.None? then a.(events := a.events + [e]) else a.(events := a.events[pk.value := e]))
      case SaveRoundOp(pk, r, now) =>
        (if pk.None? then a.(rounds := a.rounds + [r]) else a.(rounds := a.rounds[pk.value := r]))
      case SaveCompetitionOp(pk, c) =>
        (if pk.None? then a.(competitions := a.competitions + [c]) else a.(competitions := a.competitions[pk.value := c]))
      case SaveOscarVoteOp(pk, c, user) =>
        a.(votes := a.votes + [OscarVote(c, user)])
  }

  /**
   * What a save returns: the collected error codes, or the pk of the row
   * that now holds the saved values.
   */
  function Outcome(a: Awards, op: Op): (r: Result<nat>)
    ensures r.Ok? <==> OpErrors(a, op) == []
    ensures r.Err? ==> r.codes == OpErrors(a, op)
    ensures r.Ok? && op.SaveEventOp? ==>
      r.value < |Apply(a, op).events| && Apply(a, op).events[r.value] == op.event
    ensures r.Ok? && op.SaveRoundOp? ==>
      r.value < |Apply(a, op).rounds| && Apply(a, op).rounds[r.value] == op.round
    ensures r.Ok? && op.SaveCompetitionOp? ==>
      r.value < |Apply(a, op).competitions| && Apply(a, op).competitions[r.value] == op.competition
    ensures r.Ok? && op.SaveOscarVoteOp? ==>
      r.value == |a.votes| && Apply(a, op).votes == a.votes + [OscarVote(op.voteCompetition, op.user)]
  {
    var errs := OpErrors(a, op);
    if errs != [] then Err(errs)
    else
      match op
      case SaveEventOp(pk, e) => Ok(if pk.Some? then pk.value else |a.events|)
      case SaveRoundOp(pk, r, now) => Ok(if pk.Some? then pk.value else |a.rounds|)
      case SaveCompetitionOp(pk, c) => Ok(if pk.Some? then pk.value else |a.competitions|)
      case SaveOscarVoteOp(pk, c, user) => Ok(|a.votes|)
  }

  // ------------------------------------------------------ store invariant

  ghost predicate RefsOk(a: Awards) {
    && (forall i :: 0 <= i < |a.rounds| ==> a.rounds[i].event < |a.events|)
    && (forall i :: 0 <= i < |a.competitions| ==> a.competitions[i].round < |a.rounds|)
    && (forall i :: 0 <= i < |a.votes| ==> a.votes[i].competition < |a.competitions|)
  }

  /** Every stored round has a proper window and obeys the winners rule. */
  ghost predicate RoundsWellFormed(rounds: seq<Round>) {
    forall i :: 0 <= i < |rounds| ==>
      rounds[i].plannedStart < rounds[i].plannedEnd && WinnersOk(rounds[i]) &&
      1 <= rounds[i].maxTeachersForEnd <= SmallIntMax
  }

  /** At most one round of each type per event; starts and ends unique across all rounds. */
  ghost predicate RoundsUnique(rounds: seq<Round>) {
    forall i, j :: 0 <= i < j < |rounds| ==>
      && !(rounds[i].event == rounds[j].event && rounds[i].roundType == rounds[j].roundType)
      && rounds[i].plannedStart != rounds[j].plannedStart
      && rounds[i].plannedEnd != rounds[j].plannedEnd
  }

  ghost predicate CompetitionsUnique(comps: seq<Competition>) {
    forall i, j :: 0 <= i < j < |comps| ==>
      !(comps[i].teacher == comps[j].teacher && comps[i].oscar == comps[j].oscar && comps[i].round == comps[j].round)
  }

  /** No user holds two votes for the same oscar in the same round. */
  ghost predicate OneVotePerOscarRound(a: Awards)
    requires RefsOk(a)
  {
    forall i, j :: 0 <= i < j < |a.votes| && a.votes[i].user == a.votes[j].user ==>
      var ci := a.competitions[a.votes[i].competition];
      var cj := a.competitions[a.votes[j].competition];
      !(ci.oscar == cj.oscar && ci.round == cj.round)
  }

  /** No user holds two votes for the same competition. */
  ghost predicate OneVotePerCompetition(votes: seq<OscarVote>) {
    forall i, j :: 0 <= i < j < |votes| ==> !(votes[i].user == votes[j].user && votes[i].competition == votes[j].competition)
  }

  ghost predicate Inv(a: Awards) {
    && RefsOk(a)
    && RoundsWellFormed(a.rounds)
    && RoundsUnique(a.rounds)
    && CompetitionsUnique(a.competitions)
    && OneVotePerOscarRound(a)
  }

  /** The per-(oscar, round) rule is the stronger one: it implies the per-competition constraint. */
  lemma OscarRoundImpliesCompetition(a: Awards)
    requires RefsOk(a) && OneVotePerOscarRound(a)
    ensures OneVotePerCompetition(a.votes)
  {
    forall i, j | 0 <= i < j < |a.votes|
      ensures !(a.votes[i].user == a.votes[j].user && a.votes[i].competition == a.votes[j].competition)
    {
    }
  }

  lemma SaveEventKeepsInv(a: Awards, pk: Option<nat>, e: Event)
    requires Inv(a)
    ensures Inv(Apply(a, SaveEventOp(pk, e)))
  {
    var a' := Apply(a, SaveEventOp(pk, e));
    assert |a'.events| == |a.events|
        || |a'.events| == |a.events| + 1;
    assert a'.rounds == a.rounds && a'.competitions == a.competitions && a'.votes == a.votes;
  }

  lemma SaveRoundKeepsInv(a: Awards, pk: Option<nat>, r: Round, now: int)
    requires Inv(a)
    ensures Inv(Apply(a, SaveRoundOp(pk, r, now)))
  {
    var a' := Apply(a, SaveRoundOp(pk, r, now));
    if RoundSaveErrors(a, pk, r, now) == [] {
      var n := |a.rounds|;
      var k := if pk.Some? then pk.value else n;
      assert |a'.rounds| == (if pk.Some? then n else n + 1);
      assert a'.rounds[k] == r;
      assert forall i :: 0 <= i < |a'.rounds| && i != k ==> a'.rounds[i] == a.rounds[i];
      forall i, j | 0 <= i < j < |a'.rounds|
        ensures && !(a'.rounds[i].event == a'.rounds[j].event && a'.rounds[i].roundType == a'.rounds[j].roundType)
                && a'.rounds[i].plannedStart != a'.rounds[j].plannedStart
                && a'.rounds[i].plannedEnd != a'.rounds[j].plannedEnd
      {
        if i == k {
          assert Some(j) != pk;
        } else if j == k {
          assert Some(i) != pk;
        }
      }
    }
  }

  lemma SaveCompetitionInsertKeepsInv(a: Awards, c: Competition)
    requires Inv(a)
    ensures Inv(Apply(a, SaveCompetitionOp(None, c)))
  {
    var a' := Apply(a, SaveCompetitionOp(None, c));
    if CompetitionSaveErrors(a, None, c) == [] {
      forall i, j | 0 <= i < j < |a'.competitions|
        ensures !(a'.competitions[i].teacher == a'.competitions[j].teacher && a'.competitions[i].oscar == a'.competitions[j].oscar
                  && a'.competitions[i].round == a'.competitions[j].round)
      {
        if j == |a.competitions| {
          assert a'.competitions[i] == a.competitions[i];
        }
      }
      assert forall i :: 0 <= i < |a.competitions| ==> a'.competitions[i] == a.competitions[i];
    }
  }

  /** No stored vote points at competition `k`. */
  ghost predicate Unvoted(a: Awards, k: nat) {
    forall i :: 0 <= i < |a.votes| ==> a.votes[i].competition != k
  }

  /**
   * Editing a competition keeps the invariant when no vote points at it.
   * (Competition.save does not look at votes; see CompetitionEditMergesVotes.)
   */
  lemma SaveCompetitionUpdateKeepsInv(a: Awards, k: nat, c: Competition)
    requires Inv(a) && Unvoted(a, k)
    ensures Inv(Apply(a, SaveCompetitionOp(Some(k), c)))
  {
    var a' := Apply(a, SaveCompetitionOp(Some(k), c));
    if CompetitionSaveErrors(a, Some(k), c) == [] {
      assert forall i :: 0 <= i < |a.competitions| && i != k ==> a'.competitions[i] == a.competitions[i];
      forall i, j | 0 <= i < j < |a'.competitions|
        ensures !(a'.competitions[i].teacher == a'.competitions[j].teacher && a'.competitions[i].oscar == a'.competitions[j].oscar
                  && a'.competitions[i].round == a'.competitions[j].round)
      {
        if i == k {
          assert Some(j) != Some(k);
        } else if j == k {
          assert Some(i) != Some(k);
        }
      }
      assert forall i :: 0 <= i < |a.votes| ==> a'.competitions[a.votes[i].competition] == a.competitions[a.votes[i].competition];
    }
  }

  /** Two rounds of one event and two competitions for oscar 1, one in each; user 7 voted in both. */
  const MergeExample: Awards :=
    Awards([Event(true)], [Round(0, 10, 20, 2, Nomination), Round(0, 30, 40, 1, Final)],
           [Competition(1, 5, 0), Competition(1, 6, 1)], [OscarVote(0, 7), OscarVote(1, 7)])

  lemma MergeExampleInv(a: Awards)
    requires a == MergeExample
    ensures Inv(a)
  {
    assert RoundsUnique(a.rounds) by {
      forall i, j | 0 <= i < j < |a.rounds|
        ensures && !(a.rounds[i].event == a.rounds[j].event && a.rounds[i].roundType == a.rounds[j].roundType)
                && a.rounds[i].plannedStart != a.rounds[j].plannedStart
                && a.rounds[i].plannedEnd != a.rounds[j].plannedEnd
      {
        assert i == 0 && j == 1;
      }
    }
    assert OneVotePerOscarRound(a) by {
      forall i, j | 0 <= i < j < |a.votes| && a.votes[i].user == a.votes[j].user
        ensures !(a.competitions[a.votes[i].competition].oscar == a.competitions[a.votes[j].competition].oscar &&
                  a.competitions[a.votes[i].competition].round == a.competitions[a.votes[j].competition].round)
      {
        assert i == 0 && j == 1;
      }
    }
  }

  /**
   * Editing a competition that holds votes can merge two of a user's votes
   * into one (oscar, round): the user voted for oscar 1 in rounds 0 and 1,
   * and the second competition is moved into round 0.
   */
  lemma CompetitionEditMergesVotes(a: Awards)
    requires a == MergeExample
    ensures Inv(a)
    ensures CompetitionSaveErrors(a, Some(1), Competition(1, 6, 0)) == []
    ensures !OneVotePerOscarRound(Apply(a, SaveCompetitionOp(Some(1), Competition(1, 6, 0))))
  {
    MergeExampleInv(a);
    assert !CompetitionTaken(a.competitions, Some(1), Competition(1, 6, 0));
    var a' := Apply(a, SaveCompetitionOp(Some(1), Competition(1, 6, 0)));
    assert a'.competitions == [Competition(1, 5, 0), Competition(1, 6, 0)];
    assert a'.votes == a.votes && a'.rounds == a.rounds;
    assert RefsOk(a');
    assert a'.competitions[a'.votes[0].competition] == Competition(1, 5, 0);
    assert a'.competitions[a'.votes[1].competition] == Competition(1, 6, 0);
  }

  lemma SaveVoteKeepsInv(a: Awards, pk: Option<nat>, competition: nat, user: nat)
    requires Inv(a)
    ensures Inv(Apply(a, SaveOscarVoteOp(pk, competition, user)))
  {
    var a' := Apply(a, SaveOscarVoteOp(pk, competition, user));
    if OscarVoteErrors(a, pk, competition, user) == [] {
      var n := |a.votes|;
      forall i, j | 0 <= i < j < |a'.votes| && a'.votes[i].user == a'.votes[j].user
        ensures var ci := a'.competitions[a'.votes[i].competition];
          var cj := a'.competitions[a'.votes[j].competition];
          !(ci.oscar == cj.oscar && ci.round == cj.round)
      {
        if j == n {
          assert a'.votes[i] == a.votes[i];
          assert Some(i) != pk;
        } else {
          assert a'.votes[i] == a.votes[i] && a'.votes[j] == a.votes[j];
        }
      }
    }
  }

  /** Which saves keep the invariant: all of them except editing a competition that holds votes. */
  ghost predicate Covered(a: Awards, op: Op) {
    op.SaveCompetitionOp? && op.competitionPk.Some? ==> Unvoted(a, op.competitionPk.value)
  }

  lemma ApplyKeepsInv(a: Awards, op: Op)
    requires Inv(a) && Covered(a, op)
    ensures Inv(Apply(a, op))
  {
    match op
    case SaveEventOp(pk, e) => SaveEventKeepsInv(a, pk, e);
    case SaveRoundOp(pk, r, now) => SaveRoundKeepsInv(a, pk, r, now);
    case SaveCompetitionOp(pk, c) =>
      if pk.None? { SaveCompetitionInsertKeepsInv(a, c); } else { SaveCompetitionUpdateKeepsInv(a, pk.value, c); }
    case SaveOscarVoteOp(pk, c, user) => SaveVoteKeepsInv(a, pk, c, user);
  }

  // ------------------------------------------------- the store as an object

  /** The awards tables, updated in place by the models' save methods. */
  class AwardsStore {
    var events: seq<Event>
    var rounds: seq<Round>
    var competitions: seq<Competition>
    var votes: seq<OscarVote>

    function Snapshot(): Awards
      reads this
    {
      Awards(events, rounds, competitions, votes)
    }

    ghost predicate Valid()
      reads this
    {
      Inv(Snapshot())
    }

    constructor ()
      ensures Valid()
      ensures Snapshot() == Awards([], [], [], [])
    {
      events, rounds, competitions, votes := [], [], [], [];
    }

    /** Puts the tables back as they were (a transaction's rollback). */
    method Restore(a: Awards)
      modifies this
      ensures Snapshot() == a
    {
      events, rounds, competitions, votes := a.events, a.rounds, a.competitions, a.votes;
    }

    /** VotingEvent.save, with the intended (schedule-free) clean. */
    method SaveEvent(pk: Option<nat>, e: Event) returns (r: Result<nat>)
      requires Valid()
      modifies this
      ensures Valid()
      ensures Snapshot() == Apply(old(Snapshot()), SaveEventOp(pk, e))
      ensures r == Outcome(old(Snapshot()), SaveEventOp(pk, e))
    {
      ApplyKeepsInv(Snapshot(), SaveEventOp(pk, e));
      var errs := EventSaveErrors(Snapshot(), pk, e);
      if errs != [] {
        r := Err(errs);
      } else if pk.None? {
        r := Ok(|events|);
        events := events + [e];
      } else {
        r := Ok(pk.value);
        events := events[pk.value := e];
      }
    }

    /** VotingRound.save, with the intended clean. */
    method SaveRound(pk: Option<nat>, round: Round, now: int) returns (r: Result<nat>)
      requires Valid()
      modifies this
      ensures Valid()
      ensures Snapshot() == Apply(old(Snapshot()), SaveRoundOp(pk, round, now))
      ensures r == Outcome(old(Snapshot()), SaveRoundOp(pk, round, now))
    {
      ApplyKeepsInv(Snapshot(), SaveRoundOp(pk, round, now));
      var errs := RoundSaveErrors(Snapshot(), pk, round, now);
      if errs != [] {
        r := Err(errs);
      } else if pk.None? {
        r := Ok(|rounds|);
        rounds := rounds + [round];
      } else {
        r := Ok(pk.value);
        rounds := rounds[pk.value := round];
      }
    }

    /** Competition.save (the database's constraint only). */
    method SaveCompetition(pk: Option<nat>, c: Competition) returns (r: Result<nat>)
      requires Valid() && Covered(Snapshot(), SaveCompetitionOp(pk, c))
      modifies this
      ensures Valid()
      ensures Snapshot() == Apply(old(Snapshot()), SaveCompetitionOp(pk, c))
      ensures r == Outcome(old(Snapshot()), SaveCompetitionOp(pk, c))
    {
      ApplyKeepsInv(Snapshot(), SaveCompetitionOp(pk, c));
      var errs := CompetitionSaveErrors(Snapshot(), pk, c);
      if errs != [] {
        r := Err(errs);
      } else if pk.None? {
        r := Ok(|competitions|);
        competitions := competitions + [c];
      } else {
        r := Ok(pk.value);
        competitions := competitions[pk.value := c];
      }
    }

    /** Vote.save: full_clean, then a vote with a pk is refused; otherwise one row is appended. */
    method SaveVote(pk: Option<nat>, competition: nat, user: nat) returns (r: Result<nat>)
      requires Valid()
      modifies this
      ensures Valid()
      ensures Snapshot() == Apply(old(Snapshot()), SaveOscarVoteOp(pk, competition, user))
      ensures r == Outcome(old(Snapshot()), SaveOscarVoteOp(pk, competition, user))
      ensures pk.Some? ==> r.Err? && votes == old(votes)
    {
      ApplyKeepsInv(Snapshot(), SaveOscarVoteOp(pk, competition, user));
      var errs := OscarVoteErrors(Snapshot(), pk, competition, user);
      if errs != [] {
        r := Err(errs);
      } else {
        r := Ok(|votes|);
        votes := votes + [OscarVote(competition, user)];
      }
    }
  }
}
