/**
 * The student-council election (samorzad): votings, candidate registrations
 * and votes, with the rules their `clean()` methods enforce before `save()`
 * inserts or updates a row.
 *
 * Tables are sequences and a row's primary key is its index (the database id
 * is that index plus one, so every stored pk is truthy). Django's full_clean
 * collects the field validators' errors, then the error `clean()` raises, then
 * the unique-constraint errors; a save succeeds exactly when that list is
 * empty, and a failed save changes nothing.
 */
module SamorzadModels {
  import opened Validation
  import opened Schedule

  /** A voting may hold at most this many registrations. */
  const RegistrationCap: nat := 15

  datatype Voting = Voting(plannedStart: int, plannedEnd: int, votesPerUser: int)

  datatype Registration = Registration(candidate: nat, voting: nat, isEligible: bool)

  /** `createdAt` is set by the save (auto_now_add) to the instant of the save. */
  datatype Vote = Vote(registration: nat, user: nat, createdAt: int)

  datatype Tables = Tables(votings: seq<Voting>, registrations: seq<Registration>, votes: seq<Vote>)

  // ---------------------------------------------------------------- Voting

  /** votes_per_user: MinValueValidator(1) and the SmallIntegerField range. */
  function VotingFieldErrors(v: Voting): (errs: seq<ErrorCode>)
    ensures errs == [] <==> 1 <= v.votesPerUser <= SmallIntMax
    ensures MinValue in errs <==> v.votesPerUser < 1
  {
    if v.votesPerUser < 1 then [MinValue]
    else if v.votesPerUser > SmallIntMax then [MaxValue]
    else []
  }

  /** Voting.clean: the schedule must start after `now` and end after its start. */
  function VotingCleanErrors(v: Voting, now: int): (errs: seq<ErrorCode>)
    ensures errs == [] <==> now < v.plannedStart < v.plannedEnd
    ensures errs == [InvalidPlannedStartValue] <==> v.plannedStart <= now
    ensures errs == [InvalidPlannedEndValue] <==> now < v.plannedStart && v.plannedEnd <= v.plannedStart
  {
    match CreationFault(v.plannedStart, v.plannedEnd, now)
    case None => []
    case Some(StartNotInFuture) => [InvalidPlannedStartValue]
    case Some(EndNotAfterStart) => [InvalidPlannedEndValue]
  }

  /** Voting.save as written: full_clean on the values being saved. */
  function VotingErrors(v: Voting, now: int): (errs: seq<ErrorCode>)
    ensures errs == [] <==> now < v.plannedStart < v.plannedEnd && 1 <= v.votesPerUser <= SmallIntMax
    ensures InvalidPlannedStartValue in errs <==> v.plannedStart <= now
    ensures InvalidPlannedEndValue in errs <==> now < v.plannedStart && v.plannedEnd <= v.plannedStart
    ensures MinValue in errs <==> v.votesPerUser < 1
  {
    VotingFieldErrors(v) + VotingCleanErrors(v, now)
  }

  /**
   * Saving a voting, with the rule the source evidently intends: besides
   * full_clean on the new values, an existing voting whose STORED start has
   * passed is frozen. (As written, only the new start is checked; see
   * RescheduleBreaksQuotaAsWritten.) A pk that names no row is refused.
   */
  function VotingSaveErrors(t: Tables, pk: Option<nat>, v: Voting, now: int): (errs: seq<ErrorCode>)
    ensures errs == [] ==> VotingErrors(v, now) == []
    ensures errs == [] <==>
      VotingErrors(v, now) == [] &&
      (pk.Some? ==> pk.value < |t.votings| && now < t.votings[pk.value].plannedStart)
  {
    match pk
    case None => VotingErrors(v, now)
    case Some(k) =>
      if k >= |t.votings| then [RelatedObjectDoesNotExist]
      else VotingErrors(v, now) + (if t.votings[k].plannedStart <= now then [VotingIsLive] else [])
  }

  // ---------------------------------------------------------- Registration

  /** `voting.candidate_registrations.count()` */
  function RegistrationCount(regs: seq<Registration>, voting: nat): (n: nat)
    ensures n <= |regs|
  {
    if regs == [] then 0
    else RegistrationCount(regs[..|regs| - 1], voting) + (if regs[|regs| - 1].voting == voting then 1 else 0)
  }

  /** `voting.candidate_registrations.filter(pk=self.pk).exists()` */
  predicate RegisteredIn(regs: seq<Registration>, pk: Option<nat>, voting: nat) {
    pk.Some? && pk.value < |regs| && regs[pk.value].voting == voting
  }

  /** The UniqueConstraint on (candidate, voting), ignoring the row being saved. */
  predicate CandidateTaken(regs: seq<Registration>, pk: Option<nat>, r: Registration) {
    exists i :: 0 <= i < |regs| && Some(i) != pk && regs[i].candidate == r.candidate && regs[i].voting == r.voting
  }

  /** CandidateRegistration.save as written: clean(), then the unique constraint. */
  function RegistrationErrors(t: Tables, pk: Option<nat>, r: Registration, now: int): (errs: seq<ErrorCode>)
    ensures errs == [] <==>
      r.voting < |t.votings| &&
      (RegistrationCount(t.registrations, r.voting) < RegistrationCap || RegisteredIn(t.registrations, pk, r.voting)) &&
      now < t.votings[r.voting].plannedStart &&
      !CandidateTaken(t.registrations, pk, r)
    ensures r.voting < |t.votings| && t.votings[r.voting].plannedStart <= now ==> errs != []
    ensures Invalid in errs <==> r.voting >= |t.votings|
    ensures VotingDoesNotExist in errs <==> r.voting >= |t.votings|
  {
    if r.voting >= |t.votings| then [Invalid, VotingDoesNotExist]
    else
      (if RegistrationCount(t.registrations, r.voting) >= RegistrationCap && !RegisteredIn(t.registrations, pk, r.voting)
       then [VotingCandidaturesLimitReached]
       else if now >= t.votings[r.voting].plannedStart then [VotingIsLive]
       else [])
      + (if CandidateTaken(t.registrations, pk, r) then [UniqueCandidatePerVoting] else [])
  }

  /**
   * Saving a registration, with the rule the source evidently intends: a
   * registration may not be moved out of a voting that has already started.
   * (As written, only the target voting is checked; see MoveBreaksQuotaAsWritten.)
   */
  function RegistrationSaveErrors(t: Tables, pk: Option<nat>, r: Registration, now: int): (errs: seq<ErrorCode>)
    ensures errs == [] <==>
      RegistrationErrors(t, pk, r, now) == [] &&
      (pk.Some? ==>
        pk.value < |t.registrations| &&
        (t.registrations[pk.value].voting != r.voting && t.registrations[pk.value].voting < |t.votings| ==>
           now < t.votings[t.registrations[pk.value].voting].plannedStart))
    ensures errs == [] && pk.Some? ==>
      pk.value < |t.registrations| &&
      (t.registrations[pk.value].voting < |t.votings| ==> now < t.votings[t.registrations[pk.value].voting].plannedStart)
  {
    match pk
    case None => RegistrationErrors(t, pk, r, now)
    case Some(k) =>
      if k >= |t.registrations| then [RelatedObjectDoesNotExist]
      else
        var old_ := t.registrations[k];
        RegistrationErrors(t, pk, r, now)
        + (if old_.voting != r.voting && old_.voting < |t.votings| && t.votings[old_.voting].plannedStart <= now
           then [VotingIsLive] else [])
  }

  // ------------------------------------------------------------------ Vote

  /** Does vote `w` belong to `user` and to a registration of `voting`? */
  predicate CountsFor(w: Vote, regs: seq<Registration>, user: nat, voting: nat) {
    w.user == user && w.registration < |regs| && regs[w.registration].voting == voting
  }

  /** `Vote.objects.filter(candidate_registration__voting=voting, microsoft_user=user).count()` */
  function UserVotes(votes: seq<Vote>, regs: seq<Registration>, user: nat, voting: nat): (n: nat)
    ensures n <= |votes|
  {
    if votes == [] then 0
    else UserVotes(votes[..|votes| - 1], regs, user, voting) + (if CountsFor(votes[|votes| - 1], regs, user, voting) then 1 else 0)
  }

  /** `Vote.objects.filter(candidate_registration=registration, microsoft_user=user).exists()` */
  predicate HasVote(votes: seq<Vote>, user: nat, registration: nat) {
    exists i :: 0 <= i < |votes| && votes[i].user == user && votes[i].registration == registration
  }

  /**
   * Vote.clean, in the source's order: window (inclusive at both ends),
   * eligibility, duplicate, quota (`count == votes_per_user` rejects), pk.
   * A registration that names no row makes the source raise before any check.
   */
  function VoteError(t: Tables, pk: Option<nat>, registration: nat, user: nat, now: int): (e: Option<ErrorCode>)
    ensures e == None <==>
      registration < |t.registrations| && t.registrations[registration].voting < |t.votings| &&
      var r := t.registrations[registration];
      var v := t.votings[r.voting];
      && InWindow(v.plannedStart, v.plannedEnd, now)
      && r.isEligible
      && !HasVote(t.votes, user, registration)
      && UserVotes(t.votes, t.registrations, user, r.voting) != v.votesPerUser
      && pk.None?
  {
    if registration >= |t.registrations| || t.registrations[registration].voting >= |t.votings| then
      Some(RelatedObjectDoesNotExist)
    else
      var r := t.registrations[registration];
      var v := t.votings[r.voting];
      if now < v.plannedStart then Some(VotingNotStarted)
      else if now > v.plannedEnd then Some(VotingGone)
      else if !r.isEligible then Some(IllegalCandidature)
      else if HasVote(t.votes, user, registration) then Some(VoteDupliaction)
      else if UserVotes(t.votes, t.registrations, user, r.voting) == v.votesPerUser then Some(VoteLimitReached)
      else if pk.Some? then Some(VoteActionForbidden)
      else None
  }

  /** The window is checked first: outside it, the error is always a window error. */
  lemma WindowCheckedFirst(t: Tables, pk: Option<nat>, registration: nat, user: nat, now: int)
    requires registration < |t.registrations| && t.registrations[registration].voting < |t.votings|
    requires var v := t.votings[t.registrations[registration].voting];
      !InWindow(v.plannedStart, v.plannedEnd, now)
    ensures var v := t.votings[t.registrations[registration].voting];
      VoteError(t, pk, registration, user, now) == if now < v.plannedStart then Some(VotingNotStarted) else Some(VotingGone)
  {
  }

  /**
   * A stored vote can never be saved again: re-saving it (its own pk, its own
   * registration and user) is refused, and inside the window it is refused by
   * its own duplicate check, before the pk check is reached.
   */
  lemma StoredVoteNeverResaved(t: Tables, k: nat, now: int)
    requires k < |t.votes|
    ensures VoteError(t, Some(k), t.votes[k].registration, t.votes[k].user, now).Some?
    ensures VoteError(t, Some(k), t.votes[k].registration, t.votes[k].user, now) != Some(VoteActionForbidden)
  {
    assert HasVote(t.votes, t.votes[k].user, t.votes[k].registration);
  }

  // ------------------------------------------------------ the store's rules

  /** One save, as the panel and the voting views issue them. */
  datatype Op =
    | SaveVotingOp(votingPk: Option<nat>, voting: Voting, now: int)
    | SaveRegistrationOp(registrationPk: Option<nat>, registration: Registration, now: int)
    | SaveVoteOp(votePk: Option<nat>, voteRegistration: nat, user: nat, now: int)

  /** The errors a save reports; empty means the save goes through. */
  function OpErrors(t: Tables, op: Op): seq<ErrorCode> {
    match op
    case SaveVotingOp(pk, v, now) => VotingSaveErrors(t, pk, v, now)
    case SaveRegistrationOp(pk, r, now) => RegistrationSaveErrors(t, pk, r, now)
    case SaveVoteOp(pk, reg, user, now) =>
      match VoteError(t, pk, reg, user, now)
      case None => []
      case Some(e) => [e]
  }

  /**
   * The tables after a save: a failed save changes nothing, a save writes
   * only its own table, no row is ever removed and stored votes are never
   * rewritten.
   */
  function Apply(t: Tables, op: Op): (r: Tables)
    ensures OpErrors(t, op) != [] ==> r == t
    ensures !op.SaveVotingOp? ==> r.votings == t.votings
    ensures !op.SaveRegistrationOp? ==> r.registrations == t.registrations
    ensures !op.SaveVoteOp? ==> r.votes == t.votes
    ensures |t.votings| <= |r.votings| <= |t.votings| + 1
    ensures |t.registrations| <= |r.registrations| <= |t.registrations| + 1
    ensures |t.votes| <= |r.votes| <= |t.votes| + 1 && r.votes[..|t.votes|] == t.votes
  {
    if OpErrors(t, op) != [] then t
    else
      match op
      case SaveVotingOp(pk, v, now) =>
        (match pk
         case None => t.(votings := t.votings + [v])
         case Some(k) => t.(votings := t.votings[k := v]))
      case SaveRegistrationOp(pk, r, now) =>
        (match pk
         case None => t.(registrations := t.registrations + [r])
         case Some(k) => t.(registrations := t.registrations[k := r]))
      case SaveVoteOp(pk, reg, user, now) =>
        t.(votes := t.votes + [Vote(reg, user, now)])
  }

  /**
   * What a save returns: the collected error codes, or the pk of the row
   * that now holds the saved values.
   */
  function Outcome(t: Tables, op: Op): (r: Result<nat>)
    ensures r.Ok? <==> OpErrors(t, op) == []
    ensures r.Err? ==> r.codes == OpErrors(t, op)
    ensures r.Ok? && op.SaveVotingOp? ==>
      r.value < |Apply(t, op).votings| && Apply(t, op).votings[r.value] == op.voting
    ensures r.Ok? && op.SaveRegistrationOp? ==>
      r.value < |Apply(t, op).registrations| && Apply(t, op).registrations[r.value] == op.registration
    ensures r.Ok? && op.SaveVoteOp? ==>
      r.value == |t.votes| && Apply(t, op).votes == t.votes + [Vote(op.voteRegistration, op.user, op.now)]
  {
    var errs := OpErrors(t, op);
    if errs != [] then Err(errs)
    else
      match op
      case SaveVotingOp(pk, v, now) => Ok(if pk.Some? then pk.value else |t.votings|)
      case SaveRegistrationOp(pk, r, now) => Ok(if pk.Some? then pk.value else |t.registrations|)
      case SaveVoteOp(pk, reg, user, now) => Ok(|t.votes|)
  }

  function OpTime(op: Op): int {
    match op
    case SaveVotingOp(_, _, now) => now
    case SaveRegistrationOp(_, _, now) => now
    case SaveVoteOp(_, _, _, now) => now
  }

  // ------------------------------------------------------ store invariant

  ghost predicate RefsOk(t: Tables) {
    && (forall i :: 0 <= i < |t.registrations| ==> t.registrations[i].voting < |t.votings|)
    && (forall i :: 0 <= i < |t.votes| ==> t.votes[i].registration < |t.registrations|)
  }

  ghost predicate VotingsValid(t: Tables) {
    forall i :: 0 <= i < |t.votings| ==> 1 <= t.votings[i].votesPerUser
  }

  /** Every stored vote went to an eligible registration, inside its voting's window, no later than `clock`. */
  ghost predicate VotesLegal(t: Tables, clock: int)
    requires RefsOk(t)
  {
    forall i :: 0 <= i < |t.votes| ==>
      var w := t.votes[i];
      var r := t.registrations[w.registration];
      && r.isEligible
      && t.votings[r.voting].plannedStart <= w.createdAt <= t.votings[r.voting].plannedEnd
      && w.createdAt <= clock
  }

  /** At most one vote per (user, registration). */
  ghost predicate NoDuplicateVotes(votes: seq<Vote>) {
    forall i, j :: 0 <= i < j < |votes| ==> !(votes[i].user == votes[j].user && votes[i].registration == votes[j].registration)
  }

  /** No user holds more votes in a voting than the voting allows. */
  ghost predicate QuotaHeld(t: Tables) {
    forall user: nat, voting: nat :: voting < |t.votings| ==>
      UserVotes(t.votes, t.registrations, user, voting) <= t.votings[voting].votesPerUser
  }

  /** At most one registration per (candidate, voting). */
  ghost predicate UniqueRegistrations(regs: seq<Registration>) {
    forall i, j :: 0 <= i < j < |regs| ==> !(regs[i].candidate == regs[j].candidate && regs[i].voting == regs[j].voting)
  }

  /** No voting holds more than RegistrationCap registrations. */
  ghost predicate CapHeld(t: Tables) {
    forall voting: nat :: voting < |t.votings| ==> RegistrationCount(t.registrations, voting) <= RegistrationCap
  }

  ghost predicate Inv(t: Tables, clock: int) {
    && RefsOk(t)
    && VotingsValid(t)
    && VotesLegal(t, clock)
    && NoDuplicateVotes(t.votes)
    && QuotaHeld(t)
    && UniqueRegistrations(t.registrations)
    && CapHeld(t)
  }

  // ------------------------------------------------------ counting lemmas

  lemma UserVotesAppend(votes: seq<Vote>, w: Vote, regs: seq<Registration>, user: nat, voting: nat)
    ensures UserVotes(votes + [w], regs, user, voting) ==
            UserVotes(votes, regs, user, voting) + (if CountsFor(w, regs, user, voting) then 1 else 0)
  {
    assert (votes + [w])[..|votes|] == votes;
  }

  /** A user's count only depends on the registrations their votes point at. */
  lemma {:induction false} UserVotesFrame(votes: seq<Vote>, regs1: seq<Registration>, regs2: seq<Registration>, user: nat, voting: nat)
    requires forall i :: 0 <= i < |votes| ==>
      votes[i].registration < |regs1| && votes[i].registration < |regs2| &&
      regs1[votes[i].registration].voting == regs2[votes[i].registration].voting
    ensures UserVotes(votes, regs1, user, voting) == UserVotes(votes, regs2, user, voting)
  {
    if votes != [] {
      UserVotesFrame(votes[..|votes| - 1], regs1, regs2, user, voting);
    }
  }

  /** A voting none of whose votes are the user's has a count of zero. */
  lemma {:induction false} UserVotesNone(votes: seq<Vote>, regs: seq<Registration>, user: nat, voting: nat)
    requires forall i :: 0 <= i < |votes| ==> !CountsFor(votes[i], regs, user, voting)
    ensures UserVotes(votes, regs, user, voting) == 0
  {
    if votes != [] {
      UserVotesNone(votes[..|votes| - 1], regs, user, voting);
    }
  }

  lemma RegistrationCountAppend(regs: seq<Registration>, r: Registration, voting: nat)
    ensures RegistrationCount(regs + [r], voting) == RegistrationCount(regs, voting) + (if r.voting == voting then 1 else 0)
  {
    assert (regs + [r])[..|regs|] == regs;
  }

  lemma {:induction false} RegistrationCountUpdate(regs: seq<Registration>, k: nat, r: Registration, voting: nat)
    requires k < |regs|
    ensures RegistrationCount(regs[k := r], voting) ==
            RegistrationCount(regs, voting) - (if regs[k].voting == voting then 1 else 0) + (if r.voting == voting then 1 else 0)
  {
    var n := |regs|;
    if k == n - 1 {
      assert regs[k := r][..n - 1] == regs[..n - 1];
    } else {
      assert regs[k := r][..n - 1] == regs[..n - 1][k := r];
      RegistrationCountUpdate(regs[..n - 1], k, r, voting);
      if regs[k].voting == voting {
        RegistrationCountPositive(regs[..n - 1], k, voting);
      }
    }
  }

  lemma {:induction false} RegistrationCountPositive(regs: seq<Registration>, k: nat, voting: nat)
    requires k < |regs| && regs[k].voting == voting
    ensures RegistrationCount(regs, voting) >= 1
  {
    if k < |regs| - 1 {
      RegistrationCountPositive(regs[..|regs| - 1], k, voting);
    }
  }

  lemma {:induction false} RegistrationCountNone(regs: seq<Registration>, voting: nat)
    requires forall i :: 0 <= i < |regs| ==> regs[i].voting != voting
    ensures RegistrationCount(regs, voting) == 0
  {
    if regs != [] {
      RegistrationCountNone(regs[..|regs| - 1], voting);
    }
  }

  // ---------------------------------------------- preservation of the invariant

  lemma InvLaterClock(t: Tables, clock: int, later: int)
    requires Inv(t, clock) && clock <= later
    ensures Inv(t, later)
  {
  }

  /** No stored vote belongs to a voting that has not started by `now`. */
  lemma NoVotesBeforeStart(t: Tables, clock: int, now: int, voting: nat)
    requires Inv(t, clock) && clock <= now
    requires voting < |t.votings| && now < t.votings[voting].plannedStart
    ensures forall i :: 0 <= i < |t.votes| ==> t.registrations[t.votes[i].registration].voting != voting
  {
    forall i | 0 <= i < |t.votes|
      ensures t.registrations[t.votes[i].registration].voting != voting
    {
      var w := t.votes[i];
      assert w.createdAt <= clock;
    }
  }

  lemma SaveVotingKeepsInv(t: Tables, clock: int, pk: Option<nat>, v: Voting, now: int)
    requires Inv(t, clock) && clock <= now
    requires VotingSaveErrors(t, pk, v, now) == []
    ensures Inv(Apply(t, SaveVotingOp(pk, v, now)), now)
  {
    var t' := Apply(t, SaveVotingOp(pk, v, now));
    var k := if pk.Some? then pk.value else |t.votings|;
    assert t'.registrations == t.registrations && t'.votes == t.votes;
    assert |t'.votings| == |t.votings| + (if pk.Some? then 0 else 1);
    assert t'.votings == if pk.Some? then t.votings[k := v] else t.votings + [v];
    // no stored vote or registration refers to the voting being written
    if pk.Some? {
      NoVotesBeforeStart(t, clock, now, k);
    }
    assert forall i :: 0 <= i < |t.votes| ==> t.registrations[t.votes[i].registration].voting != k;
    assert RefsOk(t');
    assert VotesLegal(t', now);
    forall user: nat, voting: nat | voting < |t'.votings|
      ensures UserVotes(t'.votes, t'.registrations, user, voting) <= t'.votings[voting].votesPerUser
    {
      if voting == k {
        UserVotesNone(t.votes, t.registrations, user, voting);
      }
    }
    forall voting: nat | voting < |t'.votings|
      ensures RegistrationCount(t'.registrations, voting) <= RegistrationCap
    {
      if pk.None? && voting == k {
        RegistrationCountNone(t.registrations, voting);
      }
    }
  }

  lemma InsertRegistrationKeepsInv(t: Tables, clock: int, r: Registration, now: int)
    requires Inv(t, clock) && clock <= now
    requires RegistrationErrors(t, None, r, now) == []
    ensures Inv(t.(registrations := t.registrations + [r]), now)
  {
    var regs := t.registrations;
    var t' := t.(registrations := regs + [r]);
    assert RefsOk(t');
    assert VotesLegal(t', now);
    forall user: nat, voting: nat | voting < |t'.votings|
      ensures UserVotes(t'.votes, t'.registrations, user, voting) <= t'.votings[voting].votesPerUser
    {
      UserVotesFrame(t.votes, regs, regs + [r], user, voting);
    }
    forall voting: nat | voting < |t'.votings|
      ensures RegistrationCount(t'.registrations, voting) <= RegistrationCap
    {
      RegistrationCountAppend(regs, r, voting);
    }
    forall i, j | 0 <= i < j < |t'.registrations|
      ensures !(t'.registrations[i].candidate == t'.registrations[j].candidate && t'.registrations[i].voting == t'.registrations[j].voting)
    {
      if j == |regs| {
        assert t'.registrations[i] == regs[i];
      }
    }
  }

  lemma UpdateRegistrationKeepsInv(t: Tables, clock: int, k: nat, r: Registration, now: int)
    requires Inv(t, clock) && clock <= now
    requires RegistrationSaveErrors(t, Some(k), r, now) == []
    ensures k < |t.registrations| && Inv(t.(registrations := t.registrations[k := r]), now)
  {
    var regs := t.registrations;
    assert RegistrationErrors(t, Some(k), r, now) == [];
    var t' := t.(registrations := regs[k := r]);
    // the registration's stored voting has not started, so no vote points at it
    NoVotesBeforeStart(t, clock, now, regs[k].voting);
    assert forall i :: 0 <= i < |t.votes| ==> t.votes[i].registration != k;
    assert RefsOk(t');
    assert VotesLegal(t', now);
    forall user: nat, voting: nat | voting < |t'.votings|
      ensures UserVotes(t'.votes, t'.registrations, user, voting) <= t'.votings[voting].votesPerUser
    {
      UserVotesFrame(t.votes, regs, regs[k := r], user, voting);
    }
    forall voting: nat | voting < |t'.votings|
      ensures RegistrationCount(t'.registrations, voting) <= RegistrationCap
    {
      RegistrationCountUpdate(regs, k, r, voting);
    }
    forall i, j | 0 <= i < j < |t'.registrations|
      ensures !(t'.registrations[i].candidate == t'.registrations[j].candidate && t'.registrations[i].voting == t'.registrations[j].voting)
    {
      if j == k {
        assert Some(i) != Some(k);
      } else if i == k {
        assert Some(j) != Some(k);
      }
    }
  }

  lemma SaveRegistrationKeepsInv(t: Tables, clock: int, pk: Option<nat>, r: Registration, now: int)
    requires Inv(t, clock) && clock <= now
    requires RegistrationSaveErrors(t, pk, r, now) == []
    ensures Inv(Apply(t, SaveRegistrationOp(pk, r, now)), now)
  {
    match pk {
      case None => InsertRegistrationKeepsInv(t, clock, r, now);
      case Some(k) => UpdateRegistrationKeepsInv(t, clock, k, r, now);
    }
  }

  lemma SaveVoteKeepsInv(t: Tables, clock: int, pk: Option<nat>, reg: nat, user: nat, now: int)
    requires Inv(t, clock) && clock <= now
    requires VoteError(t, pk, reg, user, now) == None
    ensures Inv(Apply(t, SaveVoteOp(pk, reg, user, now)), now)
  {
    var w := Vote(reg, user, now);
    var t' := Apply(t, SaveVoteOp(pk, reg, user, now));
    assert t' == t.(votes := t.votes + [w]);
    assert RefsOk(t');
    assert VotesLegal(t', now);
    forall i, j | 0 <= i < j < |t'.votes|
      ensures !(t'.votes[i].user == t'.votes[j].user && t'.votes[i].registration == t'.votes[j].registration)
    {
      if j == |t.votes| {
        assert t'.votes[i] == t.votes[i];
      }
    }
    forall u: nat, voting: nat | voting < |t'.votings|
      ensures UserVotes(t'.votes, t'.registrations, u, voting) <= t'.votings[voting].votesPerUser
    {
      UserVotesAppend(t.votes, w, t.registrations, u, voting);
    }
  }

  /** Every save, successful or not, keeps the store invariant. */
  lemma ApplyKeepsInv(t: Tables, clock: int, op: Op)
    requires Inv(t, clock) && clock <= OpTime(op)
    ensures Inv(Apply(t, op), OpTime(op))
  {
    if OpErrors(t, op) != [] {
      InvLaterClock(t, clock, OpTime(op));
    } else {
      match op {
        case SaveVotingOp(pk, v, now) => SaveVotingKeepsInv(t, clock, pk, v, now);
        case SaveRegistrationOp(pk, r, now) => SaveRegistrationKeepsInv(t, clock, pk, r, now);
        case SaveVoteOp(pk, reg, user, now) => SaveVoteKeepsInv(t, clock, pk, reg, user, now);
      }
    }
  }

  const EmptyTables: Tables := Tables([], [], [])

  lemma EmptyInv(clock: int)
    ensures Inv(Tables([], [], []), clock)
  {
    assert RegistrationCount([], 0) == 0;
  }

  /** The tables after a sequence of saves, starting from empty tables. */
  function Replay(ops: seq<Op>): Tables {
    if ops == [] then EmptyTables else Apply(Replay(ops[..|ops| - 1]), ops[|ops| - 1])
  }

  /** The saves are issued in the order of the wall clock. */
  ghost predicate Chronological(ops: seq<Op>) {
    forall i, j :: 0 <= i < j < |ops| ==> OpTime(ops[i]) <= OpTime(ops[j])
  }

  /** Dropping the last save keeps the order, and every earlier save is no later than it. */
  lemma ChronologicalInit(ops: seq<Op>)
    requires ops != [] && Chronological(ops)
    ensures Chronological(ops[..|ops| - 1])
    ensures forall i :: 0 <= i < |ops| - 1 ==> OpTime(ops[i]) <= OpTime(ops[|ops| - 1])
  {
  }

  lemma {:induction false} ReplayKeepsInv(ops: seq<Op>, clock: int)
    requires Chronological(ops)
    requires forall i :: 0 <= i < |ops| ==> OpTime(ops[i]) <= clock
    ensures Inv(Replay(ops), clock)
  {
    if ops == [] {
      EmptyInv(clock);
    } else {
      var n := |ops|;
      var last := OpTime(ops[n - 1]);
      ChronologicalInit(ops);
      ReplayKeepsInv(ops[..n - 1], last);
      ApplyKeepsInv(Replay(ops[..n - 1]), last, ops[n - 1]);
      assert Replay(ops) == Apply(Replay(ops[..n - 1]), ops[n - 1]);
      InvLaterClock(Replay(ops), last, clock);
    }
  }

  /**
   * The quota invariant: starting from an empty store, whatever saves are
   * issued in time order, no user ever holds more votes in a voting than its
   * votes_per_user, no (user, registration) pair is voted twice, and every
   * vote lies inside its voting's window.
   */
  lemma QuotaFromEmpty(ops: seq<Op>)
    requires Chronological(ops)
    ensures QuotaHeld(Replay(ops))
    ensures NoDuplicateVotes(Replay(ops).votes)
    ensures RefsOk(Replay(ops))
    ensures forall i :: 0 <= i < |Replay(ops).votes| ==>
      var t := Replay(ops);
      var w := t.votes[i];
      var r := t.registrations[w.registration];
      r.isEligible && InWindow(t.votings[r.voting].plannedStart, t.votings[r.voting].plannedEnd, w.createdAt)
  {
    var clock := if ops == [] then 0 else OpTime(ops[|ops| - 1]);
    ReplayKeepsInv(ops, clock);
  }

  // ------------------------------------------------- the source as written

  /** Voting.save exactly as written: full_clean on the new values only. */
  function VotingSaveErrorsAsWritten(t: Tables, pk: Option<nat>, v: Voting, now: int): (errs: seq<ErrorCode>)
    ensures errs == [] <==> VotingErrors(v, now) == [] && (pk.Some? ==> pk.value < |t.votings|)
  {
    match pk
    case None => VotingErrors(v, now)
    case Some(k) => if k >= |t.votings| then [RelatedObjectDoesNotExist] else VotingErrors(v, now)
  }

  /** CandidateRegistration.save exactly as written: only the target voting is checked. */
  function RegistrationSaveErrorsAsWritten(t: Tables, pk: Option<nat>, r: Registration, now: int): (errs: seq<ErrorCode>)
    ensures errs == [] <==> RegistrationErrors(t, pk, r, now) == [] && (pk.Some? ==> pk.value < |t.registrations|)
  {
    match pk
    case None => RegistrationErrors(t, pk, r, now)
    case Some(k) => if k >= |t.registrations| then [RelatedObjectDoesNotExist] else RegistrationErrors(t, pk, r, now)
  }

  /** A store with one voting [10, 20] allowing two votes, two eligible candidates and two votes of user 7. */
  const Started: Tables :=
    Tables([Voting(10, 20, 2)], [Registration(1, 0, true), Registration(2, 0, true)], [Vote(0, 7, 15), Vote(1, 7, 16)])

  /** The saves that build Started from empty tables, in time order. */
  const StartedOps: seq<Op> :=
    [ SaveVotingOp(None, Voting(10, 20, 2), 0),
      SaveRegistrationOp(None, Registration(1, 0, true), 1),
      SaveRegistrationOp(None, Registration(2, 0, true), 2),
      SaveVoteOp(None, 0, 7, 15),
      SaveVoteOp(None, 1, 7, 16) ]

  lemma StartedStep1()
    ensures Apply(EmptyTables, StartedOps[0]) == Tables([Voting(10, 20, 2)], [], [])
  {
  }

  lemma StartedStep2()
    ensures Apply(Tables([Voting(10, 20, 2)], [], []), StartedOps[1]) ==
      Tables([Voting(10, 20, 2)], [Registration(1, 0, true)], [])
  {
    assert !CandidateTaken([], None, Registration(1, 0, true));
  }

  lemma StartedStep3()
    ensures Apply(Tables([Voting(10, 20, 2)], [Registration(1, 0, true)], []), StartedOps[2]) ==
      Started.(votes := [])
  {
    var t := Tables([Voting(10, 20, 2)], [Registration(1, 0, true)], []);
    assert !CandidateTaken(t.registrations, None, Registration(2, 0, true));
    assert RegistrationCount(t.registrations, 0) == 1;
  }

  lemma StartedStep4()
    ensures Apply(Started.(votes := []), StartedOps[3]) == Started.(votes := [Vote(0, 7, 15)])
  {
    assert UserVotes([], Started.registrations, 7, 0) == 0;
    assert !HasVote([], 7, 0);
  }

  lemma StartedStep5()
    ensures Apply(Started.(votes := [Vote(0, 7, 15)]), StartedOps[4]) == Started
  {
    var t := Started.(votes := [Vote(0, 7, 15)]);
    assert !HasVote(t.votes, 7, 1);
    assert UserVotes(t.votes, t.registrations, 7, 0) == 1;
  }

  lemma StartedOpsChronological()
    ensures Chronological(StartedOps)
  {
    var times := [0, 1, 2, 15, 16];
    assert forall k :: 0 <= k < 5 ==> OpTime(StartedOps[k]) == times[k];
  }

  /** One more save of a prefix: the prefix's tables, then that save. */
  lemma ReplayPrefix(ops: seq<Op>, k: nat, t: Tables, t': Tables)
    requires k < |ops| && Replay(ops[..k]) == t && Apply(t, ops[k]) == t'
    ensures Replay(ops[..k + 1]) == t'
  {
    var p := ops[..k + 1];
    assert p[..|p| - 1] == ops[..k];
    assert p[|p| - 1] == ops[k];
  }

  lemma StartedPrefix1(ops: seq<Op>)
    requires ops == StartedOps
    ensures Replay(ops[..1]) == Tables([Voting(10, 20, 2)], [], [])
  {
    assert ops[..0] == [];
    StartedStep1();
    ReplayPrefix(ops, 0, EmptyTables, Tables([Voting(10, 20, 2)], [], []));
  }

  lemma StartedPrefix2(ops: seq<Op>)
    requires ops == StartedOps
    ensures Replay(ops[..2]) == Tables([Voting(10, 20, 2)], [Registration(1, 0, true)], [])
  {
    StartedPrefix1(ops);
    StartedStep2();
    ReplayPrefix(ops, 1, Tables([Voting(10, 20, 2)], [], []), Tables([Voting(10, 20, 2)], [Registration(1, 0, true)], []));
  }

  lemma StartedPrefix3(ops: seq<Op>)
    requires ops == StartedOps
    ensures Replay(ops[..3]) == Started.(votes := [])
  {
    StartedPrefix2(ops);
    StartedStep3();
    ReplayPrefix(ops, 2, Tables([Voting(10, 20, 2)], [Registration(1, 0, true)], []), Started.(votes := []));
  }

  lemma StartedPrefix4(ops: seq<Op>)
    requires ops == StartedOps
    ensures Replay(ops[..4]) == Started.(votes := [Vote(0, 7, 15)])
  {
    StartedPrefix3(ops);
    StartedStep4();
    ReplayPrefix(ops, 3, Started.(votes := []), Started.(votes := [Vote(0, 7, 15)]));
  }

  /** Started is reachable: the saves StartedOps all succeed and build it. */
  lemma StartedReachable(ops: seq<Op>)
    requires ops == StartedOps
    ensures Replay(ops) == Started
  {
    StartedPrefix4(ops);
    StartedStep5();
    ReplayPrefix(ops, 4, Started.(votes := [Vote(0, 7, 15)]), Started);
    assert ops[..5] == ops;
  }

  /**
   * As written, the started voting of Started can be rescheduled at instant 17
   * into [30, 40] with votes_per_user 1, leaving user 7 with two votes in a
   * voting that allows one. The corrected rule refuses the save.
   */
  lemma RescheduleBreaksQuotaAsWritten()
    ensures VotingSaveErrorsAsWritten(Started, Some(0), Voting(30, 40, 1), 17) == []
    ensures UserVotes(Started.votes, Started.registrations, 7, 0) == 2
    ensures VotingSaveErrors(Started, Some(0), Voting(30, 40, 1), 17) == [VotingIsLive]
  {
  }

  /** Started with a second voting [30, 40] allowing one vote, added at instant 0. */
  const StartedPlus: Tables := Started.(votings := Started.votings + [Voting(30, 40, 1)])

  /**
   * As written, a registration holding votes can be moved out of a started
   * voting into one that has not started: moving both registrations of
   * StartedPlus into voting 1 leaves user 7 with two votes in a voting that
   * allows one. The corrected rule refuses the first move.
   */
  lemma MoveBreaksQuotaAsWritten()
    ensures RegistrationSaveErrorsAsWritten(StartedPlus, Some(0), Registration(1, 1, true), 17) == []
    ensures RegistrationSaveErrorsAsWritten(
      StartedPlus.(registrations := [Registration(1, 1, true), Registration(2, 0, true)]),
      Some(1), Registration(2, 1, true), 17) == []
    ensures UserVotes(StartedPlus.votes, [Registration(1, 1, true), Registration(2, 1, true)], 7, 1) == 2
    ensures RegistrationSaveErrors(StartedPlus, Some(0), Registration(1, 1, true), 17) == [VotingIsLive]
  {
    var t := StartedPlus;
    var t' := t.(registrations := [Registration(1, 1, true), Registration(2, 0, true)]);
    assert !CandidateTaken(t.registrations, Some(0), Registration(1, 1, true));
    assert RegistrationCount(t.registrations, 1) == 0;
    assert !CandidateTaken(t'.registrations, Some(1), Registration(2, 1, true));
    assert RegistrationCount(t'.registrations, 1) == 1;
  }

  // ------------------------------------------------------ ElectoralProgram

  /** An electoral program; `registration` is its one-to-one candidature. */
  datatype Program = Program(registration: nat, info: string)

  /** `ElectoralProgram.objects.filter(candidature=registration).first()` */
  function ProgramOf(programs: seq<Program>, registration: nat): (r: Option<nat>)
    ensures r.None? <==> forall i :: 0 <= i < |programs| ==> programs[i].registration != registration
    ensures r.Some? ==> r.value < |programs| && programs[r.value].registration == registration
    ensures r.Some? ==> forall i :: 0 <= i < r.value ==> programs[i].registration != registration
  {
    if programs == [] then None
    else if programs[0].registration == registration then Some(0)
    else match ProgramOf(programs[1..], registration)
      case None => None
      case Some(i) => Some(i + 1)
  }

  /**
   * Saving the candidature's program through its form: the stored program is
   * updated in place, or a new one is inserted when the candidature has none.
   */
  function ProgramsAfter(programs: seq<Program>, registration: nat, info: string): seq<Program> {
    match ProgramOf(programs, registration)
    case None => programs + [Program(registration, info)]
    case Some(k) => programs[k := Program(registration, info)]
  }

  /** The OneToOneField: at most one program per candidature. */
  ghost predicate OneProgramEach(programs: seq<Program>) {
    forall i, j :: 0 <= i < j < |programs| ==> programs[i].registration != programs[j].registration
  }

  lemma ProgramsAfterKeepsOneEach(programs: seq<Program>, registration: nat, info: string)
    requires OneProgramEach(programs)
    ensures OneProgramEach(ProgramsAfter(programs, registration, info))
    ensures var k := ProgramOf(ProgramsAfter(programs, registration, info), registration);
      k.Some? && ProgramsAfter(programs, registration, info)[k.value].info == info
  {
    var p' := ProgramsAfter(programs, registration, info);
    match ProgramOf(programs, registration)
    case None =>
      assert p'[|programs|] == Program(registration, info);
    case Some(k) =>
      assert p'[k] == Program(registration, info);
  }

  // ------------------------------------------------- the store as an object

  /** The council tables, updated in place by the models' save methods. */
  class Ledger {
    var votings: seq<Voting>
    var registrations: seq<Registration>
    var votes: seq<Vote>
    var programs: seq<Program>
    /** The latest instant at which the store was written. */
    ghost var clock: int

    function Snapshot(): Tables
      reads this
    {
      Tables(votings, registrations, votes)
    }

    ghost predicate Valid()
      reads this
    {
      Inv(Snapshot(), clock) && OneProgramEach(programs)
    }

    /** An empty store whose clock starts at the instant `now`. */
    constructor (now: int)
      ensures Valid()
      ensures Snapshot() == EmptyTables && programs == []
      ensures clock == now
    {
      votings, registrations, votes := [], [], [];
      programs := [];
      clock := now;
      new;
      assert Snapshot() == Tables([], [], []);
      EmptyInv(now);
      assert OneProgramEach(programs);
    }

    /** Puts the tables back as they were (a transaction's rollback). */
    method Restore(t: Tables, p: seq<Program>)
      requires Inv(t, clock) && OneProgramEach(p)
      modifies this
      ensures Valid() && clock == old(clock)
      ensures Snapshot() == t && programs == p
    {
      votings, registrations, votes, programs := t.votings, t.registrations, t.votes, p;
    }

    /** Voting.save (insert when pk is None, update otherwise). */
    method SaveVoting(pk: Option<nat>, v: Voting, now: int) returns (r: Result<nat>)
      requires Valid() && clock <= now
      modifies this
      ensures Valid() && clock == now
      ensures Snapshot() == Apply(old(Snapshot()), SaveVotingOp(pk, v, now))
      ensures r == Outcome(old(Snapshot()), SaveVotingOp(pk, v, now))
      ensures programs == old(programs)
    {
      ApplyKeepsInv(Snapshot(), clock, SaveVotingOp(pk, v, now));
      var errs := VotingSaveErrors(Snapshot(), pk, v, now);
      if errs != [] {
        r := Err(errs);
      } else {
        match pk {
          case None =>
            r := Ok(|votings|);
            votings := votings + [v];
          case Some(k) =>
            r := Ok(k);
            votings := votings[k := v];
        }
      }
      clock := now;
    }

    /** CandidateRegistration.save (insert when pk is None, update otherwise). */
    method SaveRegistration(pk: Option<nat>, reg: Registration, now: int) returns (r: Result<nat>)
      requires Valid() && clock <= now
      modifies this
      ensures Valid() && clock == now
      ensures Snapshot() == Apply(old(Snapshot()), SaveRegistrationOp(pk, reg, now))
      ensures r == Outcome(old(Snapshot()), SaveRegistrationOp(pk, reg, now))
      ensures programs == old(programs)
    {
      ApplyKeepsInv(Snapshot(), clock, SaveRegistrationOp(pk, reg, now));
      var errs := RegistrationSaveErrors(Snapshot(), pk, reg, now);
      if errs != [] {
        r := Err(errs);
      } else {
        match pk {
          case None =>
            r := Ok(|registrations|);
            registrations := registrations + [reg];
          case Some(k) =>
            r := Ok(k);
            registrations := registrations[k := reg];
        }
      }
      clock := now;
    }

    /** Vote.save: full_clean, then an insert; a vote is never updated. */
    method SaveVote(pk: Option<nat>, registration: nat, user: nat, now: int) returns (r: Result<nat>)
      requires Valid() && clock <= now
      modifies this
      ensures Valid() && clock == now
      ensures Snapshot() == Apply(old(Snapshot()), SaveVoteOp(pk, registration, user, now))
      ensures r == Outcome(old(Snapshot()), SaveVoteOp(pk, registration, user, now))
      ensures r.Ok? ==> pk.None? && votes == old(votes) + [Vote(registration, user, now)]
      ensures programs == old(programs)
    {
      ApplyKeepsInv(Snapshot(), clock, SaveVoteOp(pk, registration, user, now));
      var e := VoteError(Snapshot(), pk, registration, user, now);
      if e.Some? {
        r := Err([e.value]);
      } else {
        r := Ok(|votes|);
        votes := votes + [Vote(registration, user, now)];
      }
      clock := now;
    }

    /** The program form's save: update the candidature's program, or insert one; returns its pk. */
    method SaveProgram(registration: nat, info: string) returns (pk: nat)
      requires Valid()
      modifies this
      ensures Valid()
      ensures programs == ProgramsAfter(old(programs), registration, info)
      ensures pk < |programs| && programs[pk] == Program(registration, info)
      ensures pk == match ProgramOf(old(programs), registration) case Some(k) => k case None => |old(programs)|
      ensures Snapshot() == old(Snapshot()) && clock == old(clock)
    {
      ProgramsAfterKeepsOneEach(programs, registration, info);
      match ProgramOf(programs, registration) {
        case None =>
          pk := |programs|;
          programs := programs + [Program(registration, info)];
        case Some(k) =>
          pk := k;
          programs := programs[k := Program(registration, info)];
      }
    }
  }
}
