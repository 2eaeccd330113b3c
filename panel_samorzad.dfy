/**
 * The panel's student-council views: the list of votings a candidature may
 * still be attached to, and the update of a candidature together with its
 * electoral program, logged in the audit log, in one transaction.
 */
module PanelSamorzad {
  import opened Validation
  import opened SamorzadModels
  import opened OfficeAuth
  import PanelUtils

  // ------------------------------------------------------ future votings

  /** Every entry names a voting. */
  predicate AllIn(votings: seq<Voting>, ks: seq<nat>) {
    forall i :: 0 <= i < |ks| ==> ks[i] < |votings|
  }

  /** The entries are in ascending order of planned start. */
  predicate SortedByStart(votings: seq<Voting>, ks: seq<nat>)
    requires AllIn(votings, ks)
  {
    forall i, j :: 0 <= i < j < |ks| ==> votings[ks[i]].plannedStart <= votings[ks[j]].plannedStart
  }

  /** No voting is listed twice. */
  predicate Distinct(ks: seq<nat>) {
    forall i, j :: 0 <= i < j < |ks| ==> ks[i] != ks[j]
  }

  /** Putting in front a voting that starts no later than any entry and is not among them keeps the order and the distinctness. */
  lemma ConsByStart(votings: seq<Voting>, h: nat, ks: seq<nat>)
    requires h < |votings| && AllIn(votings, ks) && SortedByStart(votings, ks) && Distinct(ks) && h !in ks
    requires forall i :: 0 <= i < |ks| ==> votings[h].plannedStart <= votings[ks[i]].plannedStart
    ensures AllIn(votings, [h] + ks) && SortedByStart(votings, [h] + ks) && Distinct([h] + ks)
  {
    var r := [h] + ks;
    forall i, j | 0 <= i < j < |r|
      ensures r[i] != r[j]
    {
      if i == 0 {
        assert r[j] == ks[j - 1];
      }
    }
  }

  /** Places voting `k` after every entry that starts no later than it. */
  function InsertByStart(votings: seq<Voting>, ks: seq<nat>, k: nat): (r: seq<nat>)
    requires k < |votings| && AllIn(votings, ks) && SortedByStart(votings, ks)
    requires Distinct(ks) && k !in ks
    ensures AllIn(votings, r) && SortedByStart(votings, r) && Distinct(r)
    ensures forall x :: x in r <==> x in ks || x == k
  {
    if ks == [] then [k]
    else if votings[k].plannedStart < votings[ks[0]].plannedStart then
      ConsByStart(votings, k, ks);
      [k] + ks
    else
      var rest := InsertByStart(votings, ks[1..], k);
      assert ks == [ks[0]] + ks[1..];
      forall i | 0 <= i < |rest|
        ensures votings[ks[0]].plannedStart <= votings[rest[i]].plannedStart
      {
        assert rest[i] in rest;
        if rest[i] != k {
          assert rest[i] in ks[1..];
          var j :| 0 <= j < |ks[1..]| && ks[1..][j] == rest[i];
          assert ks[j + 1] == rest[i];
        }
      }
      ConsByStart(votings, ks[0], rest);
      [ks[0]] + rest
  }

  /** The votings among the first `n` that start after `now`, each once, ordered by start. */
  function FutureAmong(votings: seq<Voting>, n: nat, now: int): (r: seq<nat>)
    requires n <= |votings|
    ensures AllIn(votings, r) && SortedByStart(votings, r) && Distinct(r)
    ensures forall k: nat :: k in r <==> k < n && now < votings[k].plannedStart
  {
    if n == 0 then []
    else
      var prev := FutureAmong(votings, n - 1, now);
      if now < votings[n - 1].plannedStart then InsertByStart(votings, prev, n - 1) else prev
  }

  /**
   * `Voting.objects.filter(planned_start__gt=now).order_by('planned_start')`:
   * each voting that has not started yet, once, earliest first.
   */
  function FutureVotings(votings: seq<Voting>, now: int): (r: seq<nat>)
    ensures forall k: nat :: k in r <==> k < |votings| && now < votings[k].plannedStart
    ensures Distinct(r)
    ensures AllIn(votings, r) && SortedByStart(votings, r)
  {
    FutureAmong(votings, |votings|, now)
  }

  /**
   * A candidature may only be attached to a voting offered in the list: every
   * voting offered there passes the start-time half of the registration rule.
   */
  lemma OfferedVotingsAcceptCandidatures(t: Tables, now: int, k: nat)
    requires k in FutureVotings(t.votings, now)
    ensures k < |t.votings| && VotingIsLive !in RegistrationErrors(t, None, Registration(0, k, true), now)
  {
  }

  // ----------------------------------------------------- update candidature

  /** What a bound form holds besides its instance: `changed_data`, `initial` and `cleaned_data`. */
  datatype Submitted = Submitted(changedData: seq<string>, initial: map<string, string>, cleanedData: map<string, string>)

  /**
   * CandidateRegistrationForm bound to the stored candidature. Everywhere
   * else a row's pk is its index; here the instance's pk is written as the
   * index plus one only because get_changed_fields reads nothing of it but
   * its truthiness, and a stored row's database id is never 0.
   */
  function CandidatureForm(candidatureId: nat, d: Submitted): PanelUtils.EditForm {
    PanelUtils.EditForm(Some(candidatureId + 1), d.changedData, d.initial, d.cleanedData)
  }

  /**
   * ElectoralProgramForm bound to the candidature's program, the first one
   * `filter(candidature=...)` finds (pk written as index plus one, as in
   * CandidatureForm); with none, its instance is a fresh, unsaved program
   * whose pk is None.
   */
  function ProgramForm(programs: seq<Program>, candidatureId: nat, d: Submitted): PanelUtils.EditForm {
    var pk := match ProgramOf(programs, candidatureId)
              case Some(k) => Some(k + 1)
              case None => None;
    PanelUtils.EditForm(pk, d.changedData, d.initial, d.cleanedData)
  }

  /**
   * The two form saves inside update_candidature's transaction: the
   * candidature first, then its existing program, updated in place and
   * attached to the saved candidature. The result is the program's pk; a
   * refused candidature saves nothing.
   */
  method SaveCandidatureForms(ledger: Ledger, candidatureId: nat, reg: Registration, info: string, now: int) returns (r: Result<nat>)
    requires ledger.Valid() && ledger.clock <= now
    requires ProgramOf(ledger.programs, candidatureId).Some?
    modifies ledger
    ensures ledger.Valid()
    ensures r.Ok? <==> RegistrationSaveErrors(old(ledger.Snapshot()), Some(candidatureId), reg, now) == []
    ensures r.Err? ==>
      && r.codes == RegistrationSaveErrors(old(ledger.Snapshot()), Some(candidatureId), reg, now)
      && ledger.Snapshot() == old(ledger.Snapshot()) && ledger.programs == old(ledger.programs)
    ensures r.Ok? ==>
      && ledger.Snapshot() == Apply(old(ledger.Snapshot()), SaveRegistrationOp(Some(candidatureId), reg, now))
      && ledger.registrations[candidatureId] == reg
      && r.value == ProgramOf(old(ledger.programs), candidatureId).value
      && ledger.programs == old(ledger.programs)[r.value := Program(candidatureId, info)]
  {
    ghost var t := ledger.Snapshot();
    var saved := ledger.SaveRegistration(Some(candidatureId), reg, now);
    if saved.Err? {
      return Err(saved.codes);
    }
    assert saved.value == candidatureId;
    var programPk := ledger.SaveProgram(candidatureId, info);
    return Ok(programPk);
  }

  /**
   * update_candidature, POST. An unknown candidature is a 404. The bound
   * candidature form's is_valid() runs the registration's clean(); when it
   * fails the view re-renders with those errors and nothing is saved or
   * logged. With valid forms both diffs are taken before the transaction, so
   * a candidature without a program makes get_changed_fields raise on the
   * program form and nothing is saved or logged. Otherwise, in one
   * transaction: save the candidature, save its program in place, then log
   * both diffs. The result is the program's pk.
   */
  method UpdateCandidature(ledger: Ledger, auth: AuthStore, user: nat, candidatureId: nat, reg: Registration, info: string,
                           candidatureData: Submitted, programData: Submitted, now: int) returns (r: Result<nat>)
    requires ledger.Valid() && ledger.clock <= now
    modifies ledger, auth
    ensures ledger.Valid() && auth.users == old(auth.users)
    ensures r.Ok? <==>
      ProgramOf(old(ledger.programs), candidatureId).Some? &&
      RegistrationSaveErrors(old(ledger.Snapshot()), Some(candidatureId), reg, now) == []
    ensures RegistrationSaveErrors(old(ledger.Snapshot()), Some(candidatureId), reg, now) != [] ==>
      r == Err(RegistrationSaveErrors(old(ledger.Snapshot()), Some(candidatureId), reg, now))
    ensures (RegistrationSaveErrors(old(ledger.Snapshot()), Some(candidatureId), reg, now) == [] &&
             ProgramOf(old(ledger.programs), candidatureId).None?) ==>
      r == Err([EditFormsOnly])
    ensures r.Err? ==>
      ledger.Snapshot() == old(ledger.Snapshot()) && ledger.programs == old(ledger.programs) && auth.logs == old(auth.logs)
    ensures r.Ok? ==>
      && ledger.Snapshot() == Apply(old(ledger.Snapshot()), SaveRegistrationOp(Some(candidatureId), reg, now))
      && ledger.registrations[candidatureId] == reg
      && ProgramOf(old(ledger.programs), candidatureId) == Some(r.value)
      && ledger.programs == old(ledger.programs)[r.value := Program(candidatureId, info)]
      && auth.logs == old(auth.logs) + [
           LogEntry(user, Update, PanelUtils.Diff(CandidatureForm(candidatureId, candidatureData)),
                    "candidateregistration", candidatureId),
           LogEntry(user, Update, PanelUtils.Diff(ProgramForm(old(ledger.programs), candidatureId, programData)),
                    "electoralprogram", r.value)]
  {
    if candidatureId >= |ledger.registrations| {
      assert RegistrationSaveErrors(ledger.Snapshot(), Some(candidatureId), reg, now) == [RelatedObjectDoesNotExist];
      return Err([RelatedObjectDoesNotExist]);
    }
    var formErrors := RegistrationSaveErrors(ledger.Snapshot(), Some(candidatureId), reg, now);
    if formErrors != [] {
      return Err(formErrors);
    }
    ghost var candidatureDiff := PanelUtils.Diff(CandidatureForm(candidatureId, candidatureData));
    ghost var programDiff := PanelUtils.Diff(ProgramForm(ledger.programs, candidatureId, programData));
    var candidatureUpdate := PanelUtils.ChangedFields(CandidatureForm(candidatureId, candidatureData));
    var programUpdate := PanelUtils.ChangedFields(ProgramForm(ledger.programs, candidatureId, programData));
    assert candidatureUpdate == Ok(candidatureDiff);
    assert programUpdate.Ok? <==> ProgramOf(ledger.programs, candidatureId).Some?;
    if candidatureUpdate.Err? || programUpdate.Err? {
      return Err([EditFormsOnly]);
    }
    assert programUpdate.value == programDiff;
    var saved := SaveCandidatureForms(ledger, candidatureId, reg, info, now);
    var programPk := saved.value;
    ghost var logs := auth.logs;
    var first := auth.SaveLog(None, LogEntry(user, Update, candidatureUpdate.value, "candidateregistration", candidatureId));
    var second := auth.SaveLog(None, LogEntry(user, Update, programUpdate.value, "electoralprogram", programPk));
    assert auth.logs == logs + [LogEntry(user, Update, candidatureUpdate.value, "candidateregistration", candidatureId),
                                LogEntry(user, Update, programUpdate.value, "electoralprogram", programPk)];
    return Ok(programPk);
  }

  /**
   * The same view with ActionLog.save as written: the first log entry raises
   * inside the transaction, so the candidature and program saves are rolled
   * back and the request fails, whatever was submitted.
   */
  method UpdateCandidatureAsWritten(ledger: Ledger, auth: AuthStore, user: nat, candidatureId: nat, reg: Registration, info: string,
                                    candidatureData: Submitted, programData: Submitted, now: int) returns (r: Result<nat>)
    requires ledger.Valid() && ledger.clock <= now
    modifies ledger, auth
    ensures ledger.Valid()
    ensures r.Err?
    ensures RegistrationSaveErrors(old(ledger.Snapshot()), Some(candidatureId), reg, now) != [] ==>
      r == Err(RegistrationSaveErrors(old(ledger.Snapshot()), Some(candidatureId), reg, now))
    ensures (RegistrationSaveErrors(old(ledger.Snapshot()), Some(candidatureId), reg, now) == [] &&
             ProgramOf(old(ledger.programs), candidatureId).None?) ==>
      r == Err([EditFormsOnly])
    ensures (RegistrationSaveErrors(old(ledger.Snapshot()), Some(candidatureId), reg, now) == [] &&
             ProgramOf(old(ledger.programs), candidatureId).Some?) ==>
      r == Err(LogSaveErrorsAsWritten(None, LogEntry(user, Update, PanelUtils.Diff(CandidatureForm(candidatureId, candidatureData)),
                                                     "candidateregistration", candidatureId)))
    ensures ledger.Snapshot() == old(ledger.Snapshot()) && ledger.programs == old(ledger.programs)
    ensures auth.logs == old(auth.logs) && auth.users == old(auth.users)
  {
    if candidatureId >= |ledger.registrations| {
      assert RegistrationSaveErrors(ledger.Snapshot(), Some(candidatureId), reg, now) == [RelatedObjectDoesNotExist];
      return Err([RelatedObjectDoesNotExist]);
    }
    var formErrors := RegistrationSaveErrors(ledger.Snapshot(), Some(candidatureId), reg, now);
    if formErrors != [] {
      return Err(formErrors);
    }
    var candidatureUpdate := PanelUtils.ChangedFields(CandidatureForm(candidatureId, candidatureData));
    var programUpdate := PanelUtils.ChangedFields(ProgramForm(ledger.programs, candidatureId, programData));
    if candidatureUpdate.Err? || programUpdate.Err? {
      return Err([EditFormsOnly]);
    }
    var tables, programs := ledger.Snapshot(), ledger.programs;
    ghost var clock := ledger.clock;
    var saved := ledger.SaveRegistration(Some(candidatureId), reg, now);
    var programPk := ledger.SaveProgram(candidatureId, info);
    var errs := LogSaveErrorsAsWritten(None, LogEntry(user, Update, candidatureUpdate.value, "candidateregistration", candidatureId));
    // The NameError always escapes: roll the transaction back.
    InvLaterClock(tables, clock, now);
    ledger.Restore(tables, programs);
    return Err(errs);
  }
}
