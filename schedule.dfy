/**
 * Schedule rules shared by both election domains: the "start in the future,
 * end after start" rule that Voting.clean and VotingRound.clean apply before
 * saving, the inclusive voting window a Vote must fall into, and the
 * three-way status (planned / active / ended) the panel shows for a window.
 * Instants are integers; `now` is always passed in.
 */
module Schedule {
  import opened Validation

  /** Which half of the creation rule a window breaks. */
  datatype WindowFault = StartNotInFuture | EndNotAfterStart

  /**
   * The creation rule as the models check it, in their order: first
   * `planned_start <= now` is refused, then `planned_start >= planned_end`.
   */
  function CreationFault(start: int, end: int, now: int): (r: Option<WindowFault>)
    ensures r == None <==> now < start < end
    ensures r == Some(StartNotInFuture) <==> start <= now
    ensures r == Some(EndNotAfterStart) <==> now < start && end <= start
  {
    if start <= now then Some(StartNotInFuture)
    else if start >= end then Some(EndNotAfterStart)
    else None
  }

  /**
   * Because every save re-runs the creation rule, a window that has started
   * can never be saved again, at this instant or any later one.
   */
  lemma StartedWindowNeverSaves(start: int, end: int, now: int, later: int)
    requires start <= now <= later
    ensures CreationFault(start, end, later) == Some(StartNotInFuture)
  {
  }

  /** Acceptance is downward closed in time: what is accepted now was accepted before. */
  lemma AcceptedEarlier(start: int, end: int, now: int, earlier: int)
    requires CreationFault(start, end, now) == None
    requires earlier <= now
    ensures CreationFault(start, end, earlier) == None
  {
  }

  /** The voting window, inclusive at both ends. */
  predicate InWindow(start: int, end: int, now: int) {
    start <= now <= end
  }

  /** The panel status of a voting or a round ('Zaplanowane', 'Aktywne', 'Zakończone'). */
  datatype Status = Planned | Active | Ended
  {
    function Label(): string {
      match this
      case Planned => "Zaplanowane"
      case Active => "Aktywne"
      case Ended => "Zakończone"
    }

    /** Position in the life cycle Planned -> Active -> Ended. */
    function Rank(): nat {
      match this
      case Planned => 0
      case Active => 1
      case Ended => 2
    }
  }

  /**
   * `_create_voting_status`: active on [start, end]; otherwise planned while
   * the end still lies ahead, else ended.
   */
  function VotingStatus(start: int, end: int, now: int): (s: Status)
    ensures s == Active <==> InWindow(start, end, now)
    ensures s == Planned <==> now < start && now < end
    ensures s == Ended <==> end <= now && !InWindow(start, end, now)
  {
    if start <= now && end >= now then Active
    else if end > now then Planned
    else Ended
  }

  /** For a window that passed the creation rule, "planned" means "not started yet". */
  lemma PlannedMeansNotStarted(start: int, end: int, now: int)
    requires start < end
    ensures VotingStatus(start, end, now) == Planned <==> now < start
    ensures VotingStatus(start, end, now) == Ended <==> end < now
  {
  }

  /** As time passes the status only moves forward: Planned -> Active -> Ended. */
  lemma StatusMonotone(start: int, end: int, t1: int, t2: int)
    requires t1 <= t2
    ensures VotingStatus(start, end, t1).Rank() <= VotingStatus(start, end, t2).Rank()
  {
  }

  /**
   * The SQL `Case` annotation of the voting list: active if start <= now <= end,
   * planned if start > now, otherwise ended.
   */
  function ListStatus(start: int, end: int, now: int): (s: Status)
    ensures s == Active <==> InWindow(start, end, now)
    ensures s == Planned <==> now < start
  {
    if start <= now && end >= now then Active
    else if start > now then Planned
    else Ended
  }

  /**
   * The list annotation and `_create_voting_status` agree at every instant
   * exactly when the window is not inverted; for an inverted window they
   * disagree at the instant `end`.
   */
  lemma ListStatusAgreement(start: int, end: int)
    ensures (forall now :: ListStatus(start, end, now) == VotingStatus(start, end, now)) <==> start <= end
  {
    if end < start {
      assert ListStatus(start, end, end) == Planned;
      assert VotingStatus(start, end, end) == Ended;
    }
  }
}
