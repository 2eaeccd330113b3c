/**
 * Shared vocabulary of the election rules: the error codes the models and forms
 * raise, and the Option / Result wrappers used for lookups and for operations
 * that either succeed or fail with error codes.
 */
module Validation {

  datatype Option<+T> = None | Some(value: T)

  /** A save either returns the stored row's key or every error code it collected. */
  datatype Result<+T> = Ok(value: T) | Err(codes: seq<ErrorCode>)

  /**
   * One constructor per failure the core can report. `Code()` gives the code
   * string the source attaches to its ValidationError; where the source raises
   * without a code (or raises something other than a ValidationError), the
   * string is the constraint name or a descriptive name, as noted below.
   */
  datatype ErrorCode =
    // Voting.clean and the voting schedule
    | InvalidPlannedStartValue
    | InvalidPlannedEndValue
    // field validators (MinValueValidator / integer range / form fields)
    | MinValue
    | MaxValue
    | MinLength
    | MaxLength
    | Required
    | Invalid
    | NullCharactersNotAllowed
    // CandidateRegistration.clean and its UniqueConstraint
    | VotingDoesNotExist
    | VotingCandidaturesLimitReached
    | VotingIsLive
    | UniqueCandidatePerVoting
    // samorzad Vote.clean
    | VotingNotStarted
    | VotingGone
    | IllegalCandidature
    | VoteDupliaction
    | VoteLimitReached
    | VoteActionForbidden
    // a foreign key that points at no row (an ObjectDoesNotExist, not a ValidationError)
    | RelatedObjectDoesNotExist
    // samorzad VoteForm / BaseVoteFormSet
    | CandidatureDoesNotExist
    | CandidatureNotInVoting
    | InvalidFormCount
    // oscary VotingRound (raised without a code in the source)
    | RoundStartNotInFuture
    | RoundStartNotBeforeEnd
    | NominationNeedsTwoWinners
    | FinalNeedsOneWinner
    | UniqueRoundTypePerEvent
    | Unique
    // oscary Competition / Vote
    | UniqueCompetition
    | UniqueVotePerCompetition
    | OneVotePerOscarPerRound
    | OscarVoteEditForbidden
    // an attribute the code names does not exist (AttributeError / NameError)
    | AttributeMissing
    // office_auth
    | LogActionForbidden
    | UniqueMicrosoftUserId
    // panel login form
    | PasswordTooWeak
    // a programming error the source raises as a bare Exception
    | EditFormsOnly
  {
    function Code(): string {
      match this
      case InvalidPlannedStartValue => "invalid_planned_start_value"
      case InvalidPlannedEndValue => "invalid_planned_end_value"
      case MinValue => "min_value"
      case MaxValue => "max_value"
      case MinLength => "min_length"
      case MaxLength => "max_length"
      case Required => "required"
      case Invalid => "invalid"
      case NullCharactersNotAllowed => "null_characters_not_allowed"
      case VotingDoesNotExist => "voting_does_not_exist"
      case VotingCandidaturesLimitReached => "voting_candidatures_limit_reached"
      case VotingIsLive => "voting_is_live"
      case UniqueCandidatePerVoting => "unique_candidate_per_voting"
      case VotingNotStarted => "voting_not_started"
      case VotingGone => "voting_gone"
      case IllegalCandidature => "illegal_candidature"
      case VoteDupliaction => "vote_dupliaction"
      case VoteLimitReached => "vote_limit_reached"
      case VoteActionForbidden => "vote_action_forbidden"
      case RelatedObjectDoesNotExist => "does_not_exist"
      case CandidatureDoesNotExist => "candidature_does_not_exist"
      case CandidatureNotInVoting => "candidature_not_in_voting"
      case InvalidFormCount => "invalid_form_count"
      case RoundStartNotInFuture => "round_start_not_in_future"
      case RoundStartNotBeforeEnd => "round_start_not_before_end"
      case NominationNeedsTwoWinners => "nomination_needs_two_winners"
      case FinalNeedsOneWinner => "final_needs_one_winner"
      case UniqueRoundTypePerEvent => "unique_round_type_per_event"
      case Unique => "unique"
      case UniqueCompetition => "unique_comp_per_teacher_per_oscar_per_round"
      case UniqueVotePerCompetition => "unique_vote_per_competition"
      case OneVotePerOscarPerRound => "one_vote_per_oscar_per_round"
      case OscarVoteEditForbidden => "vote_edit_forbidden"
      case AttributeMissing => "attribute_error"
      case LogActionForbidden => "log_action_forbidden"
      case UniqueMicrosoftUserId => "unique"
      case PasswordTooWeak => "password_too_weak"
      case EditFormsOnly => "edit_forms_only"
    }
  }

  /** Django's SmallIntegerField range on the database side. */
  const SmallIntMin: int := -32768
  const SmallIntMax: int := 32767
}
