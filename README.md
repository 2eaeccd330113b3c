# ekonomvote, modelled in Dafny

ekonomvote is a school's election web application with two domains:

- **samorzad** (student council): a voting has a schedule and a number of votes per user. Candidates register for a voting. Students cast votes inside the voting's window.
- **oscary** (teacher awards): a voting event has a FINAL round and, optionally, a NOMINATION round. Teachers compete for an oscar in a round, and users vote for them.

An administration panel creates and edits all of these. It writes an append-only audit log of every change.

This project models the core of the application as Dafny modules, one per source file:

| module | models |
|---|---|
| `Validation` | the error codes, `Option`/`Result`, the SmallIntegerField range |
| `Strings` | Python's `str.isspace` and `str.strip()`, as the form fields and `int()` use them |
| `Schedule` | the "start in the future, end after start" rule, the voting window and the panel's three-way status |
| `SamorzadModels` | Voting, CandidateRegistration, Vote and ElectoralProgram, with the checks their `clean()`/`save()` run, and the `Ledger` class that holds the tables and updates them in place |
| `SamorzadForms` | the ballot: `VoteForm` and `BaseVoteFormSet`, including Django's IntegerField parsing |
| `OscaryModels` | VotingEvent, VotingRound, Competition and Vote, with their checks, and the `AwardsStore` class |
| `OfficeAuth` | AzureUser's unique Microsoft id, the ActionLog choices and its append-only save, and the `AuthStore` class |
| `PanelUtils` | `get_changed_fields`, the audit diff of an edit form |
| `PanelForms` | `PanelLoginForm`: CharField cleaning and the password rule |
| `PanelHelpers` | the awards helpers: create an event with its rounds in one transaction, reschedule them in one transaction, and the listing annotations |
| `PanelSamorzad` | the list of votings a candidature may join, and `update_candidature` |
| `PanelOscary` | round status, the events a candidature may join, the status filter, and `update_voting_event` |

Conventions used throughout:

- **Tables and keys.** Tables are sequences, and a row's primary key is its index.
- **Validation.** Django's `full_clean` is modelled as the list of error codes it collects, in this order: field validators, then `clean()`, then unique fields and constraints. A save succeeds exactly when that list is empty. A failed save changes nothing.
- **Exceptions.** An exception that is not a ValidationError becomes its own error code:
  - `AttributeMissing` for an AttributeError or NameError;
  - `RelatedObjectDoesNotExist` for a missing related row or an unknown pk.
- **Time.** The current time is always a parameter `now`. The stores keep a ghost `clock`, the latest instant they were written, and their methods require `clock <= now`.
- **Transactions.** A transaction remembers the tables on entry. When a save inside it fails, `Restore` puts them back.

Each save is defined twice:

- as a function on values (`Apply`, `Outcome`), about which the invariants are proved;
- as a method of the store class, whose `ensures` ties the new state to that function.

The store invariants are:

- `SamorzadModels.Inv`:
  - references resolve;
  - every vote went to an eligible registration, inside its voting's window;
  - no (user, registration) pair is voted twice;
  - no user exceeds `votes_per_user` in a voting;
  - at most one registration per (candidate, voting);
  - at most 15 registrations per voting.
- `OscaryModels.Inv`:
  - references resolve;
  - every round has a proper window and the right number of winners;
  - round starts and ends are unique, and there is one round of each type per event;
  - competitions are unique;
  - a user has at most one vote per (oscar, round).

Where the written description of the system and the code disagree, the model follows the code:

- The description says a voting becomes immutable once it starts. The code only checks the new start date; see Findings.
- The description asks for the nomination round to end before the final round starts. Neither `VotingRound.clean` nor the create helper checks this.
  - The model does not enforce it either.
  - `PanelHelpers.ListingOfCreated` takes it as a hypothesis.
- The description says every vote must fall inside its round's window and go to an eligible target. In the awards domain `Vote.clean` and `Vote.save` check neither, and a competition has no eligibility flag.
  - `OscaryModels.OscarVoteErrors` and the store's invariant carry no window clause, so an awards vote is accepted at any instant.
  - `OscaryModels.VoteIgnoresSchedule` states this.
- The description treats the registration cap as configurable (15 or 50). The code has the literal 15, and so does the model (`RegistrationCap`).

## Model

| member | source | states |
|---|---|---|
| Schedule.CreationFault | samorzad/models.py:49-53 | The schedule is refused exactly when it does not satisfy now < start < end. A start not in the future is reported first. An end not after the start is reported only when the start is fine. |
| Schedule.StartedWindowNeverSaves | samorzad/models.py:49-57 | Once a schedule has started, re-running the creation rule refuses it at that instant and at every later one. |
| Schedule.AcceptedEarlier | oscary/models.py:121-124 | A schedule accepted at some instant was also accepted at every earlier instant. |
| Schedule.VotingStatus | panel/views/samorzad.py:34-39 | The status is Active exactly inside the inclusive window. It is Planned exactly when both start and end lie ahead. It is Ended when the end has passed and the instant is outside the window. |
| Schedule.PlannedMeansNotStarted | panel/views/samorzad.py:34-39 | For a window with start < end, Planned means "not started yet" and Ended means "end already passed". |
| Schedule.StatusMonotone | panel/views/samorzad.py:34-39 | As time passes the status only moves forward: Planned, then Active, then Ended. |
| Schedule.ListStatus | panel/views/samorzad.py:242-249 | The voting list's SQL `Case` is Active exactly inside the window and Planned exactly when the start lies ahead. |
| Schedule.ListStatusAgreement | panel/views/samorzad.py:242-249 | The list's `Case` and `_create_voting_status` agree at every instant if and only if start <= end. |
| SamorzadModels.VotingFieldErrors | samorzad/models.py:25-29 | `votes_per_user` is accepted exactly when it lies in 1..32767. `min_value` is reported exactly when it is below 1. |
| SamorzadModels.VotingCleanErrors | samorzad/models.py:49-53 | Voting.clean raises nothing exactly when now < start < end. A start not in the future gives only `invalid_planned_start_value`; a future start with an end not after it gives only `invalid_planned_end_value`. |
| SamorzadModels.VotingErrors | samorzad/models.py:49-57 | Voting's full_clean passes exactly when now < start < end and 1 <= votes_per_user <= 32767. Each error code is tied to the condition that raises it. |
| SamorzadModels.VotingSaveErrors | samorzad/models.py:49-57 | Corrected save rule: accepted exactly when full_clean passes and, for an update, the pk names a row whose stored start has not passed. |
| SamorzadModels.VotingSaveErrorsAsWritten | samorzad/models.py:49-57 | The save as written: accepted exactly when full_clean on the new values passes and the pk names a row. |
| SamorzadModels.RegistrationErrors | samorzad/models.py:151-176 | A registration is accepted exactly when: the voting exists; it holds fewer than 15 registrations or already holds this one; it has not started; and no other row has the same (candidate, voting). A missing voting reports both the foreign key's `invalid` and clean()'s `voting_does_not_exist`, and only then. |
| SamorzadModels.RegistrationSaveErrors | samorzad/models.py:161-176 | Corrected save rule: accepted exactly when the checks above pass and, for an update, the pk names a row and a registration that changes voting leaves one that has not started. |
| SamorzadModels.RegistrationSaveErrorsAsWritten | samorzad/models.py:161-176 | The save as written: accepted exactly when the target voting's checks pass and the pk names a row. |
| SamorzadModels.VoteError | samorzad/models.py:200-220 | A vote is accepted exactly when: its registration and voting exist; now is inside the inclusive window; the registration is eligible; the user has not voted for it; the user's count in that voting differs from `votes_per_user`; and the vote has no pk. |
| SamorzadModels.WindowCheckedFirst | samorzad/models.py:203-206 | Outside the window the error is always `voting_not_started` before the start and `voting_gone` after the end, whatever else is wrong. |
| SamorzadModels.StoredVoteNeverResaved | samorzad/models.py:211-220 | Re-saving a stored vote is always refused, and the refusal comes from an earlier check than the pk check. |
| SamorzadModels.NoVotesBeforeStart | samorzad/models.py:203-206 | In a store satisfying the invariant, no vote belongs to a voting that has not started yet. |
| SamorzadModels.Apply | samorzad/models.py:55-224 | The saves of Voting, CandidateRegistration and Vote: a refused save changes nothing; a save writes only its own table; no row is ever removed; stored votes are never rewritten. |
| SamorzadModels.Outcome | samorzad/models.py:55-224 | A save returns a pk exactly when full_clean collects no error, and otherwise the collected codes. The pk returned names the row that now holds the saved values; a vote is appended at the end. |
| SamorzadModels.SaveVotingKeepsInv | samorzad/models.py:49-57 | A voting save accepted by the corrected rule keeps the store invariant. |
| SamorzadModels.InsertRegistrationKeepsInv | samorzad/models.py:161-176 | Inserting an accepted registration keeps the invariant, including the 15-registration cap and the uniqueness of (candidate, voting). |
| SamorzadModels.UpdateRegistrationKeepsInv | samorzad/models.py:161-176 | An update accepted by the corrected rule keeps the invariant: it cannot move votes between votings. |
| SamorzadModels.SaveRegistrationKeepsInv | samorzad/models.py:174-176 | Any accepted registration save, insert or update, keeps the invariant. |
| SamorzadModels.SaveVoteKeepsInv | samorzad/models.py:200-224 | An accepted vote keeps the invariant: the user stays within `votes_per_user`, no duplicate appears, and the vote lies in the window. |
| SamorzadModels.ApplyKeepsInv | samorzad/models.py:161-224 | Every save, accepted or refused, keeps the invariant at the save's instant. |
| SamorzadModels.ReplayKeepsInv | samorzad/models.py:200-224 | Any sequence of saves issued in time order, starting from empty tables, ends in a store satisfying the invariant. |
| SamorzadModels.QuotaFromEmpty | samorzad/models.py:208-218 | From empty tables and any saves in time order, three things hold: no user ever holds more votes in a voting than `votes_per_user`; no (user, registration) is voted twice; and every vote went to an eligible registration inside its voting's window. |
| SamorzadModels.StartedReachable | samorzad/models.py:200-224 | The started example store (two votes of one user in a running voting) is built by five accepted saves. |
| SamorzadModels.RescheduleBreaksQuotaAsWritten | samorzad/models.py:49-57 | As written, a running voting holding two of a user's votes can be moved into the future with `votes_per_user` 1. The corrected rule refuses that save with `voting_is_live`. |
| SamorzadModels.MoveBreaksQuotaAsWritten | samorzad/models.py:161-176 | As written, two registrations holding a user's votes can be moved from a running voting into one allowing a single vote. The corrected rule refuses the first move. |
| SamorzadModels.ProgramOf | panel/views/samorzad.py:464 | The candidature's program is the first program pointing at it, and None exactly when there is none. |
| SamorzadModels.ProgramsAfterKeepsOneEach | samorzad/models.py:109 | Saving a candidature's program keeps at most one program per candidature, and the candidature's program then carries the new text. |
| SamorzadModels.Ledger.constructor | samorzad/models.py:12-224 | A fresh store is empty, satisfies the invariant, and its clock is the instant it was created at, so saves can follow. |
| SamorzadModels.Ledger.Restore | panel/views/samorzad.py:484-502 | A rollback puts back exactly the remembered tables and programs, and the store stays valid. |
| SamorzadModels.Ledger.SaveVoting | samorzad/models.py:55-57 | The new tables are `Apply` of the old ones, the result is `Outcome`, the programs are untouched, and the invariant holds. |
| SamorzadModels.Ledger.SaveRegistration | samorzad/models.py:174-176 | The new tables are `Apply` of the old ones, the result is `Outcome`, the programs are untouched, and the invariant holds. |
| SamorzadModels.Ledger.SaveVote | samorzad/models.py:222-224 | The same, and an accepted vote has no pk and is appended with the save's instant as `created_at`. |
| SamorzadModels.Ledger.SaveProgram | panel/views/samorzad.py:486-488 | The candidature's program is updated in place, or inserted when it has none. The returned pk is the existing program's, or the new last one, and holds it. The other tables are untouched. |
| SamorzadForms.ParseInteger | samorzad/forms.py:11 | Parsing succeeds exactly on an optionally signed, non-empty digit string. A `-` gives a value <= 0; otherwise the value is >= 0. |
| SamorzadForms.DecimalSuffixDropped | samorzad/forms.py:11 | IntegerField's `\.0*\s*$` substitution (DropDecimalSuffix): the result is a prefix of the input. It is shorter exactly when the input has a point followed only by zeros and then whitespace, and it then ends just before that point. |
| SamorzadForms.DigitsRoundTrip | samorzad/forms.py:11 | Reading back the decimal digits of n gives n. |
| SamorzadForms.ParseShowRoundTrip | samorzad/forms.py:11 | Every integer the page writes as a registration id is parsed back to itself. |
| SamorzadForms.CleanIntegerField | samorzad/forms.py:11 | Empty input gives `required`. Otherwise a trailing point with only zeros and whitespace after it is dropped and the rest is stripped; if that is not an integer literal the result is `invalid`, else its parsed value. |
| SamorzadForms.SingleDigitId | samorzad/forms.py:11 | A one-digit id from 1 to 9 is cleaned to its value. |
| SamorzadForms.CleanRenderedId | samorzad/forms.py:11 | Every id the page renders is cleaned back to itself, also when followed by a point and any number of zeros ("3.0", "3."). |
| SamorzadForms.FractionRejected | samorzad/forms.py:11 | "3.5" is `invalid`. |
| SamorzadForms.SurroundingSpacesIgnored | samorzad/forms.py:11 | " 7 " is cleaned to 7. |
| SamorzadForms.VoteFormCleanErrors | samorzad/forms.py:17-26 | No error exactly when the id names a registration of the form's voting. `candidature_does_not_exist` exactly when there is no id or no such registration. |
| SamorzadForms.CleanVoteForm | samorzad/forms.py:11-26 | A form is skipped exactly when it is an extra form left empty; a skipped form is valid and not filled. The field errors are as CleanIntegerField gives them. The form is valid exactly when it is skipped or names a registration of its voting. A valid form that is not skipped counts as filled. The result is `Cleaned`: a skipped form has no errors and no id, and otherwise the form error is what clean() gives for the field's id. |
| SamorzadForms.MissingRegistrationRejected | samorzad/forms.py:20-23 | An id naming no registration fails with `candidature_does_not_exist`. |
| SamorzadForms.ForeignRegistrationRejected | samorzad/forms.py:24-26 | An id naming another voting's registration fails with `candidature_not_in_voting`. |
| SamorzadForms.EmptyRequiredForm | samorzad/forms.py:11-26 | A required form left empty, or holding text, reports the field error and also `candidature_does_not_exist`, because clean() still runs. |
| SamorzadForms.CleanFormSet | samorzad/forms.py:34-50 | Form i is cleaned with the formset's voting and is an extra form from `requiredForms` on. The formset error is empty exactly when the filled count equals `votes_per_user`; otherwise it is `invalid_form_count`. The formset is valid (FormSetValid) exactly when that error is empty and every form is valid. |
| SamorzadForms.ValidFormsAllFilled | samorzad/forms.py:42-45 | When every form is valid, the filled count equals the number of forms that were not skipped. |
| SamorzadForms.ValidSubmittedForm | samorzad/forms.py:17-26 | A valid form that was not skipped names an existing registration of the voting. |
| SamorzadForms.FormSetClean | samorzad/forms.py:38-50 | The formset error is empty exactly when the number of forms with a non-zero cleaned id equals `votes_per_user`; otherwise it is `invalid_form_count`. |
| SamorzadForms.ValidBallot | samorzad/forms.py:38-50 | For any forms as cleaning leaves them (`Cleaned`): when all are valid and the filled count is `votes_per_user`, exactly `votes_per_user` forms were submitted, each naming a registration of the voting. |
| SamorzadForms.FormSetValid | samorzad/forms.py:34-50 | `formset.is_valid()` on the submitted values: when it holds, exactly `votes_per_user` forms were submitted and each names a registration of the formset's voting. |
| SamorzadForms.ThreeOfThree | samorzad/forms.py:38-50 | Three forms naming three registrations of the voting are all valid and all count as filled. |
| SamorzadForms.EmptyExtraForm | samorzad/forms.py:42-50 | With an empty extra form, every form is valid but only two count as filled. |
| OscaryModels.NewRound | oscary/models.py:101-105 | A round built with the field defaults is a FINAL round with one winner. |
| OscaryModels.EventSaveErrorsAsWritten | oscary/models.py:77-85 | As written, every event save raises, because clean() reads a field the event does not have. |
| OscaryModels.EventSaveErrors | oscary/models.py:77-85 | The intended event save is refused only for a pk naming no row. |
| OscaryModels.RoundFieldErrors | oscary/models.py:101-104 | The field checks pass exactly when the event exists and `max_tearchers_for_end` lies in 1..32767. |
| OscaryModels.RoundWindowError | oscary/models.py:121-124 | The schedule half of clean() passes exactly when now < start < end. |
| OscaryModels.RoundCleanError | oscary/models.py:120-130 | The intended clean() passes exactly when the schedule is fine and the winners rule holds (a nomination has at least 2, a final exactly 1). A schedule error is reported before the winners rule. |
| OscaryModels.RoundUniqueErrors | oscary/models.py:99-114 | Passes exactly when no other round has the same start or the same end and, when the event exists, no other round of the event has the same type. |
| OscaryModels.RoundSaveErrors | oscary/models.py:99-135 | The intended round save is accepted exactly when all of these hold: the pk names a row; the event exists; the winners lie in 1..32767; now < start < end; the winners rule holds; and start, end and (event, type) are free. |
| OscaryModels.RoundSaveErrorsAsWritten | oscary/models.py:120-135 | As written, a round with a good schedule always raises AttributeError. A round with a bad schedule reports that schedule error. |
| OscaryModels.NoRoundSavesAsWritten | oscary/models.py:126-130 | As written, no round save ever succeeds. |
| OscaryModels.DefaultFinalRoundAsWritten | oscary/models.py:101-130 | A default future FINAL round in a fresh event is refused as written and accepted by the intended rule. |
| OscaryModels.DefaultsSatisfyWinnersRule | oscary/models.py:101-105 | The field defaults satisfy the winners rule. In a fresh event a default round is accepted exactly when 0 < start < end. |
| OscaryModels.CompetitionSaveErrors | oscary/models.py:52-59 | A competition is accepted exactly when the pk names a row, the round exists and no other row has the same (teacher, oscar, round). A duplicate is reported as the constraint error. |
| OscaryModels.OscarVoteErrors | oscary/models.py:146-181 | A vote is accepted exactly when it has no pk, its competition exists and the user has no other vote for that oscar in that round or for that competition. A vote with a pk is always refused. |
| OscaryModels.VoteIgnoresSchedule | oscary/models.py:163-181 | A vote's verdict does not depend on the events or rounds, so a vote is accepted alike before, inside and after its round's window. |
| OscaryModels.SameCompetitionIsSameOscarRound | oscary/models.py:163-175 | A second vote for the same competition is always caught by clean()'s per-(oscar, round) check too. |
| OscaryModels.OscarRoundImpliesCompetition | oscary/models.py:146-154 | One vote per (oscar, round) implies the database's one-vote-per-competition constraint. |
| OscaryModels.Apply | oscary/models.py:83-181 | The saves of VotingEvent, VotingRound, Competition and Vote: a refused save changes nothing; a save writes only its own table; no row is ever removed; stored votes are never rewritten. |
| OscaryModels.Outcome | oscary/models.py:83-181 | A save returns a pk exactly when its checks collect no error, and otherwise the collected codes. The pk returned names the row that now holds the saved values; a vote is appended at the end. |
| OscaryModels.SaveEventKeepsInv | oscary/models.py:83-85 | Every event save keeps the invariant. |
| OscaryModels.SaveRoundKeepsInv | oscary/models.py:99-135 | Every round save keeps the invariant: windows, winners, unique starts and ends, one round per type per event. |
| OscaryModels.SaveCompetitionInsertKeepsInv | oscary/models.py:52-59 | Inserting a competition keeps the invariant. |
| OscaryModels.SaveCompetitionUpdateKeepsInv | oscary/models.py:52-59 | Editing a competition that no vote points at keeps the invariant. |
| OscaryModels.CompetitionEditMergesVotes | oscary/models.py:52-59 | Editing a competition that holds votes can be accepted and still break one-vote-per-(oscar, round). |
| OscaryModels.SaveVoteKeepsInv | oscary/models.py:163-181 | Every vote save keeps the invariant. |
| OscaryModels.ApplyKeepsInv | oscary/models.py:52-181 | Every save keeps the invariant, except an edit of a competition that holds votes. |
| OscaryModels.AwardsStore.constructor | oscary/models.py:15-181 | A fresh store is empty and satisfies the invariant. |
| OscaryModels.AwardsStore.Restore | panel/views/helpers.py:17-35 | A rollback puts back exactly the remembered tables. |
| OscaryModels.AwardsStore.SaveEvent | oscary/models.py:83-85 | The new tables are `Apply` of the old ones, the result is `Outcome`, and the invariant holds. |
| OscaryModels.AwardsStore.SaveRound | oscary/models.py:133-135 | The new tables are `Apply` of the old ones, the result is `Outcome`, and the invariant holds. |
| OscaryModels.AwardsStore.SaveCompetition | oscary/models.py:52-59 | The new tables are `Apply` of the old ones, the result is `Outcome`, and the invariant holds. |
| OscaryModels.AwardsStore.SaveVote | oscary/models.py:177-181 | The same, and a vote with a pk is refused and leaves the votes unchanged. |
| OfficeAuth.ActionType.Value | office_auth/models.py:15-18 | Each choice is stored as a non-empty string of at most 3 characters. |
| OfficeAuth.ParseActionType | office_auth/models.py:15-21 | A stored string reads back as a choice exactly when it is "ADD", "DEL" or "UP", and that choice stores as the same string. |
| OfficeAuth.ActionTypeRoundTrip | office_auth/models.py:15-21 | Every choice reads back as itself, and distinct choices store distinct strings. |
| OfficeAuth.LogSaveErrorsAsWritten | office_auth/models.py:30-33 | As written, every ActionLog save raises NameError. |
| OfficeAuth.LogSaveErrors | office_auth/models.py:30-33 | The intended save refuses exactly a record that already has a pk, with `log_action_forbidden`. |
| OfficeAuth.LogAfter | office_auth/models.py:30-33 | A new record is appended; a record with a pk leaves the log unchanged. |
| OfficeAuth.LogAppendOnly | office_auth/models.py:30-33 | After any sequence of saves, the old log is a prefix of the new one, and the log grew by exactly the number of saves without a pk. |
| OfficeAuth.UserSaveErrors | office_auth/models.py:9 | A user is accepted exactly when the pk names a row and any Microsoft id has at most 256 characters and is held by no other user. |
| OfficeAuth.SaveUserKeepsUnique | office_auth/models.py:9 | Every user save keeps non-null Microsoft ids unique. |
| OfficeAuth.NullIdsNeverCollide | office_auth/models.py:7-9 | Any number of users without a Microsoft id can be created. |
| OfficeAuth.AuthStore.constructor | office_auth/models.py:6-33 | A fresh store has no users and no log, and ids are unique. |
| OfficeAuth.AuthStore.SaveLog | office_auth/models.py:30-33 | The log becomes `LogAfter` of the old log. The result is the new record's pk, or the refusal for a record with a pk. The users are untouched. |
| OfficeAuth.AuthStore.SaveUser | office_auth/models.py:9 | The users become `UsersAfter` of the old ones, the save succeeds exactly when `UserSaveErrors` is empty, ids stay unique, and the log is untouched. |
| PanelUtils.ChangedFields | panel/views/utils.py:1-9 | A creation form (pk None or 0) is refused. Otherwise the result is the form's `Diff`: the keys are exactly the changed fields, and each entry pairs the initial value with the cleaned one (None when missing). |
| Strings.StripTrims | panel/forms.py:7-8 | `Strip`'s result is a contiguous slice of the input. Everything before and after it is whitespace. It neither starts nor ends with whitespace. |
| Strings.StripIdempotent | panel/forms.py:7-8 | Stripping twice is stripping once. |
| PanelForms.StrongPasswordLength | panel/forms.py:15-20 | A password that meets the rule (a lowercase letter, an uppercase letter, a digit and a punctuation character) has at least four characters, since the four classes are disjoint. |
| PanelForms.CleanCharField | panel/forms.py:7-8 | The field has a value exactly when it has no error. The value respects the length bounds and has no NUL. It is the stripped input, or `empty_value` when that is blank. A blank field with empty `empty_value` is `required`. |
| PanelForms.PlainFieldKept | panel/forms.py:7-8 | A field without surrounding whitespace or NUL, within its bounds, is cleaned to itself. |
| PanelForms.CleanLoginForm | panel/forms.py:10-21 | The field errors are the CharFields'. The form error is empty exactly when the cleaned password has a lowercase letter, an uppercase letter, a digit and a punctuation character. `cleaned_data` holds exactly the fields that cleaned. |
| PanelForms.ValidLoginForm | panel/forms.py:10-21 | A valid form carries a strong password of 8 to 1024 characters and a login of 1 to 1024 characters. |
| PanelForms.MissingPasswordRejected | panel/forms.py:12-14 | A missing or blank password gives `required` and also fails the complexity rule. |
| PanelForms.BlankLoginBecomesPlaceholder | panel/forms.py:7 | A missing or blank login is never an error: it is cleaned to "N/A". |
| PanelForms.StrongPasswordAccepted | panel/forms.py:15-20 | "Abcdef1!" with login "jan" is a valid form. |
| PanelForms.DigitlessPasswordRejected | panel/forms.py:15-20 | "Abcdefg!" has no digit and is refused by clean(). |
| PanelHelpers.CreateOutcome | panel/views/helpers.py:13-38 | Creating succeeds exactly when the final round (and, with nominations, the nomination round) fits. On success: the new event is appended; the final round and then the nomination round are appended; nothing else changes; the first round is the nomination round when there is one, else the final round. On failure nothing changes. |
| PanelHelpers.CreateSpec | panel/views/helpers.py:13-38 | All or nothing: a failed create leaves the tables as they were and hands no round on. A successful one returns the new event's pk and hands on a round of that event, the NOMINATION round exactly when the event has nominations. Competitions and votes are never touched. |
| PanelHelpers.CreateEventVoting | panel/views/helpers.py:17-37 | The store's new state, the result and the first round are those of CreateSpec, and the invariant holds. |
| PanelHelpers.CreateWithoutNominations | panel/views/helpers.py:19-27 | An event without nominations in an empty database gets one final round, which is populated first. |
| PanelHelpers.CreateWithNominations | panel/views/helpers.py:19-37 | With nominations the nomination round is stored second and populated first. |
| PanelHelpers.CreateRollsBack | panel/views/helpers.py:28-35 | A nomination round with one winner is refused, and the event and final round are rolled back too. |
| PanelHelpers.FindRound | panel/views/helpers.py:45-50 | The lookup finds the round exactly when the id names a round of the requested type. |
| PanelHelpers.UpdateOnlyReschedules | panel/views/helpers.py:40-56 | The update changes only the dates (and the nomination winners) of the two named rounds. Events, competitions, votes, every round's event and type, and every other round stay the same. On failure nothing changes. On success the rounds carry the form's values. |
| PanelHelpers.UpdateSpec | panel/views/helpers.py:40-56 | All or nothing: a failed update leaves the tables as they were. Events, competitions and votes never change and no round is added or removed. A successful update returns the event's pk, or None when there is no such event. |
| PanelHelpers.UpdateEventVoting | panel/views/helpers.py:40-56 | The store's new state and result are those of UpdateSpec, and the invariant holds. |
| PanelHelpers.FirstBy | panel/views/helpers.py:62-75 | The ordered subquery picks a round of the event that comes first in the order, and None exactly when the event has no round. |
| PanelHelpers.FirstByDetermined | panel/views/helpers.py:62-75 | With unique starts and ends, the round the subquery picks is determined. |
| PanelHelpers.Annotate | panel/views/helpers.py:62-89 | The last-round dates are NULL exactly when the event has no round; they are then the latest start and the latest end among the event's rounds. The first-round dates are present exactly for events with nominations that have rounds, and are the earliest start and earliest end. The winners are present exactly when there is a round, and are those of a round with the earliest start. |
| PanelHelpers.ListingOfCreated | panel/views/helpers.py:59-93 | A freshly created event is listed with the nomination round's dates and winners as first round and the final's dates as last; or, without nominations, with no first-round dates and one winner. |
| PanelSamorzad.InsertByStart | panel/views/samorzad.py:135 | Inserting a voting into an ordered list of distinct votings keeps it ordered by start and distinct, and adds exactly that voting. |
| PanelSamorzad.FutureVotings | panel/views/samorzad.py:135 | The list holds exactly the votings that have not started, each once, in ascending order of start. |
| PanelSamorzad.OfferedVotingsAcceptCandidatures | panel/views/samorzad.py:468 | Every voting offered in the list passes the start-time half of the registration rule. |
| PanelSamorzad.SaveCandidatureForms | panel/views/samorzad.py:484-488 | For a candidature that has a program: succeeds exactly when the registration save is accepted, and otherwise returns its errors and changes nothing. On success the tables are `Apply` of the old ones, and the existing program is rewritten in place with the new text; its pk is returned. |
| PanelSamorzad.UpdateCandidature | panel/views/samorzad.py:463-502 | Succeeds exactly when the candidature already has a program and the registration save is accepted. An invalid candidature form is reported first, with the registration's own error codes. A valid candidature without a program is then refused by get_changed_fields before the transaction. On success: the tables are `Apply` of the old ones; the program is rewritten in place; two log entries carrying the two forms' diffs (candidature, then program) are appended. On failure nothing is saved and nothing is logged. |
| PanelSamorzad.UpdateCandidatureAsWritten | panel/views/samorzad.py:463-502 | With ActionLog.save as written, the request always fails and nothing stays saved or logged. An invalid candidature form gives the registration's error codes; a valid candidature without a program fails in get_changed_fields; otherwise the first log save raises and the whole transaction (candidature, program and log) is rolled back. |
| PanelOscary.RoundStatus | panel/views/oscary.py:38-43 | A round's status is `_create_voting_status` of its window. |
| PanelOscary.StoredRoundStatus | panel/views/oscary.py:38-43 | A stored round is Planned exactly before it starts and Ended exactly after it ends. |
| PanelOscary.OfferedMeansNothingStarted | panel/views/oscary.py:553-561 | An event is offered to candidatures exactly when it has rounds and none of them has started. |
| PanelOscary.CandidatureEvents | panel/views/oscary.py:607-618 | The offered events, each once, in pk order, without the candidature's own event when editing. |
| PanelOscary.FilterByStatus | panel/views/oscary.py:222-223 | An empty selection keeps every event; the result is never longer than the listing. |
| PanelOscary.FilterKeepsSelected | panel/views/oscary.py:222-223 | With a selection, the result keeps exactly the events whose status is selected. |
| PanelOscary.FilterSingle | panel/views/oscary.py:222-223 | One event is kept exactly when no status is selected or its status is. |
| PanelOscary.FilterAppend | panel/views/oscary.py:222-223 | Filtering a concatenation filters each part: the kept events stay in the order they were listed. |
| PanelOscary.FilterIdempotent | panel/views/oscary.py:222-223 | Filtering twice by the same statuses is filtering once. |
| PanelOscary.AllStatusesKeepAll | panel/views/oscary.py:222-223 | Selecting all three statuses keeps every event. |
| PanelOscary.FirstOfType | panel/views/oscary.py:103 | Finds the lowest-pk round of the event with that type, and None exactly when there is none. |
| PanelOscary.UpdateViewTouchesOnlyItsEvent | panel/views/oscary.py:124-138 | Updating an event from its page changes no other event's rounds and no event, competition or vote. On success its final round carries the submitted dates. |
| PanelOscary.UpdateViewSpec | panel/views/oscary.py:124-135 | A failed update leaves the tables as they were; a successful one returns the event's pk. An event with nominations is updated only when it has a nomination round. |
| PanelOscary.UpdateIgnoresNominationFields | panel/views/oscary.py:133-135 | For an event stored without nominations, the submitted nomination fields have no effect. |
| PanelOscary.UpdateUsesStoredNominations | panel/views/oscary.py:128-135 | The submitted `with_nominations` never changes the update, whichever way the event was stored: the stored flag governs. |
| PanelOscary.UpdateVotingEventView | panel/views/oscary.py:102-138 | An unknown event gives 404 and an event without a final round gives a server error; both leave the store unchanged. Otherwise the view redirects with the helper's result, and the store is that of UpdateViewSpec. |

## Left out

- Concurrency and locking: requests are modelled one at a time. `transaction.atomic` is modelled by restoring the remembered tables.
- The ORM and the database are modelled as sequences of rows with pk = index. An unknown pk on an update is refused with `RelatedObjectDoesNotExist` (Django would insert a row with that pk).
- Querysets' `.first()` is modelled as the lowest pk. Pagination, sorting and filter query strings of the list views are not modelled.
- The event listing is in pk order.
- Microsoft OAuth, JWT handling and the login views are not modelled. Neither are the fixture generators, the chart endpoints, the templates, or localisation and time zones.
- Instants are integers, and `timezone.now()` is the parameter `now`.
- The stores' methods require `clock <= now`: the wall clock never runs backwards between saves.
- `populate_first_round` is not part of this model. `PanelHelpers.CreateEventVoting` returns the round it is handed instead.
- `get_event_status` is not part of this model. `PanelOscary.FilterByStatus` takes the status of an event as a parameter.
- The second status filter at panel/views/oscary.py:228-229 tests a bound method against the selected statuses. It keeps nothing, but it runs after the page was taken and only replaces the paginator's list, so the page shown is the one FilterByStatus gives.
- `str.isspace` is modelled as the fixed set of code points `Strings.IsSpace` lists. Unicode normalisation and encodings are not modelled.
- SamorzadForms.ParseInteger: models Python's `int` on a plain decimal literal of ASCII digits. `_` separators between digits and non-ASCII decimal digits (such as Arabic-Indic digits), which `int` accepts, are refused. Surrounding whitespace is stripped before it, in CleanIntegerField.
- SamorzadForms.CleanIntegerField: inherits that gap, so an id written with `_` or with non-ASCII digits is `invalid` here but accepted by Django. The field is not localized, so separators are not sanitized, as in the source.
- Form management data (TOTAL_FORMS and the like) and the HTML rendering of forms are not modelled. A submitted field is a string, or absent.
- The candidate, teacher and oscar tables are not modelled: their foreign keys are plain numbers. ElectoralProgramForm's own field validation is not modelled; a program is only its text.
- PanelSamorzad.UpdateCandidature: the bound forms' is_valid() is modelled as the registration's save rule only. CandidateRegistrationForm and ElectoralProgramForm are not part of this model, so field errors of their own (such as a blank program text) are not reported. The same holds for PanelSamorzad.UpdateCandidatureAsWritten.
- The views call competitions "candidatures"; the model uses the model's name, Competition.
- OscaryModels.AwardsStore.SaveCompetition: requires that an edited competition holds no votes. Competition.save does not check this, and without it the invariant can break (see OscaryModels.CompetitionEditMergesVotes).
- OscaryModels.ApplyKeepsInv: proved for every save except an edit of a competition that holds votes, for the same reason.
- PanelHelpers.ListingOfCreated: assumes the nomination round ends before the final round starts. The description of the system asks for this, but the code does not enforce it.

## Findings

| source | as written | input that shows it | evidently intended | confidence | as-written member | corrected member |
|---|---|---|---|---|---|---|
| samorzad/models.py:49-57 | Voting.clean checks only the new planned_start, so a running voting can be rescheduled into the future and its `votes_per_user` lowered. | Voting [10, 20] allowing 2 votes, with two votes of user 7; at instant 17 save it as [30, 40] allowing 1 vote. | A voting whose stored start has passed can no longer be edited. | not executed | SamorzadModels.RescheduleBreaksQuotaAsWritten | SamorzadModels.QuotaFromEmpty |
| samorzad/models.py:161-176 | CandidateRegistration.clean checks only the target voting, so a registration holding votes can be moved out of a running voting. | The store above plus voting [30, 40] allowing 1 vote; at instant 17 move both registrations into it. | A registration may not leave a voting that has started. | not executed | SamorzadModels.MoveBreaksQuotaAsWritten | SamorzadModels.QuotaFromEmpty |
| oscary/models.py:126-130 | VotingRound.clean reads `self.RoundType` and `self.max_winners`, which do not exist, so every round with a good schedule raises AttributeError. | A default FINAL round [10, 20] in a fresh event, saved at instant 0. | The winners rule on `VotingRoundType` and `max_tearchers_for_end`. | not executed | OscaryModels.DefaultFinalRoundAsWritten | OscaryModels.SaveRoundKeepsInv |
| oscary/models.py:77-81 | VotingEvent.clean reads `planned_start`, which the event does not have, so every event save raises AttributeError. | Any event, for instance `VotingEvent(with_nominations=False)`. | The event has no schedule of its own, so there is nothing to check. | not executed | OscaryModels.EventSaveErrorsAsWritten | PanelHelpers.CreateOutcome |
| office_auth/models.py:30-33 | ActionLog.save is declared without `self`, so every call raises NameError, and update_candidature always rolls back. | Any new log entry, for instance the first entry written by update_candidature. | Refuse a record that already has a pk, and otherwise insert it. | not executed | PanelSamorzad.UpdateCandidatureAsWritten | OfficeAuth.LogAppendOnly |
