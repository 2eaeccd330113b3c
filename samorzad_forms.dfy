/**
 * Ballot submission: one VoteForm per chosen candidature, gathered in a
 * BaseVoteFormSet that hands every form the same voting and demands exactly
 * `votes_per_user` filled forms.
 *
 * Registrations are the ledger's table: the registration with database id
 * `id` is the row at index `id - 1`, so id 0 and negative ids name no row.
 * Django's form cleaning is followed step by step: the field is cleaned
 * first, `clean()` then runs even when the field failed (it then reads
 * `None` from cleaned_data), and an extra form that is left empty is skipped
 * with empty cleaned_data and no errors.
 */
module SamorzadForms {
  import opened Validation
  import opened Strings
  import SamorzadModels

  // ------------------------------------------------ the integer field

  /** What the browser submitted for `candidate_registration_id`. */
  datatype FieldValue = Absent | Text(s: string)

  predicate IsDigit(c: char) {
    '0' <= c <= '9'
  }

  predicate AllDigits(s: string) {
    forall i :: 0 <= i < |s| ==> IsDigit(s[i])
  }

  /** A decimal literal: an optional sign followed by at least one digit. */
  predicate IsIntegerLiteral(s: string) {
    if |s| > 0 && (s[0] == '-' || s[0] == '+') then |s| > 1 && AllDigits(s[1..])
    else |s| > 0 && AllDigits(s)
  }

  /** The value of a digit string, most significant digit first. */
  function DigitsValue(s: string): (n: nat)
    requires AllDigits(s)
    ensures s == [] ==> n == 0
  {
    if s == [] then 0
    else
      assert IsDigit(s[|s| - 1]);
      DigitsValue(s[..|s| - 1]) * 10 + (s[|s| - 1] as int - '0' as int)
  }

  /** `int(value)` on a submitted string; None where Python raises ValueError. */
  function ParseInteger(s: string): (r: Option<int>)
    ensures r.Some? <==> IsIntegerLiteral(s)
    ensures r.Some? && s[0] == '-' ==> r.value <= 0
    ensures r.Some? && s[0] != '-' ==> r.value >= 0
  {
    if |s| > 0 && s[0] == '-' then
      if |s| > 1 && AllDigits(s[1..]) then Some(0 - DigitsValue(s[1..]) as int) else None
    else if |s| > 0 && s[0] == '+' then
      if |s| > 1 && AllDigits(s[1..]) then Some(DigitsValue(s[1..])) else None
    else if |s| > 0 && AllDigits(s) then Some(DigitsValue(s))
    else None
  }

  /** The decimal digits of a natural number, as `str(n)` writes them. */
  function NatDigits(n: nat): (s: string)
    ensures |s| > 0 && AllDigits(s)
  {
    var d := [('0' as int + n % 10) as char];
    if n < 10 then d else NatDigits(n / 10) + d
  }

  lemma {:induction false} DigitsRoundTrip(n: nat)
    ensures DigitsValue(NatDigits(n)) == n
  {
    var s := NatDigits(n);
    if n >= 10 {
      DigitsRoundTrip(n / 10);
      assert s[..|s| - 1] == NatDigits(n / 10);
    }
  }

  /** `str(n)` for any integer. */
  function ShowInteger(n: int): string {
    if n < 0 then "-" + NatDigits(-n) else NatDigits(n)
  }

  /** The field reads back every integer the page renders as a registration id. */
  lemma ParseShowRoundTrip(n: int)
    ensures ParseInteger(ShowInteger(n)) == Some(n)
  {
    if n < 0 {
      DigitsRoundTrip(-n);
      assert ShowInteger(n)[1..] == NatDigits(-n);
    } else {
      DigitsRoundTrip(n);
    }
  }

  /** The field is empty when nothing or the empty string was sent. */
  predicate IsEmpty(v: FieldValue) {
    v.Absent? || v.s == ""
  }

  /** Zeros, then whitespace: what may follow the point in the pattern `\.0*\s*$`. */
  predicate ZerosThenSpaces(t: string) {
    && (forall i :: 0 <= i < |t| ==> t[i] == '0' || IsSpace(t[i]))
    && (forall i, j :: 0 <= i < j < |t| && t[j] == '0' ==> t[i] == '0')
  }

  /** `s[i:]` is a match of `\.0*\s*$`: a point followed only by zeros and then whitespace. */
  predicate DecimalTailAt(s: string, i: nat) {
    i < |s| && s[i] == '.' && ZerosThenSpaces(s[i + 1..])
  }

  /** Moving back from `j`: the start of the run of zeros that ends at `j` (its meaning is BackZerosStops). */
  function BackZeros(s: string, j: nat): (z: nat)
    requires j <= |s|
    ensures z <= j
  {
    if 0 < j && s[j - 1] == '0' then BackZeros(s, j - 1) else j
  }

  /** BackZeros passes over zeros only, and stops after the last character that is not one. */
  lemma {:induction false} BackZerosStops(s: string, j: nat)
    requires j <= |s|
    ensures forall k :: BackZeros(s, j) <= k < j ==> s[k] == '0'
    ensures 0 < BackZeros(s, j) ==> s[BackZeros(s, j) - 1] != '0'
  {
    if 0 < j && s[j - 1] == '0' {
      BackZerosStops(s, j - 1);
    }
  }

  /**
   * `re.sub(r"\.0*\s*$", "", s)`, as IntegerField strips a trailing decimal
   * part (its meaning is DecimalSuffixDropped).
   */
  function DropDecimalSuffix(s: string): string {
    s[..DecimalEnd(s)]
  }

  /** Where the `\.0*\s*$` match starts, or |s| when there is none. */
  function DecimalEnd(s: string): (e: nat)
    ensures e <= |s|
  {
    var z := BackZeros(s, BackSpaces(s, 0, |s|));
    if 0 < z && s[z - 1] == '.' then z - 1 else |s|
  }

  /**
   * The point and everything after it are cut off exactly when they are a
   * point followed only by zeros and whitespace; otherwise the string is
   * left alone.
   */
  lemma DecimalSuffixDropped(s: string)
    ensures var r := DropDecimalSuffix(s);
      && |r| <= |s| && r == s[..|r|]
      && (|r| < |s| ==> DecimalTailAt(s, |r|))
      && (|r| == |s| ==> forall i :: 0 <= i < |s| ==> !DecimalTailAt(s, i))
  {
    var m := BackSpaces(s, 0, |s|);
    var z := BackZeros(s, m);
    BackSpacesStops(s, 0, |s|);
    BackZerosStops(s, m);
    if 0 < z && s[z - 1] == '.' {
      TailAfterPoint(s, m, z);
    } else {
      NoTailElsewhere(s, m, z);
    }
  }

  lemma TailAfterPoint(s: string, m: nat, z: nat)
    requires m <= |s| && z <= m && 0 < z && s[z - 1] == '.'
    requires forall k :: m <= k < |s| ==> IsSpace(s[k])
    requires forall k :: z <= k < m ==> s[k] == '0'
    ensures DecimalTailAt(s, z - 1)
  {
    var t := s[z..];
    assert !IsSpace('0');
    forall i, j | 0 <= i < j < |t| && t[j] == '0'
      ensures t[i] == '0'
    {
      assert s[z + j] == '0';
    }
  }

  lemma NoTailElsewhere(s: string, m: nat, z: nat)
    requires m <= |s| && z <= m
    requires forall k :: m <= k < |s| ==> IsSpace(s[k])
    requires 0 < m ==> !IsSpace(s[m - 1])
    requires forall k :: z <= k < m ==> s[k] == '0'
    requires 0 < z ==> s[z - 1] != '0'
    requires !(0 < z && s[z - 1] == '.')
    ensures forall i :: 0 <= i < |s| ==> !DecimalTailAt(s, i)
  {
    forall i | 0 <= i < |s| && DecimalTailAt(s, i)
      ensures false
    {
      var t := s[i + 1..];
      assert !IsSpace('.');
      assert i < m;
      if i + 1 < m {
        assert t[m - 1 - (i + 1)] == s[m - 1];
        assert s[m - 1] == '0';
        forall k | i < k < m
          ensures s[k] == '0'
        {
          if k < m - 1 {
            assert t[k - (i + 1)] == s[k];
          }
        }
      }
    }
  }

  /**
   * What `int()` is given once IntegerField.to_python has cut a trailing
   * decimal part; `int()` itself ignores surrounding whitespace.
   */
  function IntegerPart(s: string): string {
    Strip(DropDecimalSuffix(s))
  }

  /**
   * `forms.IntegerField().clean`: empty gives `required`; otherwise a
   * trailing point with only zeros and whitespace after it is cut off and
   * what is left, stripped, must be a decimal literal, or `invalid`.
   */
  function CleanIntegerField(v: FieldValue): (r: Result<int>)
    ensures r == Err([Required]) <==> IsEmpty(v)
    ensures r == Err([Invalid]) <==> !IsEmpty(v) && !IsIntegerLiteral(IntegerPart(v.s))
    ensures r.Ok? <==> !IsEmpty(v) && IsIntegerLiteral(IntegerPart(v.s))
    ensures r.Ok? ==> r.value == ParseInteger(IntegerPart(v.s)).value
  {
    if IsEmpty(v) then Err([Required])
    else match ParseInteger(IntegerPart(v.s))
      case None => Err([Invalid])
      case Some(n) => Ok(n)
  }

  /** A rendered id contains neither a point nor whitespace. */
  lemma RenderedIdPlain(n: int)
    ensures |ShowInteger(n)| > 0
    ensures forall i :: 0 <= i < |ShowInteger(n)| ==> ShowInteger(n)[i] != '.' && !IsSpace(ShowInteger(n)[i])
  {
    var s := ShowInteger(n);
    if n < 0 {
      assert s[1..] == NatDigits(-n);
      forall i | 1 <= i < |s|
        ensures IsDigit(s[i])
      {
        assert s[i] == s[1..][i - 1];
      }
    }
  }

  /**
   * The field reads back every id the page renders, also when a decimal
   * point and zeros follow it, as in "3.0" or "3.".
   */
  lemma CleanRenderedId(n: int, zeros: nat)
    ensures CleanIntegerField(Text(ShowInteger(n))) == Ok(n)
    ensures CleanIntegerField(Text(ShowInteger(n) + "." + seq(zeros, _ => '0'))) == Ok(n)
  {
    var d := ShowInteger(n);
    RenderedIdPlain(n);
    PlainStrip(d);
    ParseShowRoundTrip(n);
    DecimalSuffixDropped(d);
    assert !DecimalTailAt(d, |DropDecimalSuffix(d)|);
    var s := d + "." + seq(zeros, _ => '0');
    assert s[|d| + 1..] == seq(zeros, _ => '0');
    assert !IsSpace('0');
    assert DecimalTailAt(s, |d|);
    DecimalSuffixDropped(s);
    var r := DropDecimalSuffix(s);
    assert |r| < |s|;
    assert s[|r|] == '.';
    assert |r| == |d|;
    assert r == d;
  }

  /** A fractional part that is not all zeros is refused. */
  lemma FractionRejected()
    ensures CleanIntegerField(Text("3.5")) == Err([Invalid])
  {
    var s := "3.5";
    assert BackSpaces(s, 0, 3) == 3;
    assert BackZeros(s, 3) == 3;
    assert DropDecimalSuffix(s) == s;
    PlainStrip(s);
    assert !IsDigit(s[1]);
  }

  /** Whitespace around the id is ignored, as `int()` ignores it. */
  lemma SurroundingSpacesIgnored()
    ensures CleanIntegerField(Text(" 7 ")) == Ok(7)
  {
    var t := " 7 ";
    assert BackSpaces(t, 0, 3) == 2;
    assert BackZeros(t, 2) == 2;
    assert DropDecimalSuffix(t) == t;
    assert SkipSpaces(t, 0) == 1;
    assert BackSpaces(t, 1, 3) == 2;
    assert Strip(t) == t[1..2] == "7";
    assert "7"[..0] == [];
  }

  // ------------------------------------------------------ VoteForm

  /**
   * A cleaned form. `cleanedId` is the field's entry in cleaned_data (None
   * when the field failed or the form was skipped); `skipped` marks an
   * empty-permitted form left unchanged, whose cleaned_data is `{}`.
   */
  datatype FormResult = FormResult(
    fieldErrors: seq<ErrorCode>,
    formErrors: seq<ErrorCode>,
    cleanedId: Option<int>,
    skipped: bool)
  {
    predicate IsValid() {
      fieldErrors == [] && formErrors == []
    }

    /** `form.cleaned_data and form.cleaned_data.get('candidate_registration_id')` */
    predicate IsFilled() {
      !skipped && cleanedId.Some? && cleanedId.value != 0
    }
  }

  /** `CandidateRegistration.objects.get(id=id)`: the row with that database id, if any. */
  predicate RegistrationExists(regs: seq<SamorzadModels.Registration>, id: int) {
    1 <= id <= |regs|
  }

  /** VoteForm.clean: the id must name a registration, and that registration must belong to `voting`. */
  function VoteFormCleanErrors(regs: seq<SamorzadModels.Registration>, voting: nat, id: Option<int>): (errs: seq<ErrorCode>)
    ensures errs == [] <==> id.Some? && RegistrationExists(regs, id.value) && regs[id.value - 1].voting == voting
    ensures errs == [CandidatureDoesNotExist] <==> id.None? || !RegistrationExists(regs, id.value)
  {
    if id.None? || !RegistrationExists(regs, id.value) then [CandidatureDoesNotExist]
    else if regs[id.value - 1].voting != voting then [CandidatureNotInVoting]
    else []
  }

  /** `VoteForm(data, voting=voting, empty_permitted=emptyPermitted).full_clean()` */
  function CleanVoteForm(v: FieldValue, emptyPermitted: bool, regs: seq<SamorzadModels.Registration>, voting: nat): (f: FormResult)
    ensures f.skipped <==> emptyPermitted && IsEmpty(v)
    ensures f.skipped ==> f.IsValid() && !f.IsFilled()
    ensures !f.skipped ==> f.fieldErrors == (if IsEmpty(v) then [Required] else if IsIntegerLiteral(IntegerPart(v.s)) then [] else [Invalid])
    ensures f.IsValid() <==>
      f.skipped ||
      (!IsEmpty(v) && IsIntegerLiteral(IntegerPart(v.s)) && RegistrationExists(regs, ParseInteger(IntegerPart(v.s)).value) &&
       regs[ParseInteger(IntegerPart(v.s)).value - 1].voting == voting)
    ensures f.IsValid() && !f.skipped ==> f.IsFilled()
    ensures Cleaned(f, regs, voting)
  {
    if emptyPermitted && IsEmpty(v) then FormResult([], [], None, true)
    else
      match CleanIntegerField(v)
      case Err(codes) => FormResult(codes, VoteFormCleanErrors(regs, voting, None), None, false)
      case Ok(id) => FormResult([], VoteFormCleanErrors(regs, voting, Some(id)), Some(id), false)
  }

  /** A form whose id names no registration fails with `candidature_does_not_exist`. */
  lemma MissingRegistrationRejected(v: FieldValue, emptyPermitted: bool, regs: seq<SamorzadModels.Registration>, voting: nat)
    requires !IsEmpty(v) && IsIntegerLiteral(IntegerPart(v.s)) && !RegistrationExists(regs, ParseInteger(IntegerPart(v.s)).value)
    ensures CleanVoteForm(v, emptyPermitted, regs, voting).formErrors == [CandidatureDoesNotExist]
  {
  }

  /** A form whose registration belongs to another voting fails with `candidature_not_in_voting`. */
  lemma ForeignRegistrationRejected(v: FieldValue, emptyPermitted: bool, regs: seq<SamorzadModels.Registration>, voting: nat)
    requires !IsEmpty(v) && IsIntegerLiteral(IntegerPart(v.s))
    requires RegistrationExists(regs, ParseInteger(IntegerPart(v.s)).value) && regs[ParseInteger(IntegerPart(v.s)).value - 1].voting != voting
    ensures CleanVoteForm(v, emptyPermitted, regs, voting).formErrors == [CandidatureNotInVoting]
  {
  }

  /**
   * A required form left empty reports the field error `required` and, since
   * clean() still runs with no id, also `candidature_does_not_exist`.
   */
  lemma EmptyRequiredForm(regs: seq<SamorzadModels.Registration>, voting: nat)
    ensures CleanVoteForm(Text(""), false, regs, voting) == FormResult([Required], [CandidatureDoesNotExist], None, false)
    ensures CleanVoteForm(Text("abc"), false, regs, voting) == FormResult([Invalid], [CandidatureDoesNotExist], None, false)
  {
  }

  // -------------------------------------------------- BaseVoteFormSet

  /** The `filled_forms` counter of BaseVoteFormSet.clean. */
  function FilledCount(forms: seq<FormResult>): (n: nat)
    ensures n <= |forms|
  {
    if forms == [] then 0
    else FilledCount(forms[..|forms| - 1]) + (if forms[|forms| - 1].IsFilled() then 1 else 0)
  }

  /** Form `i` as `_construct_form(i)` builds it: with the formset's own voting. */
  function FormAt(values: seq<FieldValue>, i: nat, requiredForms: nat, regs: seq<SamorzadModels.Registration>, voting: nat): FormResult
    requires i < |values|
  {
    CleanVoteForm(values[i], i >= requiredForms, regs, voting)
  }

  /**
   * `formset.full_clean()`: builds and cleans each form with the formset's
   * voting (forms at index `requiredForms` and beyond are extra forms that
   * may stay empty), then runs the formset's clean(). `errors` holds the
   * formset's non-form errors.
   */
  method CleanFormSet(values: seq<FieldValue>, requiredForms: nat, regs: seq<SamorzadModels.Registration>, voting: nat, votesPerUser: int)
    returns (forms: seq<FormResult>, errors: seq<ErrorCode>)
    ensures |forms| == |values|
    ensures forall i :: 0 <= i < |values| ==> forms[i] == FormAt(values, i, requiredForms, regs, voting)
    ensures errors == [] <==> FilledCount(forms) == votesPerUser
    ensures errors != [] ==> errors == [InvalidFormCount]
    ensures FormSetValid(values, requiredForms, regs, voting, votesPerUser) <==>
      errors == [] && forall i :: 0 <= i < |forms| ==> forms[i].IsValid()
  {
    forms := [];
    var i := 0;
    while i < |values|
      invariant 0 <= i <= |values|
      invariant |forms| == i
      invariant forall k :: 0 <= k < i ==> forms[k] == FormAt(values, k, requiredForms, regs, voting)
    {
      forms := forms + [FormAt(values, i, requiredForms, regs, voting)];
      i := i + 1;
    }
    ghost var built := BuiltForms(values, 0, requiredForms, regs, voting);
    assert forall i :: 0 <= i < |forms| ==> forms[i] == built[i];
    assert forms == built;
    errors := FormSetClean(forms, votesPerUser);
  }

  /**
   * BaseVoteFormSet.clean: counts the forms whose cleaned data holds a
   * non-zero id and refuses the formset with `invalid_form_count` unless
   * that count is `votes_per_user`.
   */
  method FormSetClean(forms: seq<FormResult>, votesPerUser: int) returns (errors: seq<ErrorCode>)
    ensures errors == [] <==> FilledCount(forms) == votesPerUser
    ensures errors != [] ==> errors == [InvalidFormCount]
  {
    var filled := 0;
    var j := 0;
    while j < |forms|
      invariant 0 <= j <= |forms|
      invariant filled == FilledCount(forms[..j])
    {
      assert forms[..j + 1][..j] == forms[..j];
      if forms[j].IsFilled() {
        filled := filled + 1;
      }
      j := j + 1;
    }
    assert forms[..|forms|] == forms;
    errors := if filled != votesPerUser then [InvalidFormCount] else [];
  }

  /** The number of forms that were not skipped. */
  function SubmittedCount(forms: seq<FormResult>): (n: nat)
    ensures n <= |forms|
  {
    if forms == [] then 0
    else SubmittedCount(forms[..|forms| - 1]) + (if forms[|forms| - 1].skipped then 0 else 1)
  }

  lemma {:induction false} ValidFormsAllFilled(forms: seq<FormResult>)
    requires forall i :: 0 <= i < |forms| ==> forms[i].IsValid()
    requires forall i :: 0 <= i < |forms| ==> forms[i].IsValid() && !forms[i].skipped ==> forms[i].IsFilled()
    requires forall i :: 0 <= i < |forms| ==> forms[i].skipped ==> !forms[i].IsFilled()
    ensures FilledCount(forms) == SubmittedCount(forms)
  {
    if forms != [] {
      ValidFormsAllFilled(forms[..|forms| - 1]);
    }
  }

  /** A valid form that was not skipped names an existing registration of the voting. */
  lemma ValidSubmittedForm(v: FieldValue, emptyPermitted: bool, regs: seq<SamorzadModels.Registration>, voting: nat)
    requires CleanVoteForm(v, emptyPermitted, regs, voting).IsValid()
    requires !CleanVoteForm(v, emptyPermitted, regs, voting).skipped
    ensures var f := CleanVoteForm(v, emptyPermitted, regs, voting);
      f.cleanedId.Some? && RegistrationExists(regs, f.cleanedId.value) && regs[f.cleanedId.value - 1].voting == voting
  {
  }

  /**
   * What cleaning leaves in a form: a skipped form carries no errors and no
   * id; any other form has had clean() check the id its field produced.
   */
  predicate Cleaned(f: FormResult, regs: seq<SamorzadModels.Registration>, voting: nat) {
    if f.skipped then f.IsValid() && f.cleanedId.None?
    else f.formErrors == VoteFormCleanErrors(regs, voting, f.cleanedId)
  }

  /**
   * A valid ballot: exactly `votesPerUser` forms were submitted, and each of
   * them names an existing registration of the formset's voting.
   */
  lemma ValidBallot(forms: seq<FormResult>, regs: seq<SamorzadModels.Registration>, voting: nat, votesPerUser: int)
    requires forall i :: 0 <= i < |forms| ==> Cleaned(forms[i], regs, voting)
    requires FilledCount(forms) == votesPerUser && forall i :: 0 <= i < |forms| ==> forms[i].IsValid()
    ensures SubmittedCount(forms) == votesPerUser
    ensures forall i :: 0 <= i < |forms| && !forms[i].skipped ==>
      forms[i].cleanedId.Some? && RegistrationExists(regs, forms[i].cleanedId.value) &&
      regs[forms[i].cleanedId.value - 1].voting == voting
  {
    ValidFormsAllFilled(forms);
  }

  /** The forms `_construct_form` builds for the submitted values from index `start` on. */
  function BuiltForms(values: seq<FieldValue>, start: nat, requiredForms: nat, regs: seq<SamorzadModels.Registration>, voting: nat): (forms: seq<FormResult>)
    requires start <= |values|
    ensures |forms| == |values| - start
    ensures forall i :: start <= i < |values| ==> forms[i - start] == FormAt(values, i, requiredForms, regs, voting)
    ensures forall i :: 0 <= i < |forms| ==> Cleaned(forms[i], regs, voting)
    decreases |values| - start
  {
    if start == |values| then []
    else [FormAt(values, start, requiredForms, regs, voting)] + BuiltForms(values, start + 1, requiredForms, regs, voting)
  }

  /**
   * `formset.is_valid()`: every form is valid and the formset's clean()
   * raised nothing. A valid formset is a ballot of exactly `votes_per_user`
   * submitted forms, each naming a registration of the formset's voting.
   */
  predicate FormSetValid(values: seq<FieldValue>, requiredForms: nat, regs: seq<SamorzadModels.Registration>, voting: nat,
                         votesPerUser: int): (b: bool)
    ensures b ==> var forms := BuiltForms(values, 0, requiredForms, regs, voting);
      && SubmittedCount(forms) == votesPerUser
      && forall i :: 0 <= i < |forms| && !forms[i].skipped ==>
           forms[i].cleanedId.Some? && RegistrationExists(regs, forms[i].cleanedId.value) &&
           regs[forms[i].cleanedId.value - 1].voting == voting
  {
    var forms := BuiltForms(values, 0, requiredForms, regs, voting);
    if FilledCount(forms) == votesPerUser && forall i :: 0 <= i < |forms| ==> forms[i].IsValid() then
      ValidBallot(forms, regs, voting, votesPerUser);
      true
    else false
  }

  /** A one-digit id is read as that digit. */
  lemma SingleDigitId(c: char)
    requires '1' <= c <= '9'
    ensures CleanIntegerField(Text([c])) == Ok(c as int - '0' as int)
  {
    var s := [c];
    assert BackSpaces(s, 0, 1) == 1;
    assert BackZeros(s, 1) == 1;
    assert DropDecimalSuffix(s) == s;
    PlainStrip(s);
    assert s[..0] == [];
  }

  /** The ids "1", "2" and "3" are read as themselves. */
  lemma SmallIds()
    ensures CleanIntegerField(Text("1")) == Ok(1)
    ensures CleanIntegerField(Text("2")) == Ok(2)
    ensures CleanIntegerField(Text("3")) == Ok(3)
  {
    SingleDigitId('1');
    SingleDigitId('2');
    SingleDigitId('3');
  }

  /** Three filled forms for a voting allowing three votes are each valid and all count as filled. */
  lemma ThreeOfThree(regs: seq<SamorzadModels.Registration>)
    requires |regs| == 3 && forall i :: 0 <= i < 3 ==> regs[i].voting == 0
    ensures var v := [Text("1"), Text("2"), Text("3")];
      var forms := [FormAt(v, 0, 0, regs, 0), FormAt(v, 1, 0, regs, 0), FormAt(v, 2, 0, regs, 0)];
      FilledCount(forms) == 3 && forall i :: 0 <= i < 3 ==> forms[i].IsValid()
  {
    SmallIds();
    var v := [Text("1"), Text("2"), Text("3")];
    var full := [FormAt(v, 0, 0, regs, 0), FormAt(v, 1, 0, regs, 0), FormAt(v, 2, 0, regs, 0)];
    assert full[0] == FormResult([], [], Some(1), false);
    assert full[1] == FormResult([], [], Some(2), false);
    assert full[2] == FormResult([], [], Some(3), false);
    assert full[..2][..1] == [full[0]] && full[..2] == full[..3][..2] && full[..3] == full;
    assert [full[0]][..0] == [];
    assert FilledCount([full[0]]) == 1;
    assert FilledCount(full[..2]) == 2;
  }

  /**
   * Two filled forms and an empty extra form for the same voting: every form
   * is valid on its own, but only two count as filled, so the formset's
   * `invalid_form_count` check refuses them.
   */
  lemma EmptyExtraForm(regs: seq<SamorzadModels.Registration>)
    requires |regs| == 3 && forall i :: 0 <= i < 3 ==> regs[i].voting == 0
    ensures var v := [Text("1"), Text("2"), Text("")];
      var forms := [FormAt(v, 0, 0, regs, 0), FormAt(v, 1, 0, regs, 0), FormAt(v, 2, 0, regs, 0)];
      FilledCount(forms) == 2 && forall i :: 0 <= i < 3 ==> forms[i].IsValid()
  {
    SmallIds();
    var w := [Text("1"), Text("2"), Text("")];
    var part := [FormAt(w, 0, 0, regs, 0), FormAt(w, 1, 0, regs, 0), FormAt(w, 2, 0, regs, 0)];
    assert part[0] == FormResult([], [], Some(1), false);
    assert part[1] == FormResult([], [], Some(2), false);
    assert part[2] == FormResult([], [], None, true);
    assert part[..2][..1] == [part[0]] && part[..2] == part[..3][..2] && part[..3] == part;
    assert [part[0]][..0] == [];
    assert FilledCount([part[0]]) == 1;
    assert FilledCount(part[..2]) == 2;
  }
}
