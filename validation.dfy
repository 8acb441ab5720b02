/**
 * `validateResume` (src/hooks/useValidation.ts): the error messages of the personal
 * fields and, per experience id, of the experience fields. The method follows the
 * source statement by statement; the functions beside it say, field by field, which
 * message (if any) each field gets, and the lemmas say what those rules mean.
 */
module Validation {
  import opened Wrappers
  import opened Text
  import opened Types
  import opened Dates
  import opened Fields

  const NameRequired := "Informe seu nome."
  const EmailRequired := "Informe seu e-mail."
  const EmailInvalid := "E-mail inválido."
  const PhoneRequired := "Informe seu telefone."
  const PhoneInvalid := "Telefone inválido (DDD + 8/9 dígitos)."
  const LinkedinInvalid := "URL do LinkedIn inválida."
  const CompanyRequired := "Informe a empresa."
  const RoleRequired := "Informe o cargo."
  const StartRequired := "Informe a data inicial (dd/mm/aaaa)."
  const StartInvalid := "Data inicial inválida."
  const EndRequired := "Informe a data final (ou marque 'Trabalho atual')."
  const EndInvalid := "Data final inválida."
  const EndBeforeStart := "Data final deve ser posterior à data inicial."

  /** `PersonalErrors`, `Partial<Record<ExperienceField, string>>` and `ExperienceErrors`. */
  type PersonalErrors = map<PersonalField, string>
  type FieldErrors = map<ExperienceField, string>
  type ExperienceErrors = map<string, FieldErrors>

  datatype Report = Report(ok: bool, personal: PersonalErrors, experiences: ExperienceErrors)

  const PersonalFields: set<PersonalField> := {Name, Email, Phone, Linkedin, Summary}
  const ExperienceFields: set<ExperienceField> := {Id, Company, Role, StartDate, EndDate, Description, IsCurrent}

  /**
   * `!x?.trim()`: the field was left empty or only white space was typed.
   * `trim` gives "" exactly for blank text (the contract of `Text.Trim`), so the
   * test is written as blankness; `MissingIsTrimEmpty` states the equivalence.
   */
  predicate Missing(s: string) {
    IsBlank(s)
  }

  /** `!dateRegex.test(s) || !parsePtBrDate(s)`. */
  predicate BadDate(s: string) {
    !MatchesDatePattern(s) || ParsePtBrDate(s).None?
  }

  // ----- the rules, field by field -----

  /** The message a personal field gets, if any. */
  function PersonalError(p: PersonalInfo, f: PersonalField): Option<string> {
    match f
    case Name => if IsBlank(p.name) then Some(NameRequired) else None
    case Email =>
      if IsBlank(p.email) then Some(EmailRequired)
      else if !IsValidEmail(p.email) then Some(EmailInvalid)
      else None
    case Phone =>
      if IsBlank(p.phone) then Some(PhoneRequired)
      else if !ValidatePhoneBR(p.phone) then Some(PhoneInvalid)
      else None
    case Linkedin => if p.linkedin != [] && !ValidateLinkedIn(p.linkedin) then Some(LinkedinInvalid) else None
    case Summary => None
  }

  /** The day a dd/mm/yyyy string names, with the month counted from 0 as `getMonth` does. */
  function DateOf(s: string): JsDate
    requires MatchesDatePattern(s)
  {
    JsDate(YearField(s), MonthField(s) - 1, DayField(s))
  }

  /** The end date is before the start date of a finished job (both real calendar days). */
  predicate EndsBeforeStart(e: Experience) {
    && !e.isCurrent
    && IsCalendarDateString(e.startDate)
    && IsCalendarDateString(e.endDate)
    && IsAfter(DateOf(e.startDate), DateOf(e.endDate))
  }

  /** The message an experience field gets, if any. The order check overrides the
      end date's own message; a current job's end date is checked only when typed. */
  function ExperienceFieldError(e: Experience, f: ExperienceField): Option<string> {
    match f
    case Company => if IsBlank(e.company) then Some(CompanyRequired) else None
    case Role => if IsBlank(e.role) then Some(RoleRequired) else None
    case StartDate =>
      if IsBlank(e.startDate) then Some(StartRequired)
      else if !IsCalendarDateString(e.startDate) then Some(StartInvalid)
      else None
    case EndDate =>
      if EndsBeforeStart(e) then Some(EndBeforeStart)
      else if !e.isCurrent && IsBlank(e.endDate) then Some(EndRequired)
      else if !IsBlank(e.endDate) && !IsCalendarDateString(e.endDate) then Some(EndInvalid)
      else None
    case _ => None
  }

  /** The personal error map restricted to the fields in `fs`. */
  function PersonalErrorsOn(p: PersonalInfo, fs: set<PersonalField>): (m: PersonalErrors)
    ensures forall f :: f in m <==> f in fs && PersonalError(p, f).Some?
    ensures forall f :: f in m ==> m[f] == PersonalError(p, f).value
  {
    map f | f in fs && PersonalError(p, f).Some? :: PersonalError(p, f).value
  }

  /** The personal error map: one entry per field that has a message. */
  function PersonalErrorsOf(p: PersonalInfo): (m: PersonalErrors)
    ensures forall f :: f in m <==> PersonalError(p, f).Some?
    ensures forall f :: f in m ==> m[f] == PersonalError(p, f).value
  {
    PersonalErrorsOn(p, PersonalFields)
  }

  /** The error map of one experience restricted to the fields in `fs`. */
  function ExperienceErrorsOn(e: Experience, fs: set<ExperienceField>): (m: FieldErrors)
    ensures forall f :: f in m <==> f in fs && ExperienceFieldError(e, f).Some?
    ensures forall f :: f in m ==> m[f] == ExperienceFieldError(e, f).value
  {
    map f | f in fs && ExperienceFieldError(e, f).Some? :: ExperienceFieldError(e, f).value
  }

  /** The error map of one experience: one entry per field that has a message. */
  function ExperienceErrorsOf(e: Experience): (m: FieldErrors)
    ensures forall f :: f in m <==> ExperienceFieldError(e, f).Some?
    ensures forall f :: f in m ==> m[f] == ExperienceFieldError(e, f).value
  {
    ExperienceErrorsOn(e, ExperienceFields)
  }

  /** Checking one more personal field adds its message, if it has one. */
  lemma PersonalErrorsOnAdd(p: PersonalInfo, fs: set<PersonalField>, f: PersonalField)
    ensures PersonalErrorsOn(p, fs + {f}) ==
      match PersonalError(p, f)
      case None => PersonalErrorsOn(p, fs)
      case Some(msg) => PersonalErrorsOn(p, fs)[f := msg]
  {
    var m := PersonalErrorsOn(p, fs + {f});
    match PersonalError(p, f)
    case None => assert m == PersonalErrorsOn(p, fs);
    case Some(msg) => assert m == PersonalErrorsOn(p, fs)[f := msg];
  }

  /** Checking one more experience field adds its message, if it has one. */
  lemma ExperienceErrorsOnAdd(e: Experience, fs: set<ExperienceField>, f: ExperienceField)
    ensures ExperienceErrorsOn(e, fs + {f}) ==
      match ExperienceFieldError(e, f)
      case None => ExperienceErrorsOn(e, fs)
      case Some(msg) => ExperienceErrorsOn(e, fs)[f := msg]
  {
    var m := ExperienceErrorsOn(e, fs + {f});
    match ExperienceFieldError(e, f)
    case None => assert m == ExperienceErrorsOn(e, fs);
    case Some(msg) => assert m == ExperienceErrorsOn(e, fs)[f := msg];
  }

  /** The experience error map after the loop has seen `exps`: an experience with
      errors is stored under its id, over whatever an earlier one left there. */
  function ExperienceErrorMap(exps: seq<Experience>): ExperienceErrors {
    if exps == [] then map[]
    else
      var m := ExperienceErrorMap(exps[..|exps| - 1]);
      var e := exps[|exps| - 1];
      if ExperiencePasses(e) then m else m[e.id := ExperienceErrorsOf(e)]
  }

  /** No personal field has a message. */
  predicate PersonalPasses(p: PersonalInfo) {
    forall f :: PersonalError(p, f).None?
  }

  /** No field of the experience has a message. */
  predicate ExperiencePasses(e: Experience) {
    forall f :: ExperienceFieldError(e, f).None?
  }

  /** No field of the resume has a message. */
  predicate ResumePasses(data: ResumeData) {
    PersonalPasses(data.personalInfo) && forall i :: 0 <= i < |data.experiences| ==> ExperiencePasses(data.experiences[i])
  }

  /** The summary never has a message. */
  lemma PersonalFieldsChecked(p: PersonalInfo, fs: set<PersonalField>)
    requires {Name, Email, Phone, Linkedin} <= fs
    ensures PersonalErrorsOn(p, fs) == PersonalErrorsOf(p)
  {
    assert PersonalError(p, Summary).None?;
  }

  /** Only the company, the role and the two dates can have a message. */
  lemma ExperienceFieldsChecked(e: Experience, fs: set<ExperienceField>)
    requires {Company, Role, StartDate, EndDate} <= fs
    ensures ExperienceErrorsOn(e, fs) == ExperienceErrorsOf(e)
  {
    assert forall f :: f !in {Company, Role, StartDate, EndDate} ==> ExperienceFieldError(e, f).None?;
  }

  /** The test is the source's: the trimmed text is empty. */
  lemma MissingIsTrimEmpty(s: string)
    ensures Missing(s) <==> Trim(s) == []
  {
  }

  lemma BadDateIsNotCalendarDate(s: string)
    ensures BadDate(s) <==> !IsCalendarDateString(s)
    ensures ParsePtBrDate(s).Some? <==> IsCalendarDateString(s)
    ensures ParsePtBrDate(s).Some? ==> ParsePtBrDate(s).value == DateOf(s)
  {
    ParsePtBrDateAcceptsCalendarDates(s);
  }

  // ----- the end-date statements, in the terms of the rule -----

  /** The end date's own check (`own`), then the order check, whose message replaces it. */
  lemma EndDateStep(e: Experience, before: FieldErrors, own: FieldErrors, dStart: Option<JsDate>, dEnd: Option<JsDate>,
                    after: FieldErrors)
    requires own ==
      if !e.isCurrent then
        if Missing(e.endDate) then before[EndDate := EndRequired]
        else if BadDate(e.endDate) then before[EndDate := EndInvalid]
        else before
      else if !Missing(e.endDate) then
        if BadDate(e.endDate) then before[EndDate := EndInvalid] else before
      else before
    requires dStart == ParsePtBrDate(e.startDate)
    requires dEnd == if e.isCurrent then None else ParsePtBrDate(e.endDate)
    requires after == if dStart.Some? && dEnd.Some? && IsAfter(dStart.value, dEnd.value) then own[EndDate := EndBeforeStart] else own
    ensures ExperienceFieldError(e, EndDate).None? ==> after == before
    ensures ExperienceFieldError(e, EndDate).Some? ==> after == before[EndDate := ExperienceFieldError(e, EndDate).value]
  {
    EndOrderCheck(e, dStart, dEnd);
    if dStart.Some? && dEnd.Some? && IsAfter(dStart.value, dEnd.value) {
      assert own == before || own == before[EndDate := EndRequired] || own == before[EndDate := EndInvalid];
      EndDateOverride(before, own, EndBeforeStart);
    } else {
      EndDateOwnStep(e, before, own);
    }
  }

  lemma EndDateOverride(before: FieldErrors, own: FieldErrors, msg: string)
    requires own == before || own == before[EndDate := EndRequired] || own == before[EndDate := EndInvalid]
    ensures own[EndDate := msg] == before[EndDate := msg]
  {
  }

  lemma EndDateOwnStep(e: Experience, before: FieldErrors, own: FieldErrors)
    requires !EndsBeforeStart(e)
    requires own ==
      if !e.isCurrent then
        if Missing(e.endDate) then before[EndDate := EndRequired]
        else if BadDate(e.endDate) then before[EndDate := EndInvalid]
        else before
      else if !Missing(e.endDate) then
        if BadDate(e.endDate) then before[EndDate := EndInvalid] else before
      else before
    ensures ExperienceFieldError(e, EndDate).None? ==> own == before
    ensures ExperienceFieldError(e, EndDate).Some? ==> own == before[EndDate := ExperienceFieldError(e, EndDate).value]
  {
    BadDateIsNotCalendarDate(e.endDate);
  }

  /** The order check of the validator fires exactly when the job ended before it started. */
  lemma EndOrderCheck(e: Experience, dStart: Option<JsDate>, dEnd: Option<JsDate>)
    requires dStart == ParsePtBrDate(e.startDate)
    requires dEnd == if e.isCurrent then None else ParsePtBrDate(e.endDate)
    ensures (dStart.Some? && dEnd.Some? && IsAfter(dStart.value, dEnd.value)) <==> EndsBeforeStart(e)
  {
    BadDateIsNotCalendarDate(e.startDate);
    BadDateIsNotCalendarDate(e.endDate);
  }

  /** One turn of the loop stores the experience's messages under its id, if it has any. */
  lemma ExperienceLoopStep(exps: seq<Experience>, i: nat, before: ExperienceErrors, errs: FieldErrors, after: ExperienceErrors)
    requires i < |exps| && before == ExperienceErrorMap(exps[..i]) && errs == ExperienceErrorsOf(exps[i])
    requires after == if |errs| > 0 then before[exps[i].id := errs] else before
    ensures after == ExperienceErrorMap(exps[..i + 1])
  {
    assert exps[..i + 1][..i] == exps[..i];
    ExperienceErrorsOfEmpty(exps[i]);
  }

  lemma ExperienceLoopStart(exps: seq<Experience>, m: ExperienceErrors)
    requires m == map[]
    ensures m == ExperienceErrorMap(exps[..0])
  {
  }

  lemma ExperienceLoopDone(exps: seq<Experience>, m: ExperienceErrors)
    requires m == ExperienceErrorMap(exps[..|exps|])
    ensures m == ExperienceErrorMap(exps)
  {
    assert exps[..|exps|] == exps;
  }

  // ----- the imperative validator -----

  /** The personal-information part of `validateResume`. */
  method ValidatePersonalInfo(info: PersonalInfo) returns (personal: PersonalErrors)
    ensures personal == PersonalErrorsOf(info)
  {
    personal := map[];
    ghost var checked: set<PersonalField> := {};

    personal := CheckName(info, personal);
    PersonalErrorsOnAdd(info, checked, Name);
    checked := checked + {Name};

    personal := CheckEmail(info, personal);
    PersonalErrorsOnAdd(info, checked, Email);
    checked := checked + {Email};

    personal := CheckPhone(info, personal);
    PersonalErrorsOnAdd(info, checked, Phone);
    checked := checked + {Phone};

    personal := CheckLinkedin(info, personal);
    PersonalErrorsOnAdd(info, checked, Linkedin);
    PersonalFieldsChecked(info, checked + {Linkedin});
  }

  /** `if (!name?.trim())`: the name ends up with the message its rule gives. */
  method CheckName(info: PersonalInfo, m: PersonalErrors) returns (r: PersonalErrors)
    ensures PersonalError(info, Name).None? ==> r == m
    ensures PersonalError(info, Name).Some? ==> r == m[Name := PersonalError(info, Name).value]
  {
    r := m;
    if Missing(info.name) { r := r[Name := NameRequired]; }
  }

  /** The e-mail statements: "required" when blank, "invalid" when the pattern fails. */
  method CheckEmail(info: PersonalInfo, m: PersonalErrors) returns (r: PersonalErrors)
    ensures PersonalError(info, Email).None? ==> r == m
    ensures PersonalError(info, Email).Some? ==> r == m[Email := PersonalError(info, Email).value]
  {
    r := m;
    if Missing(info.email) {
      r := r[Email := EmailRequired];
    } else if !IsValidEmail(info.email) {
      r := r[Email := EmailInvalid];
    }
  }

  /** The phone statements: "required" when blank, "invalid" when the digit count is wrong. */
  method CheckPhone(info: PersonalInfo, m: PersonalErrors) returns (r: PersonalErrors)
    ensures PersonalError(info, Phone).None? ==> r == m
    ensures PersonalError(info, Phone).Some? ==> r == m[Phone := PersonalError(info, Phone).value]
  {
    r := m;
    if Missing(info.phone) {
      r := r[Phone := PhoneRequired];
    } else if !ValidatePhoneBR(info.phone) {
      r := r[Phone := PhoneInvalid];
    }
  }

  /** The optional LinkedIn field has a message only when it is typed and refused. */
  method CheckLinkedin(info: PersonalInfo, m: PersonalErrors) returns (r: PersonalErrors)
    ensures PersonalError(info, Linkedin).None? ==> r == m
    ensures PersonalError(info, Linkedin).Some? ==> r == m[Linkedin := PersonalError(info, Linkedin).value]
  {
    r := m;
    if info.linkedin != [] && !ValidateLinkedIn(info.linkedin) {
      r := r[Linkedin := LinkedinInvalid];
    }
  }

  /** The body of the loop over the experiences: the messages of one experience. */
  method ValidateExperience(exp: Experience) returns (errs: FieldErrors)
    ensures errs == ExperienceErrorsOf(exp)
  {
    errs := map[];
    ghost var done: set<ExperienceField> := {};

    errs := CheckCompany(exp, errs);
    ExperienceErrorsOnAdd(exp, done, Company);
    done := done + {Company};

    errs := CheckRole(exp, errs);
    ExperienceErrorsOnAdd(exp, done, Role);
    done := done + {Role};

    errs := CheckStartDate(exp, errs);
    ExperienceErrorsOnAdd(exp, done, StartDate);
    done := done + {StartDate};

    errs := CheckEndDate(exp, errs);
    ExperienceErrorsOnAdd(exp, done, EndDate);
    ExperienceFieldsChecked(exp, done + {EndDate});
  }

  /** `if (!exp.company?.trim())`: the company ends up with the message its rule gives. */
  method CheckCompany(exp: Experience, errs: FieldErrors) returns (r: FieldErrors)
    ensures ExperienceFieldError(exp, Company).None? ==> r == errs
    ensures ExperienceFieldError(exp, Company).Some? ==> r == errs[Company := ExperienceFieldError(exp, Company).value]
  {
    r := errs;
    if Missing(exp.company) { r := r[Company := CompanyRequired]; }
  }

  /** `if (!exp.role?.trim())`: the role ends up with the message its rule gives. */
  method CheckRole(exp: Experience, errs: FieldErrors) returns (r: FieldErrors)
    ensures ExperienceFieldError(exp, Role).None? ==> r == errs
    ensures ExperienceFieldError(exp, Role).Some? ==> r == errs[Role := ExperienceFieldError(exp, Role).value]
  {
    r := errs;
    if Missing(exp.role) { r := r[Role := RoleRequired]; }
  }

  /** The start-date statements of the loop body: the start date ends up with the message its rule gives. */
  method CheckStartDate(exp: Experience, errs: FieldErrors) returns (r: FieldErrors)
    ensures ExperienceFieldError(exp, StartDate).None? ==> r == errs
    ensures ExperienceFieldError(exp, StartDate).Some? ==> r == errs[StartDate := ExperienceFieldError(exp, StartDate).value]
  {
    r := errs;
    if Missing(exp.startDate) {
      r := r[StartDate := StartRequired];
    } else if BadDate(exp.startDate) {
      r := r[StartDate := StartInvalid];
    }
    BadDateIsNotCalendarDate(exp.startDate);
  }

  /**
   * The end-date statements of the loop body: the date's own test, then the
   * order check, whose message replaces any earlier one. The end date ends up
   * with the message its rule gives, and nothing else changes.
   */
  method CheckEndDate(exp: Experience, errs: FieldErrors) returns (r: FieldErrors)
    ensures ExperienceFieldError(exp, EndDate).None? ==> r == errs
    ensures ExperienceFieldError(exp, EndDate).Some? ==> r == errs[EndDate := ExperienceFieldError(exp, EndDate).value]
  {
    r := errs;
    if !exp.isCurrent {
      if Missing(exp.endDate) {
        r := r[EndDate := EndRequired];
      } else if BadDate(exp.endDate) {
        r := r[EndDate := EndInvalid];
      }
    } else if !Missing(exp.endDate) {
      if BadDate(exp.endDate) {
        r := r[EndDate := EndInvalid];
      }
    }
    ghost var own := r;

    var dStart := ParsePtBrDate(exp.startDate);
    var dEnd := if exp.isCurrent then None else ParsePtBrDate(exp.endDate);
    if dStart.Some? && dEnd.Some? && IsAfter(dStart.value, dEnd.value) {
      r := r[EndDate := EndBeforeStart];
    }
    EndDateStep(exp, errs, own, dStart, dEnd, r);
  }

  /** `validateResume`: the two error maps, and `ok` exactly when no field has a message. */
  method ValidateResume(data: ResumeData) returns (report: Report)
    ensures report.personal == PersonalErrorsOf(data.personalInfo)
    ensures report.experiences == ExperienceErrorMap(data.experiences)
    ensures report.ok <==> ResumePasses(data)
  {
    var personal := ValidatePersonalInfo(data.personalInfo);
    var experiences: ExperienceErrors := map[];

    ExperienceLoopStart(data.experiences, experiences);
    for i := 0 to |data.experiences|
      invariant experiences == ExperienceErrorMap(data.experiences[..i])
    {
      var exp := data.experiences[i];
      var errs := ValidateExperience(exp);
      ghost var prev := experiences;
      if |errs| > 0 {
        experiences := experiences[exp.id := errs];
      }
      ExperienceLoopStep(data.experiences, i, prev, errs, experiences);
    }
    ExperienceLoopDone(data.experiences, experiences);

    var ok := |personal| == 0 && |experiences| == 0;
    NoErrorsMeansPasses(data);
    report := Report(ok, personal, experiences);
  }

  // ----- what the rules mean -----

  /** `ok` is true exactly when no field of the resume has a message. */
  lemma NoErrorsMeansPasses(data: ResumeData)
    ensures PersonalErrorsOf(data.personalInfo) == map[] && ExperienceErrorMap(data.experiences) == map[]
      <==> ResumePasses(data)
  {
    ExperienceErrorMapEmpty(data.experiences);
    var p := data.personalInfo;
    if PersonalErrorsOf(p) != map[] {
      var f :| f in PersonalErrorsOf(p);
    }
  }

  lemma ExperienceErrorsOfEmpty(e: Experience)
    ensures ExperienceErrorsOf(e) == map[] <==> ExperiencePasses(e)
  {
    if ExperienceErrorsOf(e) != map[] {
      var f :| f in ExperienceErrorsOf(e);
    }
  }

  /** The experience map is empty exactly when every experience passes. */
  lemma {:induction false} ExperienceErrorMapEmpty(exps: seq<Experience>)
    ensures ExperienceErrorMap(exps) == map[] <==> forall i :: 0 <= i < |exps| ==> ExperiencePasses(exps[i])
  {
    if exps != [] {
      var init, e := exps[..|exps| - 1], exps[|exps| - 1];
      ExperienceErrorMapEmpty(init);
      ExperienceErrorsOfEmpty(e);
      if ExperiencePasses(e) {
        assert ExperienceErrorMap(exps) == ExperienceErrorMap(init);
        assert forall i :: 0 <= i < |init| ==> init[i] == exps[i];
      } else {
        assert e.id in ExperienceErrorMap(exps);
      }
    }
  }

  /** The name is flagged exactly when it is blank. */
  lemma NameFlaggedIffBlank(p: PersonalInfo)
    ensures Name in PersonalErrorsOf(p) <==> IsBlank(p.name)
  {
  }

  /** The e-mail is flagged when blank ("Informe seu e-mail.") or when the pattern
      does not match ("E-mail inválido."), and only then. */
  lemma EmailFlaggedIffBlankOrMalformed(p: PersonalInfo)
    ensures Email in PersonalErrorsOf(p) <==> IsBlank(p.email) || !MatchesEmailPattern(p.email)
    ensures Email in PersonalErrorsOf(p) ==>
      (PersonalErrorsOf(p)[Email] == EmailRequired <==> IsBlank(p.email))
  {
    IsValidEmailMatchesPattern(p.email);
  }

  /** The phone is flagged when blank or when it has neither 10 nor 11 digits. */
  lemma PhoneFlaggedIffBlankOrWrongLength(p: PersonalInfo)
    ensures Phone in PersonalErrorsOf(p) <==> IsBlank(p.phone) || (|Digits(p.phone)| != 10 && |Digits(p.phone)| != 11)
    ensures Phone in PersonalErrorsOf(p) ==>
      (PersonalErrorsOf(p)[Phone] == PhoneRequired <==> IsBlank(p.phone))
  {
  }

  /** The LinkedIn field is optional: it is flagged exactly when `validateLinkedIn` refuses it. */
  lemma LinkedinFlaggedIffRefused(p: PersonalInfo)
    ensures Linkedin in PersonalErrorsOf(p) <==> !ValidateLinkedIn(p.linkedin)
  {
    assert Linkedin in PersonalErrorsOf(p) <==> PersonalError(p, Linkedin).Some?;
    if p.linkedin == [] {
      assert ValidateLinkedIn(p.linkedin);
    }
  }

  /** The summary is never checked. */
  lemma SummaryNeverFlagged(p: PersonalInfo)
    ensures Summary !in PersonalErrorsOf(p)
  {
  }

  /** Only the company, the role and the two dates of an experience are ever flagged. */
  lemma OnlyFourExperienceFieldsFlagged(e: Experience)
    ensures ExperienceErrorsOf(e).Keys <= {Company, Role, StartDate, EndDate}
  {
  }

  /** The start date is flagged exactly when it is not a real calendar day; the
      "required" message is the one for a blank field. */
  lemma StartDateFlaggedIffNotCalendarDate(e: Experience)
    ensures StartDate in ExperienceErrorsOf(e) <==> !IsCalendarDateString(e.startDate)
    ensures StartDate in ExperienceErrorsOf(e) ==>
      (ExperienceErrorsOf(e)[StartDate] == StartRequired <==> IsBlank(e.startDate))
  {
    if IsBlank(e.startDate) && |e.startDate| == 10 {
      assert IsSpace(e.startDate[0]);
    }
  }

  /** A finished job's end date is flagged when it is not a calendar day, or when it
      comes before a valid start date, and only then. */
  lemma FinishedJobEndDate(e: Experience)
    requires !e.isCurrent
    ensures EndDate in ExperienceErrorsOf(e) <==>
      || !IsCalendarDateString(e.endDate)
      || (IsCalendarDateString(e.startDate) && IsAfter(DateOf(e.startDate), DateOf(e.endDate)))
  {
    if IsBlank(e.endDate) && |e.endDate| == 10 {
      assert IsSpace(e.endDate[0]);
    }
  }

  /** A current job may leave the end date empty; a typed one must be a calendar day,
      and the order of the dates is not checked. */
  lemma CurrentJobEndDate(e: Experience)
    requires e.isCurrent
    ensures EndDate in ExperienceErrorsOf(e) <==> !IsBlank(e.endDate) && !IsCalendarDateString(e.endDate)
    ensures EndDate in ExperienceErrorsOf(e) ==> ExperienceErrorsOf(e)[EndDate] == EndInvalid
  {
  }

  /** An id is in the experience map exactly when some experience with that id is flagged. */
  lemma {:induction false} ExperienceErrorMapKeys(exps: seq<Experience>, id: string)
    ensures id in ExperienceErrorMap(exps) <==>
      exists i :: 0 <= i < |exps| && exps[i].id == id && !ExperiencePasses(exps[i])
  {
    if exps != [] {
      var n := |exps| - 1;
      var init, e := exps[..n], exps[n];
      ExperienceErrorMapKeys(init, id);
      var inInit := exists i :: 0 <= i < n && init[i].id == id && !ExperiencePasses(init[i]);
      var inExps := exists i :: 0 <= i <= n && exps[i].id == id && !ExperiencePasses(exps[i]);
      if inInit {
        var i :| 0 <= i < n && init[i].id == id && !ExperiencePasses(init[i]);
        assert exps[i] == init[i];
      }
      if inExps {
        var i :| 0 <= i <= n && exps[i].id == id && !ExperiencePasses(exps[i]);
        if i < n {
          assert init[i] == exps[i];
        }
      }
      assert inExps <==> inInit || (e.id == id && !ExperiencePasses(e));
    }
  }

  /** With distinct ids, a flagged experience's messages are found under its own id. */
  lemma {:induction false} ExperienceErrorMapLookup(exps: seq<Experience>, i: nat)
    requires UniqueExperienceIds(exps) && i < |exps| && !ExperiencePasses(exps[i])
    ensures exps[i].id in ExperienceErrorMap(exps)
    ensures ExperienceErrorMap(exps)[exps[i].id] == ExperienceErrorsOf(exps[i])
  {
    var n := |exps| - 1;
    var init, e := exps[..n], exps[n];
    var m := ExperienceErrorMap(init);
    if i < n {
      assert init[i] == exps[i];
      assert UniqueExperienceIds(init) by {
        assert forall a :: 0 <= a < n ==> init[a] == exps[a];
      }
      ExperienceErrorMapLookup(init, i);
      assert e.id != exps[i].id;
      if ExperiencePasses(e) {
        assert ExperienceErrorMap(exps) == m;
      } else {
        assert ExperienceErrorMap(exps) == m[e.id := ExperienceErrorsOf(e)];
      }
    } else {
      assert ExperienceErrorMap(exps) == m[e.id := ExperienceErrorsOf(e)];
    }
  }

  // ----- worked examples -----

  /** A fresh form: name, e-mail and phone are required; nothing else is flagged. */
  lemma EmptyFormFlagsRequiredFields(p: PersonalInfo)
    requires p == PersonalInfo("", "", "", "", "")
    ensures PersonalErrorsOf(p) == map[Name := NameRequired, Email := EmailRequired, Phone := PhoneRequired]
  {
    var m := PersonalErrorsOf(p);
    assert ValidateLinkedIn(p.linkedin);
    assert m.Keys == {Name, Email, Phone};
  }

  /** A finished job that ends before it starts gets the order message on its end date. */
  lemma EndBeforeStartExample(e: Experience)
    requires e.startDate == "01/06/2023" && e.endDate == "01/01/2023" && !e.isCurrent
    ensures EndDate in ExperienceErrorsOf(e) && ExperienceErrorsOf(e)[EndDate] == EndBeforeStart
  {
    FirstOfJune2023(e.startDate);
    FirstOfJanuary2023(e.endDate);
    assert EndsBeforeStart(e);
  }

  lemma FirstOfJune2023(s: string)
    requires s == "01/06/2023"
    ensures IsCalendarDateString(s) && DateOf(s) == JsDate(2023, 5, 1)
  {
    DecimalValueOfTwo(s[0..2]);
    DecimalValueOfTwo(s[3..5]);
    DecimalValueOfFour(s[6..10]);
  }

  lemma FirstOfJanuary2023(s: string)
    requires s == "01/01/2023"
    ensures IsCalendarDateString(s) && DateOf(s) == JsDate(2023, 0, 1)
  {
    DecimalValueOfTwo(s[0..2]);
    DecimalValueOfTwo(s[3..5]);
    DecimalValueOfFour(s[6..10]);
  }
}
