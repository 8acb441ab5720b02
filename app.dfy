/**
 * The state held by the `App` component (src/App.tsx): the resume being
 * edited, the error maps of the last validation, and the confirmation dialog
 * that guards every removal. React's `useState` cells become the fields of a
 * class; each handler becomes a method that reassigns them.
 */
module AppState {
  import opened Types
  import opened Dates
  import opened Validation

  /** What the confirmation dialog will do if the user confirms; `null` in the source. */
  datatype PendingAction = NoPending | RemoveSkillRequest(id: string) | RemoveExperienceRequest(id: string)

  const RemoveSkillQuestion := "Excluir esta habilidade?"
  const RemoveExperienceQuestion := "Excluir esta experiência?"

  const EmptyPersonalInfo := PersonalInfo("", "", "", "", "")
  const EmptyResume := ResumeData(EmptyPersonalInfo, [], [])

  /** The value a change event carries: an input's text, or a checkbox's state. */
  datatype FieldValue = Text(text: string) | Checked(checked: bool)

  /** Only the `isCurrent` checkbox carries a boolean; every other input carries text. */
  predicate Fits(f: ExperienceField, v: FieldValue) {
    (f == IsCurrent) == v.Checked?
  }

  // ----- personal information: `{ ...prev.personalInfo, [name]: value }` -----

  function PersonalValue(p: PersonalInfo, f: PersonalField): string {
    match f
    case Name => p.name
    case Email => p.email
    case Phone => p.phone
    case Linkedin => p.linkedin
    case Summary => p.summary
  }

  /** Writing a field: the named field reads back the new value, every other field is kept. */
  function SetPersonalField(p: PersonalInfo, f: PersonalField, value: string): (r: PersonalInfo)
    ensures PersonalValue(r, f) == value
    ensures forall g :: g != f ==> PersonalValue(r, g) == PersonalValue(p, g)
  {
    match f
    case Name => p.(name := value)
    case Email => p.(email := value)
    case Phone => p.(phone := value)
    case Linkedin => p.(linkedin := value)
    case Summary => p.(summary := value)
  }

  // ----- experiences: `{ ...exp, [name]: value }` -----

  function ExperienceValue(e: Experience, f: ExperienceField): FieldValue {
    match f
    case Id => Text(e.id)
    case Company => Text(e.company)
    case Role => Text(e.role)
    case StartDate => Text(e.startDate)
    case EndDate => Text(e.endDate)
    case Description => Text(e.description)
    case IsCurrent => Checked(e.isCurrent)
  }

  /** Writing a field: the named field reads back the new value, every other field is kept. */
  function SetExperienceField(e: Experience, f: ExperienceField, v: FieldValue): (r: Experience)
    requires Fits(f, v)
    ensures ExperienceValue(r, f) == v
    ensures forall g :: g != f ==> ExperienceValue(r, g) == ExperienceValue(e, g)
  {
    match f
    case Id => e.(id := v.text)
    case Company => e.(company := v.text)
    case Role => e.(role := v.text)
    case StartDate => e.(startDate := v.text)
    case EndDate => e.(endDate := v.text)
    case Description => e.(description := v.text)
    case IsCurrent => e.(isCurrent := v.checked)
  }

  /** `experiences.map(exp => exp.id === id ? { ...exp, [name]: value } : exp)`. */
  function UpdateExperience(exps: seq<Experience>, id: string, f: ExperienceField, v: FieldValue): (r: seq<Experience>)
    requires Fits(f, v)
    ensures |r| == |exps|
    ensures forall i :: 0 <= i < |exps| ==> r[i] == if exps[i].id == id then SetExperienceField(exps[i], f, v) else exps[i]
  {
    if exps == [] then []
    else [if exps[0].id == id then SetExperienceField(exps[0], f, v) else exps[0]] + UpdateExperience(exps[1..], id, f, v)
  }

  /** An edit reaches only the named field of the experiences with that id; nothing else changes. */
  lemma UpdateExperienceTouchesOneField(exps: seq<Experience>, id: string, f: ExperienceField, v: FieldValue, i: nat, g: ExperienceField)
    requires Fits(f, v) && i < |exps|
    ensures ExperienceValue(UpdateExperience(exps, id, f, v)[i], g)
         == if exps[i].id == id && g == f then v else ExperienceValue(exps[i], g)
  {
  }

  /** Editing anything but the id keeps every id, so distinct ids stay distinct. */
  lemma UpdateExperienceKeepsIds(exps: seq<Experience>, id: string, f: ExperienceField, v: FieldValue)
    requires Fits(f, v) && f != Id
    ensures forall i :: 0 <= i < |exps| ==> UpdateExperience(exps, id, f, v)[i].id == exps[i].id
    ensures UniqueExperienceIds(exps) ==> UniqueExperienceIds(UpdateExperience(exps, id, f, v))
  {
    var r := UpdateExperience(exps, id, f, v);
    forall i | 0 <= i < |exps|
      ensures r[i].id == exps[i].id
    {
      assert ExperienceValue(r[i], Id) == ExperienceValue(exps[i], Id);
    }
  }

  // ----- removal: `list.filter(x => x.id !== id)` -----

  /** The elements of `s` whose key is not `id`, in their original order. */
  function RemoveId<T>(s: seq<T>, key: T -> string, id: string): (r: seq<T>)
    ensures |r| <= |s|
    ensures forall i :: 0 <= i < |r| ==> r[i] in s && key(r[i]) != id
    ensures forall i :: 0 <= i < |s| && key(s[i]) != id ==> s[i] in r
  {
    if s == [] then []
    else (if key(s[0]) != id then [s[0]] else []) + RemoveId(s[1..], key, id)
  }

  /** Filtering distributes over concatenation: the kept elements keep their relative order. */
  lemma {:induction false} RemoveIdConcat<T>(a: seq<T>, b: seq<T>, key: T -> string, id: string)
    ensures RemoveId(a + b, key, id) == RemoveId(a, key, id) + RemoveId(b, key, id)
  {
    if a == [] {
      assert a + b == b;
    } else {
      assert (a + b)[0] == a[0];
      assert (a + b)[1..] == a[1..] + b;
      RemoveIdConcat(a[1..], b, key, id);
    }
  }

  /** Removing an id no element carries changes nothing. */
  lemma {:induction false} RemoveIdAbsent<T>(s: seq<T>, key: T -> string, id: string)
    requires forall i :: 0 <= i < |s| ==> key(s[i]) != id
    ensures RemoveId(s, key, id) == s
  {
    if s != [] {
      RemoveIdAbsent(s[1..], key, id);
      assert [s[0]] + s[1..] == s;
    }
  }

  /** Removing twice is removing once. */
  lemma RemoveIdIdempotent<T>(s: seq<T>, key: T -> string, id: string)
    ensures RemoveId(RemoveId(s, key, id), key, id) == RemoveId(s, key, id)
  {
    var r := RemoveId(s, key, id);
    forall i | 0 <= i < |r|
      ensures key(r[i]) != id
    {
    }
    RemoveIdAbsent(r, key, id);
  }

  /** Keys that were distinct stay distinct. */
  lemma {:induction false} RemoveIdKeepsDistinct<T>(s: seq<T>, key: T -> string, id: string)
    requires DistinctKeys(s, key)
    ensures DistinctKeys(RemoveId(s, key, id), key)
  {
    if s != [] {
      var rest := RemoveId(s[1..], key, id);
      assert DistinctKeys(s[1..], key) by {
        forall i, j | 0 <= i < j < |s[1..]|
          ensures key(s[1..][i]) != key(s[1..][j])
        {
          assert s[1..][i] == s[i + 1] && s[1..][j] == s[j + 1];
        }
      }
      RemoveIdKeepsDistinct(s[1..], key, id);
      forall j | 0 <= j < |rest|
        ensures key(rest[j]) != key(s[0])
      {
        var k :| 0 <= k < |s[1..]| && s[1..][k] == rest[j];
        assert s[k + 1] == rest[j];
      }
    }
  }

  /** With distinct keys, removing a key that is present drops exactly one element. */
  lemma {:induction false} RemoveIdDropsOne<T>(s: seq<T>, key: T -> string, id: string, k: nat)
    requires DistinctKeys(s, key) && k < |s| && key(s[k]) == id
    ensures |RemoveId(s, key, id)| == |s| - 1
  {
    if k == 0 {
      forall i | 0 <= i < |s[1..]|
        ensures key(s[1..][i]) != id
      {
        assert s[1..][i] == s[i + 1];
      }
      RemoveIdAbsent(s[1..], key, id);
    } else {
      assert key(s[0]) != id;
      assert DistinctKeys(s[1..], key) by {
        forall i, j | 0 <= i < j < |s[1..]|
          ensures key(s[1..][i]) != key(s[1..][j])
        {
          assert s[1..][i] == s[i + 1] && s[1..][j] == s[j + 1];
        }
      }
      assert s[1..][k - 1] == s[k];
      RemoveIdDropsOne(s[1..], key, id, k - 1);
    }
  }

  // ----- the confirmation dialog -----

  /** The removal `handleConfirm` carries out for a pending action. */
  function ApplyPending(p: PendingAction, d: ResumeData): ResumeData {
    match p
    case NoPending => d
    case RemoveSkillRequest(id) => d.(skills := RemoveId(d.skills, SkillId, id))
    case RemoveExperienceRequest(id) => d.(experiences := RemoveId(d.experiences, ExperienceId, id))
  }

  /**
   * Confirming a removal: afterwards no entry of that kind carries the id,
   * every other entry is kept, the other list is untouched, and with
   * distinct ids exactly one entry goes when the id was present.
   */
  lemma ConfirmedRemoval(p: PendingAction, d: ResumeData)
    requires UniqueSkillIds(d.skills) && UniqueExperienceIds(d.experiences)
    ensures p.RemoveSkillRequest? ==>
      && (forall s :: s in ApplyPending(p, d).skills <==> s in d.skills && s.id != p.id)
      && ApplyPending(p, d).experiences == d.experiences
      && ((exists k :: 0 <= k < |d.skills| && d.skills[k].id == p.id) ==> |ApplyPending(p, d).skills| == |d.skills| - 1)
    ensures p.RemoveExperienceRequest? ==>
      && (forall e :: e in ApplyPending(p, d).experiences <==> e in d.experiences && e.id != p.id)
      && ApplyPending(p, d).skills == d.skills
      && ((exists k :: 0 <= k < |d.experiences| && d.experiences[k].id == p.id) ==> |ApplyPending(p, d).experiences| == |d.experiences| - 1)
    ensures ApplyPending(p, d).personalInfo == d.personalInfo
    ensures p == NoPending ==> ApplyPending(p, d) == d
  {
    if p.RemoveSkillRequest? {
      if k :| 0 <= k < |d.skills| && d.skills[k].id == p.id {
        RemoveIdDropsOne(d.skills, SkillId, p.id, k);
      }
    } else if p.RemoveExperienceRequest? {
      if k :| 0 <= k < |d.experiences| && d.experiences[k].id == p.id {
        RemoveIdDropsOne(d.experiences, ExperienceId, p.id, k);
      }
    }
  }

  /** The experience `addExperience` appends: every text empty, not current. */
  function BlankExperience(id: string): Experience {
    Experience(id, "", "", "", "", "", false)
  }

  /** A freshly added experience is flagged for its company, role, start and end. */
  lemma BlankExperienceFlagged(id: string)
    ensures ExperienceErrorsOf(BlankExperience(id))
         == map[Company := CompanyRequired, Role := RoleRequired, StartDate := StartRequired, EndDate := EndRequired]
  {
    var e := BlankExperience(id);
    var m := ExperienceErrorsOf(e);
    assert !MatchesDatePattern(e.startDate);
    assert !EndsBeforeStart(e);
    assert m.Keys == {Company, Role, StartDate, EndDate};
  }

  class App {
    var resumeData: ResumeData
    var personalErrors: PersonalErrors
    var experienceErrors: ExperienceErrors
    var confirmOpen: bool
    var confirmMessage: string
    var pending: PendingAction

    /**
     * The dialog is open exactly while a removal is pending, it asks the
     * question that matches that removal, and ids are never shared.
     */
    predicate Valid()
      reads this
    {
      && (confirmOpen <==> pending != NoPending)
      && (pending.RemoveSkillRequest? ==> confirmMessage == RemoveSkillQuestion)
      && (pending.RemoveExperienceRequest? ==> confirmMessage == RemoveExperienceQuestion)
      && UniqueSkillIds(resumeData.skills)
      && UniqueExperienceIds(resumeData.experiences)
    }

    /** Everything but the resume itself is as it was. */
    twostate predicate OnlyDataChanged()
      reads this
    {
      && personalErrors == old(personalErrors)
      && experienceErrors == old(experienceErrors)
      && confirmOpen == old(confirmOpen)
      && confirmMessage == old(confirmMessage)
      && pending == old(pending)
    }

    constructor()
      ensures Valid()
      ensures resumeData == EmptyResume
      ensures personalErrors == map[] && experienceErrors == map[]
      ensures !confirmOpen && confirmMessage == "" && pending == NoPending
    {
      resumeData := EmptyResume;
      personalErrors := map[];
      experienceErrors := map[];
      confirmOpen := false;
      confirmMessage := "";
      pending := NoPending;
    }

    method HandlePersonalInfoChange(f: PersonalField, value: string)
      requires Valid()
      modifies this
      ensures Valid() && OnlyDataChanged()
      ensures resumeData == old(resumeData).(personalInfo := SetPersonalField(old(resumeData.personalInfo), f, value))
    {
      resumeData := resumeData.(personalInfo := SetPersonalField(resumeData.personalInfo, f, value));
    }

    /** `freshId` stands for the `uuid()` the source draws; it is new by assumption. */
    method AddSkill(name: string, level: SkillLevel, freshId: string)
      requires Valid()
      requires forall i :: 0 <= i < |resumeData.skills| ==> resumeData.skills[i].id != freshId
      modifies this
      ensures Valid() && OnlyDataChanged()
      ensures resumeData == old(resumeData).(skills := old(resumeData.skills) + [Skill(freshId, name, level)])
    {
      resumeData := resumeData.(skills := resumeData.skills + [Skill(freshId, name, level)]);
    }

    method RemoveSkill(id: string)
      requires Valid()
      modifies this
      ensures Valid() && OnlyDataChanged()
      ensures resumeData == old(resumeData).(skills := RemoveId(old(resumeData.skills), SkillId, id))
    {
      RemoveIdKeepsDistinct(resumeData.skills, SkillId, id);
      resumeData := resumeData.(skills := RemoveId(resumeData.skills, SkillId, id));
    }

    method RequestRemoveSkill(id: string)
      requires Valid()
      modifies this
      ensures Valid()
      ensures pending == RemoveSkillRequest(id) && confirmMessage == RemoveSkillQuestion && confirmOpen
      ensures resumeData == old(resumeData)
      ensures personalErrors == old(personalErrors) && experienceErrors == old(experienceErrors)
    {
      pending := RemoveSkillRequest(id);
      confirmMessage := RemoveSkillQuestion;
      confirmOpen := true;
    }

    /** `freshId` stands for the `uuid()` the source draws; it is new by assumption. */
    method AddExperience(freshId: string)
      requires Valid()
      requires forall i :: 0 <= i < |resumeData.experiences| ==> resumeData.experiences[i].id != freshId
      modifies this
      ensures Valid() && OnlyDataChanged()
      ensures resumeData == old(resumeData).(experiences := old(resumeData.experiences) + [BlankExperience(freshId)])
    {
      resumeData := resumeData.(experiences := resumeData.experiences + [BlankExperience(freshId)]);
    }

    method RemoveExperience(id: string)
      requires Valid()
      modifies this
      ensures Valid() && OnlyDataChanged()
      ensures resumeData == old(resumeData).(experiences := RemoveId(old(resumeData.experiences), ExperienceId, id))
    {
      RemoveIdKeepsDistinct(resumeData.experiences, ExperienceId, id);
      resumeData := resumeData.(experiences := RemoveId(resumeData.experiences, ExperienceId, id));
    }

    method RequestRemoveExperience(id: string)
      requires Valid()
      modifies this
      ensures Valid()
      ensures pending == RemoveExperienceRequest(id) && confirmMessage == RemoveExperienceQuestion && confirmOpen
      ensures resumeData == old(resumeData)
      ensures personalErrors == old(personalErrors) && experienceErrors == old(experienceErrors)
    {
      pending := RemoveExperienceRequest(id);
      confirmMessage := RemoveExperienceQuestion;
      confirmOpen := true;
    }

    /** The form has no input named `id`, so an edit never renames an experience. */
    method HandleExperienceChange(id: string, f: ExperienceField, v: FieldValue)
      requires Valid() && Fits(f, v) && f != Id
      modifies this
      ensures Valid() && OnlyDataChanged()
      ensures resumeData == old(resumeData).(experiences := UpdateExperience(old(resumeData.experiences), id, f, v))
    {
      UpdateExperienceKeepsIds(resumeData.experiences, id, f, v);
      resumeData := resumeData.(experiences := UpdateExperience(resumeData.experiences, id, f, v));
    }

    /** Stores both error maps of `validateResume` and reports whether the resume passes. */
    method RunValidation() returns (ok: bool)
      requires Valid()
      modifies this
      ensures Valid()
      ensures resumeData == old(resumeData) && pending == old(pending)
      ensures confirmOpen == old(confirmOpen) && confirmMessage == old(confirmMessage)
      ensures personalErrors == PersonalErrorsOf(resumeData.personalInfo)
      ensures experienceErrors == ExperienceErrorMap(resumeData.experiences)
      ensures ok <==> ResumePasses(resumeData)
      ensures ok <==> personalErrors == map[] && experienceErrors == map[]
    {
      var res := ValidateResume(resumeData);
      personalErrors := res.personal;
      experienceErrors := res.experiences;
      ok := res.ok;
      NoErrorsMeansPasses(resumeData);
    }

    /** Carries out the pending removal, if any, then clears it and closes the dialog. */
    method HandleConfirm()
      requires Valid()
      modifies this
      ensures Valid()
      ensures resumeData == ApplyPending(old(pending), old(resumeData))
      ensures pending == NoPending && !confirmOpen
      ensures confirmMessage == old(confirmMessage)
      ensures personalErrors == old(personalErrors) && experienceErrors == old(experienceErrors)
    {
      match pending {
        case RemoveSkillRequest(id) => RemoveSkill(id);
        case RemoveExperienceRequest(id) => RemoveExperience(id);
        case NoPending =>
      }
      pending := NoPending;
      confirmOpen := false;
    }

    /** Drops the pending removal and closes the dialog; the resume is untouched. */
    method HandleCancel()
      requires Valid()
      modifies this
      ensures Valid()
      ensures resumeData == old(resumeData)
      ensures pending == NoPending && !confirmOpen
      ensures confirmMessage == old(confirmMessage)
      ensures personalErrors == old(personalErrors) && experienceErrors == old(experienceErrors)
    {
      pending := NoPending;
      confirmOpen := false;
    }
  }
}
