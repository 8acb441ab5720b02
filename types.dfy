/** The resume record: the interfaces of src/types.ts as values. */
module Types {

  datatype PersonalInfo = PersonalInfo(name: string, email: string, phone: string, linkedin: string, summary: string)

  /** The three levels of a skill: "Básico", "Intermediário" and "Avançado" in the form. */
  datatype SkillLevel = Basic | Intermediate | Advanced

  datatype Skill = Skill(id: string, name: string, level: SkillLevel)

  datatype Experience = Experience(
    id: string,
    company: string,
    role: string,
    startDate: string,
    endDate: string,
    description: string,
    isCurrent: bool)

  datatype ResumeData = ResumeData(personalInfo: PersonalInfo, skills: seq<Skill>, experiences: seq<Experience>)

  /** `keyof PersonalInfo`. */
  datatype PersonalField = Name | Email | Phone | Linkedin | Summary

  /** `keyof Experience`. */
  datatype ExperienceField = Id | Company | Role | StartDate | EndDate | Description | IsCurrent

  /** Whether no two elements of `s` share a key. */
  predicate DistinctKeys<T>(s: seq<T>, key: T -> string) {
    forall i, j :: 0 <= i < j < |s| ==> key(s[i]) != key(s[j])
  }

  function SkillId(s: Skill): string { s.id }

  function ExperienceId(e: Experience): string { e.id }

  /** The ids given out by `uuid()` never repeat, so no two skills share one. */
  predicate UniqueSkillIds(skills: seq<Skill>) {
    DistinctKeys(skills, SkillId)
  }

  predicate UniqueExperienceIds(exps: seq<Experience>) {
    DistinctKeys(exps, ExperienceId)
  }
}
