/** One row of the job-postings table. A pandas missing value (NaN) is `None`. */
module JobRecords {
  import opened Wrappers

  /** A cell of the "Job Count" or "Skill Count" column: missing, already an
      integer, or text still to be converted. */
  datatype Cell = Blank | Number(n: int) | Raw(text: string)

  /** The "Skills" cell: the text read from the file, or, once parsed, the
      list of skills. */
  datatype SkillsCell = RawSkills(text: Option<string>) | SkillList(skills: seq<string>)

  datatype Row = Row(
    category: Option<string>,        // "Job Category"
    location: Option<string>,        // "Location"
    employmentType: Option<string>,  // "Employment Type"
    company: Option<string>,         // "Company Name"
    industry: Option<string>,        // "Industries"
    skills: SkillsCell,              // "Skills"
    jobCount: Cell,                  // "Job Count"
    skillCount: Cell)                // "Skill Count"

  /** The row has both a job category and a location. */
  predicate HasKeyFields(r: Row)
  {
    r.category.Some? && r.location.Some?
  }

  /** The row's location is `loc`; a missing location equals no name. */
  predicate LocatedAt(r: Row, loc: string)
  {
    r.location == Some(loc)
  }
}
