/** The recruiter's assessment list: search over title, type and target skills, plus a status filter. */
module AssessmentList {
  import opened Sequences
  import opened ListSearch

  datatype AssessmentSummary = AssessmentSummary(
    id: string, title: string, assessmentType: string, status: string, createdDate: string, targetSkills: seq<string>)

  /** targetSkills.some(skill => skill.toLowerCase().includes(term)) */
  predicate AnySkillMatches(skills: seq<string>, searchTerm: string)
  {
    exists i :: 0 <= i < |skills| && Matches(skills[i], searchTerm)
  }

  predicate AssessmentMatches(a: AssessmentSummary, searchTerm: string, statusFilter: string)
  {
    && (Matches(a.title, searchTerm) || Matches(a.assessmentType, searchTerm) || AnySkillMatches(a.targetSkills, searchTerm))
    && StatusMatches(statusFilter, a.status)
  }

  function KeepAssessment(searchTerm: string, statusFilter: string): AssessmentSummary -> bool
  {
    a => AssessmentMatches(a, searchTerm, statusFilter)
  }

  /** filteredAssessments */
  function FilterAssessments(assessments: seq<AssessmentSummary>, searchTerm: string, statusFilter: string): seq<AssessmentSummary>
  {
    Filter(assessments, KeepAssessment(searchTerm, statusFilter))
  }

  /**
   * The shown assessments are exactly the matching ones, in their original order; an empty
   * search with "all" shows every assessment, and any other filter only that status.
   */
  lemma FilterAssessmentsSpec(assessments: seq<AssessmentSummary>, searchTerm: string, statusFilter: string)
    ensures var r := FilterAssessments(assessments, searchTerm, statusFilter);
      && IsSubsequence(r, assessments)
      && (forall a :: a in r <==> a in assessments && AssessmentMatches(a, searchTerm, statusFilter))
      && (statusFilter != "all" ==> forall a :: a in r ==> a.status == statusFilter)
    ensures FilterAssessments(assessments, "", "all") == assessments
  {
    forall i | 0 <= i < |assessments| ensures KeepAssessment("", "all")(assessments[i]) {
      MatchesSpec(assessments[i].title, "");
    }
  }

  /** Giving an assessment one more target skill, anywhere in the list, never makes it stop matching. */
  lemma MatchingMonotoneInSkills(a: AssessmentSummary, k: nat, skill: string, searchTerm: string, statusFilter: string)
    requires k <= |a.targetSkills|
    requires AssessmentMatches(a, searchTerm, statusFilter)
    ensures AssessmentMatches(a.(targetSkills := a.targetSkills[..k] + [skill] + a.targetSkills[k..]), searchTerm, statusFilter)
  {
    var skills := a.targetSkills;
    var more := skills[..k] + [skill] + skills[k..];
    if AnySkillMatches(skills, searchTerm) {
      var i :| 0 <= i < |skills| && Matches(skills[i], searchTerm);
      var j := if i < k then i else i + 1;
      assert more[j] == skills[i];
    }
  }
}
