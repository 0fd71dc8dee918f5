/** The recruiter's candidate list: search over name, position and email, plus a status filter. */
module CandidateList {
  import opened Sequences
  import opened ListSearch

  datatype Candidate = Candidate(id: string, name: string, position: string, status: string, lastActivity: string, email: string)

  predicate CandidateMatches(c: Candidate, searchTerm: string, statusFilter: string)
  {
    && (Matches(c.name, searchTerm) || Matches(c.position, searchTerm) || Matches(c.email, searchTerm))
    && StatusMatches(statusFilter, c.status)
  }

  function KeepCandidate(searchTerm: string, statusFilter: string): Candidate -> bool
  {
    c => CandidateMatches(c, searchTerm, statusFilter)
  }

  /** filteredCandidates */
  function FilterCandidates(candidates: seq<Candidate>, searchTerm: string, statusFilter: string): seq<Candidate>
  {
    Filter(candidates, KeepCandidate(searchTerm, statusFilter))
  }

  /**
   * The shown candidates are exactly the matching ones, in their original order; an empty search
   * with "all" shows everyone, and any other filter shows only candidates with that status.
   */
  lemma FilterCandidatesSpec(candidates: seq<Candidate>, searchTerm: string, statusFilter: string)
    ensures var r := FilterCandidates(candidates, searchTerm, statusFilter);
      && IsSubsequence(r, candidates)
      && (forall c :: c in r <==> c in candidates && CandidateMatches(c, searchTerm, statusFilter))
      && (statusFilter != "all" ==> forall c :: c in r ==> c.status == statusFilter)
    ensures FilterCandidates(candidates, "", "all") == candidates
  {
    forall i | 0 <= i < |candidates| ensures KeepCandidate("", "all")(candidates[i]) {
      MatchesSpec(candidates[i].name, "");
    }
  }
}
