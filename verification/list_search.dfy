/**
 * The search box and status drop-down shared by the candidate, assessment and interview lists:
 * a field matches when its lower-cased text includes the lower-cased search term, and a status
 * matches when the filter is "all" or names that status.
 */
module ListSearch {
  import opened Text

  /** field.toLowerCase().includes(searchTerm.toLowerCase()) */
  predicate Matches(field: string, term: string)
  {
    Contains(Lower(field), Lower(term))
  }

  /** statusFilter === "all" || status === statusFilter */
  predicate StatusMatches(statusFilter: string, status: string)
  {
    statusFilter == "all" || status == statusFilter
  }

  lemma LowerIdempotent(s: string)
    ensures Lower(Lower(s)) == Lower(s)
  {
  }

  /**
   * The search is case-insensitive: lower-casing the term or the field changes nothing; a term
   * found verbatim in the field matches, and the empty term matches every field.
   */
  lemma MatchesSpec(field: string, term: string)
    ensures Matches(field, term) <==> Matches(field, Lower(term))
    ensures Matches(field, term) <==> Matches(Lower(field), term)
    ensures Contains(field, term) ==> Matches(field, term)
    ensures Matches(field, "")
  {
    LowerIdempotent(term);
    LowerIdempotent(field);
    ContainsEmpty(Lower(field));
    if Contains(field, term) {
      var i :| 0 <= i <= |field| - |term| && PieceAt(field, term, i);
      assert Lower(field)[i..i + |term|] == Lower(term) by {
        forall k | 0 <= k < |term| ensures Lower(field)[i + k] == Lower(term)[k] {
          assert field[i + k] == field[i..i + |term|][k];
        }
      }
      assert PieceAt(Lower(field), Lower(term), i);
    }
  }
}
