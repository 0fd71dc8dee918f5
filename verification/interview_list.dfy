/**
 * The recruiter's interview list: search over candidate name and position plus a status filter,
 * then a sort that puts scheduled interviews first (soonest first) and the rest after them (most
 * recent first), and a colour for the score of a completed interview.
 *
 * The date and time of an interview are parsed by the browser into a timestamp; the model takes
 * that timestamp as a field.
 */
module InterviewList {
  import opened Wrappers
  import opened Sequences
  import opened ListSearch

  datatype InterviewRow = InterviewRow(
    id: string, candidateName: string, candidateId: string, position: string,
    timestamp: int, status: string, score: Option<int>)

  predicate InterviewMatches(x: InterviewRow, searchTerm: string, statusFilter: string)
  {
    (Matches(x.candidateName, searchTerm) || Matches(x.position, searchTerm)) && StatusMatches(statusFilter, x.status)
  }

  function KeepInterview(searchTerm: string, statusFilter: string): InterviewRow -> bool
  {
    x => InterviewMatches(x, searchTerm, statusFilter)
  }

  /** filteredInterviews */
  function FilterInterviews(interviews: seq<InterviewRow>, searchTerm: string, statusFilter: string): seq<InterviewRow>
  {
    Filter(interviews, KeepInterview(searchTerm, statusFilter))
  }

  /**
   * The kept interviews are exactly the matching ones, in their original order; an empty search
   * with "all" keeps every interview, and any other filter only that status.
   */
  lemma FilterInterviewsSpec(interviews: seq<InterviewRow>, searchTerm: string, statusFilter: string)
    ensures var r := FilterInterviews(interviews, searchTerm, statusFilter);
      && IsSubsequence(r, interviews)
      && (forall x :: x in r <==> x in interviews && InterviewMatches(x, searchTerm, statusFilter))
      && (statusFilter != "all" ==> forall x :: x in r ==> x.status == statusFilter)
    ensures FilterInterviews(interviews, "", "all") == interviews
  {
    forall i | 0 <= i < |interviews| ensures KeepInterview("", "all")(interviews[i]) {
      MatchesSpec(interviews[i].candidateName, "");
    }
  }

  // ---------------------------------------------------------------- sorting

  predicate IsScheduled(x: InterviewRow)
  {
    x.status == "scheduled"
  }

  /** The sort's comparator: negative when a goes first. */
  function Compare(a: InterviewRow, b: InterviewRow): int
  {
    if IsScheduled(a) && !IsScheduled(b) then -1
    else if !IsScheduled(a) && IsScheduled(b) then 1
    else if IsScheduled(a) && IsScheduled(b) then a.timestamp - b.timestamp
    else b.timestamp - a.timestamp
  }

  /** a may stand before b. */
  predicate Before(a: InterviewRow, b: InterviewRow)
  {
    Compare(a, b) <= 0
  }

  /**
   * The comparator is consistent: swapping the arguments negates it, and "may stand before" is
   * transitive, so it orders the interviews totally up to ties.
   */
  lemma CompareConsistent(a: InterviewRow, b: InterviewRow, c: InterviewRow)
    ensures Compare(b, a) == -Compare(a, b)
    ensures Before(a, b) || Before(b, a)
    ensures Before(a, b) && Before(b, c) ==> Before(a, c)
  {
  }

  predicate Sorted(xs: seq<InterviewRow>)
  {
    forall i, j :: 0 <= i < j < |xs| ==> Before(xs[i], xs[j])
  }

  /** Insert x after every element that may stand before it. */
  function Insert(x: InterviewRow, xs: seq<InterviewRow>): seq<InterviewRow>
  {
    if xs == [] then [x]
    else if Compare(x, xs[0]) < 0 then [x] + xs
    else [xs[0]] + Insert(x, xs[1..])
  }

  /** Inserting adds x and nothing else. */
  lemma {:induction false} InsertElements(x: InterviewRow, xs: seq<InterviewRow>)
    ensures multiset(Insert(x, xs)) == multiset(xs) + multiset{x}
  {
    if xs != [] {
      assert xs == [xs[0]] + xs[1..];
      if Compare(x, xs[0]) >= 0 {
        InsertElements(x, xs[1..]);
      }
    }
  }

  /** A sorted list stays sorted with an element in front that may stand before all of it. */
  lemma ConsSorted(y: InterviewRow, rest: seq<InterviewRow>)
    requires Sorted(rest) && forall z :: z in rest ==> Before(y, z)
    ensures Sorted([y] + rest)
  {
    var r := [y] + rest;
    forall i, j | 0 <= i < j < |r| ensures Before(r[i], r[j]) {
      assert r[j] == rest[j - 1];
      if i == 0 {
        assert r[j] in rest;
      } else {
        assert r[i] == rest[i - 1];
      }
    }
  }

  /** Inserting into a sorted list leaves it sorted. */
  lemma {:induction false} InsertSorted(x: InterviewRow, xs: seq<InterviewRow>)
    requires Sorted(xs)
    ensures Sorted(Insert(x, xs))
  {
    if xs != [] {
      var head, tail := xs[0], xs[1..];
      assert xs == [head] + tail;
      assert Sorted(tail) && forall z :: z in tail ==> Before(head, z) by {
        forall z | z in tail ensures Before(head, z) {
          var m :| 0 <= m < |tail| && tail[m] == z;
          assert xs[m + 1] == z;
        }
        forall i, j | 0 <= i < j < |tail| ensures Before(tail[i], tail[j]) {
          assert tail[i] == xs[i + 1] && tail[j] == xs[j + 1];
        }
      }
      if Compare(x, head) < 0 {
        forall z | z in xs ensures Before(x, z) {
          CompareConsistent(x, head, z);
        }
        ConsSorted(x, xs);
      } else {
        InsertSorted(x, tail);
        InsertElements(x, tail);
        var rest := Insert(x, tail);
        CompareConsistent(x, head, x);
        forall z | z in rest ensures Before(head, z) {
          assert z in multiset(rest);
        }
        ConsSorted(head, rest);
      }
    }
  }

  /** [...filteredInterviews].sort(Compare), as a stable insertion sort. */
  function SortInterviews(xs: seq<InterviewRow>): (r: seq<InterviewRow>)
    ensures Sorted(r) && multiset(r) == multiset(xs)
  {
    if xs == [] then []
    else
      var init := SortInterviews(xs[..|xs| - 1]);
      InsertSorted(xs[|xs| - 1], init);
      InsertElements(xs[|xs| - 1], init);
      LastElement(xs);
      Insert(xs[|xs| - 1], init)
  }

  /** A list's elements are those before its last, plus the last. */
  lemma LastElement(xs: seq<InterviewRow>)
    requires xs != []
    ensures multiset(xs) == multiset(xs[..|xs| - 1]) + multiset{xs[|xs| - 1]}
  {
    assert xs == xs[..|xs| - 1] + [xs[|xs| - 1]];
  }

  /**
   * What the order means: every scheduled interview comes before every other one, scheduled
   * interviews by ascending time, the others by descending time.
   */
  lemma SortedOrder(xs: seq<InterviewRow>, i: int, j: int)
    requires Sorted(xs) && 0 <= i < j < |xs|
    ensures IsScheduled(xs[j]) ==> IsScheduled(xs[i])
    ensures IsScheduled(xs[i]) && IsScheduled(xs[j]) ==> xs[i].timestamp <= xs[j].timestamp
    ensures !IsScheduled(xs[i]) && !IsScheduled(xs[j]) ==> xs[i].timestamp >= xs[j].timestamp
  {
    assert Before(xs[i], xs[j]);
  }

  /** The list as shown: the kept interviews, reordered. */
  function ShownInterviews(interviews: seq<InterviewRow>, searchTerm: string, statusFilter: string): seq<InterviewRow>
  {
    SortInterviews(FilterInterviews(interviews, searchTerm, statusFilter))
  }

  /** The shown list holds each kept interview exactly as often as the filtered list, in sorted order. */
  lemma ShownInterviewsSpec(interviews: seq<InterviewRow>, searchTerm: string, statusFilter: string)
    ensures var r := ShownInterviews(interviews, searchTerm, statusFilter);
      && Sorted(r)
      && multiset(r) == multiset(FilterInterviews(interviews, searchTerm, statusFilter))
      && (forall x :: x in r <==> x in interviews && InterviewMatches(x, searchTerm, statusFilter))
  {
    var f := FilterInterviews(interviews, searchTerm, statusFilter);
    var r := ShownInterviews(interviews, searchTerm, statusFilter);
    forall x ensures x in r <==> x in f {
      assert x in r <==> x in multiset(r);
      assert x in f <==> x in multiset(f);
    }
  }

  // ---------------------------------------------------------------- score colour

  datatype Colour = Green | Yellow | Red

  function ScoreColour(score: int): Colour
  {
    if score >= 85 then Green else if score >= 70 then Yellow else Red
  }

  /** A score badge is shown for a completed interview with a score. */
  function ScoreBadge(x: InterviewRow): Option<Colour>
  {
    if x.status == "completed" && x.score.Some? then Some(ScoreColour(x.score.value)) else None
  }

  function ColourRank(c: Colour): nat
  {
    match c
    case Red => 0
    case Yellow => 1
    case Green => 2
  }

  /** Green from 85, yellow from 70 to 84, red below 70; a higher score never gets a worse colour. */
  lemma ScoreColourBands(a: int, b: int)
    ensures ScoreColour(a) == Green <==> a >= 85
    ensures ScoreColour(a) == Yellow <==> 70 <= a < 85
    ensures ScoreColour(a) == Red <==> a < 70
    ensures a <= b ==> ColourRank(ScoreColour(a)) <= ColourRank(ScoreColour(b))
  {
  }
}
