/**
 * The final candidate report of the Python service: a stub resume summary, the histogram of
 * emotion labels, and the score and feedback of the transcript scorer.
 */
module ReportGenerator {
  import opened Wrappers
  import opened Histogram

  datatype ResumeSummary = ResumeSummary(name: string, experience: string, skills: seq<string>)

  datatype ReportInput = ReportInput(
    candidateId: string,
    resumeText: string,
    interviewTranscript: string,
    emotionLabels: seq<string>)

  /** What the scorer returns: a score (None when the model's reply was not valid JSON) and feedback. */
  datatype ScoreResult = ScoreResult(score: Option<int>, feedback: string)

  datatype FinalReport = FinalReport(
    candidateId: string,
    resumeSummary: ResumeSummary,
    emotionSummary: map<string, nat>,
    interviewScore: Option<int>,
    interviewFeedback: string)

  const ResumeStub := ResumeSummary("Candidate Name", "3+ years", ["Python", "Node.js", "AWS"])

  /** The placeholder resume parser: the same summary whatever the text. */
  function ParseResume(resumeText: string): ResumeSummary
  {
    ResumeStub
  }

  /**
   * generate_final_report. The transcript scorer (a language-model call) is the parameter
   * scoreTranscript; an exception it raises propagates, here as a Failure.
   */
  function GenerateFinalReport(input: ReportInput, scoreTranscript: string -> Result<ScoreResult>): (r: Result<FinalReport>)
    ensures r.Failure? <==> scoreTranscript(input.interviewTranscript).Failure?
    ensures r.Failure? ==> r.error == scoreTranscript(input.interviewTranscript).error
    ensures r.Success? ==>
      && r.value.candidateId == input.candidateId
      && r.value.resumeSummary == ResumeStub
      && r.value.interviewScore == scoreTranscript(input.interviewTranscript).value.score
      && r.value.interviewFeedback == scoreTranscript(input.interviewTranscript).value.feedback
      && r.value.emotionSummary.Keys == set l | l in input.emotionLabels
      && (forall l :: l in r.value.emotionSummary ==> r.value.emotionSummary[l] == Count(input.emotionLabels, l) > 0)
  {
    var resumeData := ParseResume(input.resumeText);
    var emotionCounts := Counts(input.emotionLabels);
    match scoreTranscript(input.interviewTranscript)
    case Failure(e) => Failure(e)
    case Success(result) =>
      assert forall l :: l in emotionCounts ==> Count(input.emotionLabels, l) > 0 by {
        forall l | l in emotionCounts ensures Count(input.emotionLabels, l) > 0 {
          CountPositive(input.emotionLabels, l);
        }
      }
      Success(FinalReport(input.candidateId, resumeData, emotionCounts, result.score, result.feedback))
  }

  /** The emotion summary's counts add up to the number of labels. */
  lemma EmotionSummaryTotal(input: ReportInput, scoreTranscript: string -> Result<ScoreResult>)
    requires GenerateFinalReport(input, scoreTranscript).Success?
    ensures var summary := GenerateFinalReport(input, scoreTranscript).value.emotionSummary;
      SumCounts(Keys(input.emotionLabels), input.emotionLabels) == |input.emotionLabels|
      && forall i :: 0 <= i < |Keys(input.emotionLabels)| ==>
           && Keys(input.emotionLabels)[i] in summary
           && summary[Keys(input.emotionLabels)[i]] == Count(input.emotionLabels, Keys(input.emotionLabels)[i])
  {
    KeysSpec(input.emotionLabels);
    SumOfCounts(input.emotionLabels);
  }
}
