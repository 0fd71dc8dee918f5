/**
 * The interview evaluation pipeline: schedule a video meeting and store the interview, pick up
 * its recording and transcript once the meeting is over, then have a language model score the
 * transcript against rubric questions and map the overall score to a hiring decision.
 *
 * The record store is an in-memory map from interview id to record. The meeting backend
 * (create meeting, list recordings, fetch transcript), the chat completion and JSON.parse are
 * function parameters of the operations that call them.
 */
module InterviewService {
  import opened Wrappers
  import opened Text
  import Sequences
  import LlmAnalysis

  const ScheduleError := "Failed to schedule interview"
  const CompletionError := "Failed to process completed interview"
  const TranscriptError := "Failed to process transcript"
  const AnalysisError := "Failed to analyze interview"

  datatype Status = Scheduled | Completed

  datatype Decision = NotSelected | OnHold | AdditionalInterviewRequired | Selected

  /** One stored question score: question is None where the index named no question (undefined). */
  datatype StoredScore = StoredScore(questionId: string, question: Option<string>, score: int, feedback: string)

  /** An interview record; the nullable columns are Options. */
  datatype Interview = Interview(
    id: string,
    candidateId: string,
    recruiterId: string,
    scheduledTime: string,
    status: Status,
    zoomMeetingId: Option<string>,
    zoomRecordingId: Option<string>,
    transcript: Option<string>,
    aiScores: Option<seq<StoredScore>>,
    overallScore: Option<int>,
    decision: Option<Decision>)

  datatype MeetingRequest = MeetingRequest(topic: string, startTime: string, duration: int, agenda: string)

  datatype RecordingFile = RecordingFile(id: string, fileType: string)

  /** What analyzeInterview returns to its caller. */
  datatype AnalysisOutcome = AnalysisOutcome(
    questionScores: seq<StoredScore>,
    overallScore: Option<int>,
    overallFeedback: Option<string>,
    decision: Option<Decision>)

  // ---------------------------------------------------------------- decision table

  /** decisionMap[score]: defined on 1..5 only; any other score looks up undefined (None). */
  function DecisionFor(score: int): (d: Option<Decision>)
    ensures d.Some? <==> 1 <= score <= 5
  {
    if score == 1 then Some(NotSelected)
    else if score == 2 || score == 3 then Some(OnHold)
    else if score == 4 then Some(AdditionalInterviewRequired)
    else if score == 5 then Some(Selected)
    else None
  }

  function Rank(d: Decision): nat
  {
    match d
    case NotSelected => 0
    case OnHold => 1
    case AdditionalInterviewRequired => 2
    case Selected => 3
  }

  /** A higher score never maps to a worse decision, and every decision is reachable. */
  lemma DecisionTableOrdered(a: int, b: int)
    requires 1 <= a <= b <= 5
    ensures Rank(DecisionFor(a).value) <= Rank(DecisionFor(b).value)
    ensures forall d: Decision :: exists s :: 1 <= s <= 5 && DecisionFor(s) == Some(d)
  {
    forall d: Decision ensures exists s :: 1 <= s <= 5 && DecisionFor(s) == Some(d) {
      match d
      case NotSelected => assert DecisionFor(1) == Some(d);
      case OnHold => assert DecisionFor(2) == Some(d);
      case AdditionalInterviewRequired => assert DecisionFor(4) == Some(d);
      case Selected => assert DecisionFor(5) == Some(d);
    }
  }

  /** The decision for an overall score that may be missing from the model's reply. */
  function DecisionOf(overallScore: Option<int>): Option<Decision>
  {
    if overallScore.Some? then DecisionFor(overallScore.value) else None
  }

  // ---------------------------------------------------------------- scheduling

  /** options.duration || 60: a missing or zero duration becomes one hour. */
  function MeetingDuration(duration: Option<int>): int
  {
    if duration.None? || duration.value == 0 then 60 else duration.value
  }

  function MeetingRequestFor(scheduledTime: string, duration: Option<int>): (req: MeetingRequest)
    ensures req.startTime == scheduledTime
    ensures req.duration == 60 <==> duration.None? || duration == Some(0) || duration == Some(60)
    ensures duration.Some? && duration.value != 0 ==> req.duration == duration.value
    ensures req.topic == "Interview with Candidate" && req.agenda == "AI Smart Hire Interview Session"
  {
    MeetingRequest("Interview with Candidate", scheduledTime, MeetingDuration(duration), "AI Smart Hire Interview Session")
  }

  // ---------------------------------------------------------------- recordings

  predicate IsAudioOrVideo(f: RecordingFile)
  {
    f.fileType == "M4A" || f.fileType == "MP4"
  }

  /** recording_files.find(file => file.file_type === "M4A" || file.file_type === "MP4") */
  function FindRecording(files: seq<RecordingFile>): (r: Option<RecordingFile>)
  {
    var k := Sequences.FindIndex(files, IsAudioOrVideo);
    if k >= 0 then Some(files[k]) else None
  }

  /** The recording used is the first M4A or MP4 file; there is none only when no file is one. */
  lemma FindRecordingSpec(files: seq<RecordingFile>)
    ensures FindRecording(files).None? <==> forall k :: 0 <= k < |files| ==> !IsAudioOrVideo(files[k])
    ensures FindRecording(files).Some? ==>
      exists k :: (&& 0 <= k < |files|
                   && files[k] == FindRecording(files).value
                   && IsAudioOrVideo(files[k])
                   && forall j :: 0 <= j < k ==> !IsAudioOrVideo(files[j]))
  {
    var k := Sequences.FindIndex(files, IsAudioOrVideo);
    if k >= 0 {
      assert files[k] == FindRecording(files).value;
    }
  }

  // ---------------------------------------------------------------- scores

  /** questions[parseInt(questionId) - 1], undefined (None) for NaN or an index outside the list. */
  function QuestionAt(questions: seq<string>, questionId: string): Option<string>
  {
    var n := ParseInt(questionId);
    if n.Some? && 1 <= n.value <= |questions| then Some(questions[n.value - 1]) else None
  }

  /** analysis.questionScores.map(score => ({ questionId, question, score, feedback })) */
  function StoreScores(scores: seq<LlmAnalysis.LlmScore>, questions: seq<string>): (r: seq<StoredScore>)
    ensures |r| == |scores|
  {
    seq(|scores|, i requires 0 <= i < |scores| =>
      StoredScore(scores[i].questionId, QuestionAt(questions, scores[i].questionId), scores[i].score, scores[i].feedback))
  }

  /**
   * The stored scores keep the model's length and order and copy id, score and feedback; when
   * the model numbers its scores "1", "2", ... as the prompt does, score i is joined to question i,
   * and a number past the end of the question list joins to no question.
   */
  lemma StoreScoresJoinQuestions(scores: seq<LlmAnalysis.LlmScore>, questions: seq<string>)
    ensures var r := StoreScores(scores, questions);
      forall i :: 0 <= i < |scores| ==>
        && r[i].questionId == scores[i].questionId
        && r[i].score == scores[i].score
        && r[i].feedback == scores[i].feedback
        && (scores[i].questionId == Itoa(i + 1) && i < |questions| ==> r[i].question == Some(questions[i]))
        && (scores[i].questionId == Itoa(i + 1) && i >= |questions| ==> r[i].question == None)
  {
    forall i | 0 <= i < |scores| && scores[i].questionId == Itoa(i + 1) {
      ParseIntOfItoa(i + 1);
    }
  }

  /**
   * The update written after an analysis: the question scores are replaced, not appended to; the
   * overall score and decision are replaced when defined, and a field given as undefined is left
   * as it was, as the record store treats undefined update fields.
   */
  function ApplyAnalysis(rec: Interview, scores: seq<StoredScore>, overallScore: Option<int>, decision: Option<Decision>): Interview
  {
    rec.(aiScores := Some(scores),
         overallScore := if overallScore.Some? then overallScore else rec.overallScore,
         decision := if decision.Some? then decision else rec.decision)
  }

  /**
   * Re-running the analysis keeps only the last run's question scores; when the last run has an
   * overall score from the table, the record is as if the earlier run had not happened.
   */
  lemma ReanalysisOverwrites(rec: Interview, s1: seq<StoredScore>, o1: Option<int>, s2: seq<StoredScore>, o2: Option<int>)
    ensures ApplyAnalysis(ApplyAnalysis(rec, s1, o1, DecisionOf(o1)), s2, o2, DecisionOf(o2)).aiScores == Some(s2)
    ensures o2.Some? && 1 <= o2.value <= 5 ==>
      ApplyAnalysis(ApplyAnalysis(rec, s1, o1, DecisionOf(o1)), s2, o2, DecisionOf(o2))
        == ApplyAnalysis(rec, s2, o2, DecisionOf(o2))
  {
  }

  /**
   * An overall score outside the table stores the new score but leaves the earlier decision:
   * a record scored 3 (on hold) and then 6 reads overall score 6, decision on hold.
   */
  lemma StaleDecisionAfterUntabledScore(rec: Interview, s1: seq<StoredScore>, s2: seq<StoredScore>)
    ensures var r := ApplyAnalysis(ApplyAnalysis(rec, s1, Some(3), DecisionOf(Some(3))), s2, Some(6), DecisionOf(Some(6)));
      r.overallScore == Some(6) && r.decision == Some(OnHold) && DecisionFor(6).None?
  {
  }

  // ---------------------------------------------------------------- the store

  /** The record's state is one the pipeline can produce. */
  predicate Consistent(r: Interview)
  {
    && (r.status == Completed <==> r.zoomRecordingId.Some?)
    && (r.transcript.Some? ==> r.zoomRecordingId.Some?)
    && (r.aiScores.Some? || r.overallScore.Some? || r.decision.Some? ==> r.transcript.Some?)
  }

  /** The interview exists and has a meeting id (a non-empty string). */
  predicate HasMeeting(records: map<string, Interview>, id: string)
  {
    id in records && records[id].zoomMeetingId.Some? && records[id].zoomMeetingId.value != ""
  }

  /** The interview exists and has a transcript (a non-empty string). */
  predicate HasTranscript(records: map<string, Interview>, id: string)
  {
    id in records && records[id].transcript.Some? && records[id].transcript.value != ""
  }

  class InterviewStore {
    var records: map<string, Interview>

    ghost predicate Valid()
      reads this
    {
      forall id | id in records :: records[id].id == id && Consistent(records[id])
    }

    constructor ()
      ensures Valid() && records == map[]
    {
      records := map[];
    }

    /**
     * scheduleInterview: create the meeting, then store a new SCHEDULED record carrying the
     * meeting's id as a string. newId is the id the store assigns to the new record. If the
     * meeting cannot be created nothing is stored.
     */
    method ScheduleInterview(
      newId: string,
      candidateId: string,
      recruiterId: string,
      scheduledTime: string,
      duration: Option<int>,
      createMeeting: MeetingRequest -> Result<nat>)
      returns (r: Result<Interview>)
      requires Valid() && newId !in records
      modifies this
      ensures Valid()
      ensures createMeeting(MeetingRequestFor(scheduledTime, duration)).Failure? ==>
        r == Failure(ScheduleError) && records == old(records)
      ensures createMeeting(MeetingRequestFor(scheduledTime, duration)).Success? ==>
        && r == Success(Interview(newId, candidateId, recruiterId, scheduledTime, Scheduled,
                                  Some(Itoa(createMeeting(MeetingRequestFor(scheduledTime, duration)).value)),
                                  None, None, None, None, None))
        && records == old(records)[newId := r.value]
        && HasMeeting(records, newId)
    {
      var meeting := createMeeting(MeetingRequestFor(scheduledTime, duration));
      if meeting.Failure? {
        return Failure(ScheduleError);
      }
      var interview := Interview(newId, candidateId, recruiterId, scheduledTime, Scheduled,
                                 Some(Itoa(meeting.value)), None, None, None, None, None);
      records := records[newId := interview];
      r := Success(interview);
    }

    /**
     * processTranscript: fetch the transcript of the recording and store it. Called only once
     * the record carries that recording's id.
     */
    method ProcessTranscript(interviewId: string, recordingId: string, getTranscript: string -> Result<string>)
      returns (outcome: Outcome)
      requires Valid()
      requires interviewId in records ==> records[interviewId].zoomRecordingId == Some(recordingId)
      modifies this
      ensures Valid()
      ensures getTranscript(recordingId).Failure? || interviewId !in old(records) ==>
        outcome == Fail(TranscriptError) && records == old(records)
      ensures getTranscript(recordingId).Success? && interviewId in old(records) ==>
        && outcome == Pass
        && records == old(records)[interviewId :=
             old(records)[interviewId].(transcript := Some(getTranscript(recordingId).value))]
    {
      var transcript := getTranscript(recordingId);
      if transcript.Failure? || interviewId !in records {
        return Fail(TranscriptError);
      }
      records := records[interviewId := records[interviewId].(transcript := Some(transcript.value))];
      outcome := Pass;
    }

    /**
     * processCompletedInterview: look up the meeting's recordings; if one is an M4A or MP4
     * file, store its id and mark the interview COMPLETED, then fetch and store the transcript
     * (a failure there is only logged). With no such file the record is returned unchanged.
     */
    method ProcessCompletedInterview(
      interviewId: string,
      getRecording: string -> Result<seq<RecordingFile>>,
      getTranscript: string -> Result<string>)
      returns (r: Result<Interview>)
      requires Valid()
      modifies this
      ensures Valid()
      ensures !HasMeeting(old(records), interviewId) ==>
        r == Failure(CompletionError) && records == old(records)
      ensures HasMeeting(old(records), interviewId) ==>
        var rec := old(records)[interviewId];
        var recording := getRecording(rec.zoomMeetingId.value);
        && (recording.Failure? ==> r == Failure(CompletionError) && records == old(records))
        && (recording.Success? && FindRecording(recording.value).None? ==>
              r == Success(rec) && records == old(records))
        && (recording.Success? && FindRecording(recording.value).Some? ==>
              var file := FindRecording(recording.value).value;
              var transcript := getTranscript(file.id);
              var updated := rec.(zoomRecordingId := Some(file.id), status := Completed,
                                  transcript := if transcript.Success? then Some(transcript.value) else rec.transcript);
              r == Success(updated) && records == old(records)[interviewId := updated])
    {
      if interviewId !in records || records[interviewId].zoomMeetingId.None? || records[interviewId].zoomMeetingId.value == "" {
        return Failure(CompletionError);
      }
      var recording := getRecording(records[interviewId].zoomMeetingId.value);
      if recording.Failure? {
        return Failure(CompletionError);
      }
      if |recording.value| > 0 {
        var audioRecording := FindRecording(recording.value);
        if audioRecording.Some? {
          records := records[interviewId := records[interviewId].(zoomRecordingId := Some(audioRecording.value.id), status := Completed)];
          var _ := ProcessTranscript(interviewId, audioRecording.value.id, getTranscript);
        }
      }
      r := Success(records[interviewId]);
    }

    /**
     * analyzeInterview: score the stored transcript against the questions, store the scores,
     * the overall score and its decision, and return them with the overall feedback. Every
     * failure, including a reply without questionScores, surfaces as the one error message.
     */
    method AnalyzeInterview(
      interviewId: string,
      questions: seq<string>,
      complete: string -> Result<Option<string>>,
      parse: string -> Option<LlmAnalysis.Analysis>)
      returns (r: Result<AnalysisOutcome>)
      requires Valid()
      modifies this
      ensures Valid()
      ensures !HasTranscript(old(records), interviewId) ==>
        r == Failure(AnalysisError) && records == old(records)
      ensures HasTranscript(old(records), interviewId) ==>
        var rec := old(records)[interviewId];
        var analysis := LlmAnalysis.AnalyzeTranscript(rec.transcript.value, questions, complete, parse);
        && (analysis.Failure? || analysis.value.questionScores.None? ==>
              r == Failure(AnalysisError) && records == old(records))
        && (analysis.Success? && analysis.value.questionScores.Some? ==>
              var scores := StoreScores(analysis.value.questionScores.value, questions);
              var decision := DecisionOf(analysis.value.overallScore);
              && r == Success(AnalysisOutcome(scores, analysis.value.overallScore, analysis.value.overallFeedback, decision))
              && records == old(records)[interviewId := ApplyAnalysis(rec, scores, analysis.value.overallScore, decision)])
    {
      if interviewId !in records || records[interviewId].transcript.None? || records[interviewId].transcript.value == "" {
        return Failure(AnalysisError);
      }
      var analysis := LlmAnalysis.AnalyzeTranscript(records[interviewId].transcript.value, questions, complete, parse);
      if analysis.Failure? || analysis.value.questionScores.None? {
        return Failure(AnalysisError);
      }
      var questionScores := StoreScores(analysis.value.questionScores.value, questions);
      var decision := DecisionOf(analysis.value.overallScore);
      records := records[interviewId := ApplyAnalysis(records[interviewId], questionScores, analysis.value.overallScore, decision)];
      r := Success(AnalysisOutcome(questionScores, analysis.value.overallScore, analysis.value.overallFeedback, decision));
    }
  }
}
