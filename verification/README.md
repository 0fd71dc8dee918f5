# SmartHire, modelled in Dafny

SmartHire is a hiring platform. A recruiter creates skill assessments and schedules video
interviews. Candidates take the assessments in the browser while a camera watches their emotions.
After an interview, its recording is transcribed, a language model scores the transcript against
rubric questions, and the overall score becomes a hiring decision. A small Python service
assembles a final report from an emotion histogram and a transcript score.

This project models the sequential core of that system and proves properties of it:

- `InterviewService` (`interview_service.dfy`) covers the interview pipeline. It is a store
  class over a map from interview id to record, with these operations:
  - scheduling creates the meeting, then the record;
  - completing the interview attaches the first M4A/MP4 recording and its transcript;
  - the analysis stores the per-question scores, the overall score and the decision from the
    1–5 table.
- `LlmAnalysis` (`llm_analysis.dfy`) covers the language-model analysis:
  - the prompt, with its numbered question list;
  - extracting the greedy `{…}` block from the model's reply;
  - the error handling, which reduces every failure to one message.
- `AssessmentGenerator` (`assessment_generator.dfy`) covers the template generator. Its loops
  build one section per skill: five numbered multiple-choice questions, plus one coding question
  for programming skills. Saving checks the schema's required fields, then the database write,
  and either failure gives one error message.
- `EmotionAnalysis` (`emotion_analysis.dfy`) covers the emotion statistics of an assessment:
  the counting pass and the percentage of each emotion that occurs. A failed query gives one
  error message.
- `ReportGenerator` (`report_generator.py` in the Python service) covers the final report:
  - a stub resume summary;
  - the label histogram;
  - the scorer's score and feedback.
- `AssessmentTaking` (`assessment_taking.dfy`) covers the candidate's assessment screen:
  - a (section, question) cursor with next and previous;
  - the answers map, the countdown and the permission modal;
  - the progress bar and the `mm:ss` clock.
- `CreateAssessment` (`create_assessment.dfy`) covers the recruiter's assessment builder:
  - duplicate-free skills;
  - sections and questions saved and deleted by id;
  - option lists kept between two and six entries;
  - the predicates that enable its buttons, and the review totals.
- `InterviewList`, `CandidateList` and `AssessmentList` cover the three list pages. Each page
  has a case-insensitive search plus a status filter. The interview list also sorts (scheduled
  interviews first, soonest first; then the rest, newest first) and colours scores.
- Helper modules model the JavaScript and Python built-ins the core relies on:
  - `Text`: ASCII `toLowerCase`, `trim`, `includes`, `parseInt`, number to string,
    `padStart`, `join` and `split`;
  - `Sequences`: `filter`, `findIndex`, the find-or-push save, and a summing `reduce`;
  - `Histogram`: a counting dictionary whose keys are in first-occurrence order.

Calls to outside services become function parameters of the operations that make them. These
are:

- the meeting backend: create a meeting, list recordings, fetch a transcript;
- the chat completion;
- `JSON.parse`;
- the Python transcript scorer.

A failure of any of them is a `Failure` value.

## Model

| member | source | states |
|---|---|---|
| `InterviewService.DecisionFor` | SmartHire_Backend/src/services/interview/interviewService.ts:152-158 | the decision table is defined exactly for overall scores 1 to 5 |
| `InterviewService.DecisionTableOrdered` | SmartHire_Backend/src/services/interview/interviewService.ts:152-158 | a higher score in 1..5 never maps to a worse decision, and every decision is reached by some score |
| `InterviewService.MeetingRequestFor` | SmartHire_Backend/src/services/interview/interviewService.ts:22-27 | the meeting has the fixed topic "Interview with Candidate" and agenda "AI Smart Hire Interview Session", starts at the scheduled time, and lasts the given duration when it is non-zero, or 60 minutes when it is missing or zero |
| `InterviewService.FindRecordingSpec` | SmartHire_Backend/src/services/interview/interviewService.ts:72-74 | the chosen recording is the first M4A or MP4 file; there is none only when no file has either type |
| `InterviewService.StoreScoresJoinQuestions` | SmartHire_Backend/src/services/interview/interviewService.ts:144-149 | stored scores keep the model's order, ids, scores and feedback; a score numbered "i+1" is joined to question i, or to no question past the end of the list |
| `InterviewService.ReanalysisOverwrites` | SmartHire_Backend/src/services/interview/interviewService.ts:161-168 | a second analysis replaces the question scores rather than adding to them; with a tabled overall score the first analysis leaves no trace |
| `InterviewService.StaleDecisionAfterUntabledScore` | SmartHire_Backend/src/services/interview/interviewService.ts:161-168 | an overall score outside the table (6 after 3) is stored while the earlier decision (on hold) stays |
| `InterviewService.InterviewStore.ScheduleInterview` | SmartHire_Backend/src/services/interview/interviewService.ts:14-45 | a failed meeting stores nothing and reports "Failed to schedule interview"; otherwise one SCHEDULED record with the meeting's id as text is added and returned |
| `InterviewService.InterviewStore.ProcessCompletedInterview` | SmartHire_Backend/src/services/interview/interviewService.ts:50-100 | a missing record or meeting id, or a failed recording lookup, changes nothing and reports the error; with an M4A/MP4 recording the record gets its id, COMPLETED status and, if fetched, the transcript; without one it is returned unchanged; record consistency is kept |
| `InterviewService.InterviewStore.ProcessTranscript` | SmartHire_Backend/src/services/interview/interviewService.ts:105-124 | a fetched transcript is stored on the record and nothing else changes; a failed fetch or missing record changes nothing and reports "Failed to process transcript" |
| `InterviewService.InterviewStore.AnalyzeInterview` | SmartHire_Backend/src/services/interview/interviewService.ts:126-180 | without a non-empty transcript, or on any analysis failure or missing questionScores, nothing changes and "Failed to analyze interview" is reported; otherwise the stored scores, overall score and decision are written (undefined fields left as they were) and returned with the feedback |
| `LlmAnalysis.QuestionListLines` | SmartHire_Backend/src/services/llm/openaiService.ts:28 | splitting the question list at line breaks gives one numbered line per question, in order, when no question contains a line break |
| `LlmAnalysis.NumberedLineReadsBack` | SmartHire_Backend/src/services/llm/openaiService.ts:28 | parseInt of a numbered line is the question's 1-based number, and the text after "n. " is the question |
| `LlmAnalysis.PromptCarriesInputs` | SmartHire_Backend/src/services/llm/openaiService.ts:19-54 | the prompt holds the transcript verbatim and, after the heading, the numbered question list |
| `LlmAnalysis.ExtractJsonSpec` | SmartHire_Backend/src/services/llm/openaiService.ts:73-76 | no block exactly when no '{' has a later '}'; otherwise the block runs from a '{' to a later '}' and starts no later and ends no earlier than any other such piece (leftmost, greedy) |
| `LlmAnalysis.ExtractJsonShape` | SmartHire_Backend/src/services/llm/openaiService.ts:73 | the extracted block is a piece of the reply, at least two long, starting with '{' and ending with '}' |
| `LlmAnalysis.ExtractJsonIdempotent` | SmartHire_Backend/src/services/llm/openaiService.ts:73 | extracting from an extracted block gives the same block |
| `LlmAnalysis.AnalyzeTranscript` | SmartHire_Backend/src/services/llm/openaiService.ts:16-83 | every failure carries "Failed to analyze interview with LLM"; success exactly when the completion returns non-empty content with a block that parses, and the result is that parse |
| `AssessmentGenerator.GenerateAssessment` | SmartHire_Backend/src/services/assessment/assessmentGenerator.ts:21-83 | succeeds exactly when the built document meets the schema and the database accepts it, otherwise fails with "Failed to generate assessment"; on success, one section per skill in input order, each the skill's section, candidate id copied, title "Skill Assessment", status CREATED |
| `AssessmentGenerator.GeneratedMeetsSchema` | SmartHire_Backend/src/models/Assessment.ts:4-32 | the generated section titles and question texts always satisfy `required`, so validation refuses the document exactly when the candidate id is empty |
| `AssessmentGenerator.SectionShape` | SmartHire_Backend/src/services/assessment/assessmentGenerator.ts:38-66 | title "{skill} Assessment", 1800 seconds; five multiple-choice questions numbered 1..5 with four options and the first option as answer; a sixth, coding question exactly for JavaScript, Python, Java, React and Node.js |
| `AssessmentGenerator.SectionContentsDistinct` | SmartHire_Backend/src/services/assessment/assessmentGenerator.ts:38-60 | no two questions of a generated section have the same text |
| `EmotionAnalysis.CountEmotions` | SmartHire_Backend/src/services/emotion/emotionAnalysis.ts:38-41 | the counting pass yields, for each emotion that occurs, its number of points, with keys in first-occurrence order |
| `EmotionAnalysis.GetAssessmentEmotionData` | SmartHire_Backend/src/services/emotion/emotionAnalysis.ts:31-60 | a failed query gives "Failed to fetch emotion data"; otherwise the queried points are returned unchanged with the stats of those points |
| `EmotionAnalysis.StatsSpec` | SmartHire_Backend/src/services/emotion/emotionAnalysis.ts:45-51 | the stats hold exactly the emotions that occur, once each, each with count × 100 / total |
| `EmotionAnalysis.PercentagesSumTo100` | SmartHire_Backend/src/services/emotion/emotionAnalysis.ts:43-51 | with at least one point the percentages add up to 100 |
| `EmotionAnalysis.PercentagesInRange` | SmartHire_Backend/src/services/emotion/emotionAnalysis.ts:45-51 | with at least one point every percentage lies in (0, 100] |
| `EmotionAnalysis.NoPointsNoStats` | SmartHire_Backend/src/services/emotion/emotionAnalysis.ts:43-56 | no points give no stats |
| `Histogram.Counts` | SmartHire_Backend/src/services/emotion/emotionAnalysis.ts:38-41 | the counting pass maps exactly the labels that occur, each to its number of occurrences |
| `Histogram.KeysSpec` | SmartHire_Backend/src/services/emotion/emotionAnalysis.ts:38-41 | the keys of a counting dictionary are distinct and are exactly the labels that occur |
| `Histogram.CountPositive` | SmartHire_Py/app/services/report_generator.py:16 | a label's count is positive exactly when it occurs, and at most the number of labels |
| `Histogram.SumOfCounts` | SmartHire_Py/app/services/report_generator.py:16 | the counts over the distinct labels add up to the number of labels |
| `ReportGenerator.GenerateFinalReport` | SmartHire_Py/app/services/report_generator.py:13-26 | fails exactly when the scorer fails; otherwise copies the candidate id, score and feedback, uses the stub resume summary, and maps each label that occurs to its positive count |
| `ReportGenerator.EmotionSummaryTotal` | SmartHire_Py/app/services/report_generator.py:16-23 | the emotion summary's entries are the label counts, and they add up to the number of labels |
| `AssessmentTaking.NavigationKeepsBounds` | SmartHire_Frontend/src/components/assessment/AssessmentTaking.tsx:154-174 | with every section non-empty, next and previous keep the cursor on an existing question |
| `AssessmentTaking.NavigationInverse` | SmartHire_Frontend/src/components/assessment/AssessmentTaking.tsx:154-174 | previous undoes next except at the last question, and next undoes previous except at the first |
| `AssessmentTaking.NavigationEnds` | SmartHire_Frontend/src/components/assessment/AssessmentTaking.tsx:189-195 | isLastQuestion holds exactly where next does nothing, and (0,0), where previous is disabled, is exactly where previous does nothing |
| `AssessmentTaking.ProgressBounds` | SmartHire_Frontend/src/components/assessment/AssessmentTaking.tsx:198-214 | progress is between 0 and 100 and is 100 exactly at the last question |
| `AssessmentTaking.FormatTimeReadsBack` | SmartHire_Frontend/src/components/assessment/AssessmentTaking.tsx:97-101 | the clock is digits, ':', two digits; they read back as whole minutes and remaining seconds; it is five characters exactly under 6000 seconds |
| `AssessmentTaking.Session.constructor` | SmartHire_Frontend/src/components/assessment/AssessmentTaking.tsx:29-35 | the screen starts at the first question with 1800 seconds, no answers, the permission modal open and camera and screen share off |
| `AssessmentTaking.Session.NextQuestion` | SmartHire_Frontend/src/components/assessment/AssessmentTaking.tsx:154-163 | the cursor moves as Next says and stays on an existing question |
| `AssessmentTaking.Session.PrevQuestion` | SmartHire_Frontend/src/components/assessment/AssessmentTaking.tsx:165-174 | the cursor moves as Prev says and stays on an existing question |
| `AssessmentTaking.Session.SelectAnswer` | SmartHire_Frontend/src/components/assessment/AssessmentTaking.tsx:146-151 | the answer is recorded under the question id and every other answer is untouched |
| `AssessmentTaking.Session.Tick` | SmartHire_Frontend/src/components/assessment/AssessmentTaking.tsx:104-109 | the countdown drops by one only while time is left and the modal is closed, so it never goes negative |
| `AssessmentTaking.Session.GrantPermissions` | SmartHire_Frontend/src/components/assessment/AssessmentTaking.tsx:128-143 | granted camera access turns camera and screen share on and closes the modal; a refusal changes nothing |
| `AssessmentTaking.Session.CalculateProgress` | SmartHire_Frontend/src/components/assessment/AssessmentTaking.tsx:198-214 | the loop's result is floor(100 × questions so far / total), at most 100 and 100 exactly at the last question |
| `CreateAssessment.WithSkillKeepsClean` | SmartHire_Frontend/src/pages/assessment/CreateAssessment.tsx:33-38 | adding a skill keeps the list free of repeats and of blank or untrimmed entries |
| `CreateAssessment.WithSkillContents` | SmartHire_Frontend/src/pages/assessment/CreateAssessment.tsx:33-38 | adding keeps the old skills in front in order, adds at most the trimmed input, and the trimmed input is listed exactly when it is not blank |
| `CreateAssessment.RemoveSkillKeepsClean` | SmartHire_Frontend/src/pages/assessment/CreateAssessment.tsx:41-43 | removing a skill keeps the list free of repeats and of blank or untrimmed entries |
| `CreateAssessment.RemoveSkillContents` | SmartHire_Frontend/src/pages/assessment/CreateAssessment.tsx:41-43 | removing keeps the other skills in order, drops exactly that skill, and shortens the list by one exactly when it was there |
| `CreateAssessment.OptionListBounds` | SmartHire_Frontend/src/pages/assessment/CreateAssessment.tsx:87-96 | new and retyped multiple-choice questions get four blank options; adding below six and removing past the second keep two to six options; removing drops just that option |
| `CreateAssessment.SaveQuestionEnablement` | SmartHire_Frontend/src/pages/assessment/CreateAssessment.tsx:646-649 | a new question cannot be saved, nor one just switched to multiple choice; a saveable multiple-choice question has at least two options, one of them non-blank |
| `CreateAssessment.TimeLimitInputSpec` | SmartHire_Frontend/src/pages/assessment/CreateAssessment.tsx:442 | typing a number sets that time limit; text that is not a number sets 0 |
| `CreateAssessment.SaveQuestionKeepsSection` | SmartHire_Frontend/src/pages/assessment/CreateAssessment.tsx:99-113 | saving a question keeps the section's question ids distinct and its option lists bounded |
| `CreateAssessment.DeleteQuestionKeepsSection` | SmartHire_Frontend/src/pages/assessment/CreateAssessment.tsx:126-132 | deleting a question keeps the section's question ids distinct and its option lists bounded |
| `CreateAssessment.SaveSectionTotals` | SmartHire_Frontend/src/pages/assessment/CreateAssessment.tsx:715-721 | saving a section moves total questions and total time by the difference to the section it replaces, or adds its figures when its id is new |
| `CreateAssessment.ReviewEnablement` | SmartHire_Frontend/src/pages/assessment/CreateAssessment.tsx:378 | saving a section opens the review step, and deleting the only section closes it |
| `CreateAssessment.Builder.AddSkill` | SmartHire_Frontend/src/pages/assessment/CreateAssessment.tsx:33-38 | the skills become WithSkill of the old skills and input; the input is cleared exactly when a skill was added |
| `CreateAssessment.Builder.RemoveSkill` | SmartHire_Frontend/src/pages/assessment/CreateAssessment.tsx:41-43 | the skills lose exactly that skill |
| `CreateAssessment.Builder.CreateSection` | SmartHire_Frontend/src/pages/assessment/CreateAssessment.tsx:46-54 | the draft becomes an empty untitled 30-minute section with id "section-" and the clock reading |
| `CreateAssessment.Builder.SaveSection` | SmartHire_Frontend/src/pages/assessment/CreateAssessment.tsx:57-71 | the draft replaces the section with its id or is appended, and the draft closes; without a draft nothing changes |
| `CreateAssessment.Builder.SaveSectionIfTitled` | SmartHire_Frontend/src/pages/assessment/CreateAssessment.tsx:508-511 | the enabled "Save Section" button saves a titled draft |
| `CreateAssessment.Builder.EditSection` | SmartHire_Frontend/src/pages/assessment/CreateAssessment.tsx:74-79 | the saved section with that id becomes the draft; an unknown id changes nothing |
| `CreateAssessment.Builder.DeleteSection` | SmartHire_Frontend/src/pages/assessment/CreateAssessment.tsx:82-84 | the sections lose exactly those with that id, the rest in order |
| `CreateAssessment.Builder.SetTimeLimit` | SmartHire_Frontend/src/pages/assessment/CreateAssessment.tsx:442 | the draft's time limit becomes parseInt of the input, or 0 |
| `CreateAssessment.Builder.CreateQuestion` | SmartHire_Frontend/src/pages/assessment/CreateAssessment.tsx:87-96 | with a draft section, the draft question becomes a blank multiple-choice question with four blank options |
| `CreateAssessment.Builder.SaveQuestion` | SmartHire_Frontend/src/pages/assessment/CreateAssessment.tsx:99-113 | the draft question replaces the draft section's question with its id or is appended, and closes |
| `CreateAssessment.Builder.EditQuestion` | SmartHire_Frontend/src/pages/assessment/CreateAssessment.tsx:116-123 | the draft section's question with that id becomes the draft question |
| `CreateAssessment.Builder.DeleteQuestion` | SmartHire_Frontend/src/pages/assessment/CreateAssessment.tsx:126-132 | the draft section loses exactly the questions with that id |
| `CreateAssessment.Builder.SetQuestionType` | SmartHire_Frontend/src/pages/assessment/CreateAssessment.tsx:543-548 | retyping resets the options and answer as Retyped says |
| `CreateAssessment.Builder.AddOption` | SmartHire_Frontend/src/pages/assessment/CreateAssessment.tsx:616-624 | below six options a blank option is appended |
| `CreateAssessment.Builder.RemoveOption` | SmartHire_Frontend/src/pages/assessment/CreateAssessment.tsx:598-604 | an option past the second is removed |
| `CreateAssessment.Builder.SetOptionText` | SmartHire_Frontend/src/pages/assessment/CreateAssessment.tsx:592-596 | one option's text is replaced; the chosen answer is kept as it was |
| `CreateAssessment.Builder.ChooseAnswer` | SmartHire_Frontend/src/pages/assessment/CreateAssessment.tsx:584-585 | the chosen option's current text becomes the correct answer |
| `CreateAssessment.Builder.GoToSections` | SmartHire_Frontend/src/pages/assessment/CreateAssessment.tsx:293-294 | with a title and a skill the form moves to step 2 |
| `CreateAssessment.Builder.GoToReview` | SmartHire_Frontend/src/pages/assessment/CreateAssessment.tsx:377-378 | with a saved section the form moves to step 3 |
| `CreateAssessment.Builder.Back` | SmartHire_Frontend/src/pages/assessment/CreateAssessment.tsx:367-374 | "Back" moves one step back: step 2 to 1 here, and step 3 to 2 at the review step's button (lines 728-731 of the same file) |
| `Sequences.UpsertSpec` | SmartHire_Frontend/src/pages/assessment/CreateAssessment.tsx:57-71 | saving replaces the item with the same id, keeping length and order, or appends a new id; ids stay unique |
| `Sequences.DeleteByIdSpec` | SmartHire_Frontend/src/pages/assessment/CreateAssessment.tsx:82-84 | deleting keeps the other items in order, removes exactly those with the id, and keeps ids unique |
| `Sequences.DeleteByIdLength` | SmartHire_Frontend/src/pages/assessment/CreateAssessment.tsx:126-132 | with unique ids, deleting a present id removes one item and an absent id none |
| `ListSearch.MatchesSpec` | SmartHire_Frontend/src/pages/candidates/CandidateList.tsx:31-33 | the search ignores the case of term and field, finds any verbatim piece of the field, and the empty term matches every field |
| `CandidateList.FilterCandidatesSpec` | SmartHire_Frontend/src/pages/candidates/CandidateList.tsx:30-38 | the shown candidates are exactly the matching ones in their original order; empty search with "all" shows all; another filter shows only that status |
| `AssessmentList.FilterAssessmentsSpec` | SmartHire_Frontend/src/pages/assessment/AssessmentList.tsx:93-101 | the shown assessments are exactly the matching ones in their original order; empty search with "all" shows all; another filter shows only that status |
| `AssessmentList.MatchingMonotoneInSkills` | SmartHire_Frontend/src/pages/assessment/AssessmentList.tsx:96 | giving an assessment one more target skill never makes it stop matching |
| `InterviewList.FilterInterviewsSpec` | SmartHire_Frontend/src/pages/interview/InterviewList.tsx:84-95 | the kept interviews are exactly the matching ones in their original order; empty search with "all" keeps all; another filter keeps only that status |
| `InterviewList.CompareConsistent` | SmartHire_Frontend/src/pages/interview/InterviewList.tsx:98-113 | the comparator is antisymmetric, total and transitive, so the sort is well defined |
| `InterviewList.SortInterviews` | SmartHire_Frontend/src/pages/interview/InterviewList.tsx:98-113 | the sorted list is in comparator order and a permutation of its input |
| `InterviewList.SortedOrder` | SmartHire_Frontend/src/pages/interview/InterviewList.tsx:99-112 | in sorted order scheduled interviews come before all others, scheduled ones by ascending time, the rest by descending time |
| `InterviewList.ShownInterviewsSpec` | SmartHire_Frontend/src/pages/interview/InterviewList.tsx:84-113 | the shown list is sorted, a permutation of the filtered list, and holds exactly the matching interviews |
| `InterviewList.ScoreColourBands` | SmartHire_Frontend/src/pages/interview/InterviewList.tsx:282-286 | green from 85, yellow from 70 to 84, red below 70; a higher score never gets a worse colour |

## Left out

- Meetings, transcripts, the chat completion, the Python transcript scorer and `JSON.parse`
  (the Zoom client in `zoomService.ts`, the OpenAI client, `scorer.py`) are function
  parameters. Their HTTP, token signing and parsing are not modelled.
- The Prisma interview store is an in-memory map. A Mongoose query or save is a function
  parameter that returns the documents or accepts the write, or fails. The
  GraphQL resolvers are not modelled, including `completeInterview`, which only calls
  ProcessCompletedInterview and then AnalyzeInterview. The store's choice of a new record id
  is a parameter.
- InterviewService.InterviewStore.ProcessCompletedInterview: the source starts the transcript
  fetch without awaiting it, then re-reads the record. Whether the returned record has the
  transcript therefore depends on timing. The model finishes the fetch before re-reading. A
  failed fetch is ignored, as the source's `.catch` only logs it.
- InterviewService.InterviewStore.AnalyzeInterview: the source calls the analyzer through
  `this.openaiService`, a field the class does not have. As written, every analysis fails with
  "Failed to analyze interview". The model calls the module-level analyzer that the file
  creates.
- InterviewService.InterviewStore.AnalyzeInterview: scores are integers. A fractional overall
  score such as 3.5 has no entry in the decision table; that case is not modelled.
- InterviewService.InterviewStore.ScheduleInterview: `new Date(scheduledTime)` is not modelled.
  The scheduled time is kept as the given text.
- Text.ParseInt: covers decimal digits after optional white space and a sign. The "0x"
  hexadecimal prefix that `parseInt` also accepts is not modelled.
- Text.Lower: lower-cases ASCII letters only. Unicode case mapping is not modelled.
- AssessmentTaking.Session.CalculateProgress: uses the integer floor of
  100 × questionsSoFar / total. The source computes `(questionsSoFar / total) * 100` in
  floating point, which can come out one lower (29 of 100 gives 28).
- EmotionAnalysis: percentages are exact reals, not doubles. The query's ordering by timestamp
  is taken as given. The confidence of a data point is carried but not used.
- AssessmentGenerator.GenerateAssessment: of the schema, only the `required` string fields are
  checked; enum fields are datatypes here. The `createdAt`/`updatedAt` defaults and the
  document id the database assigns are not modelled.
- `analyzeEmotion` (emotionAnalysis.ts:10-26), which only passes a screenshot to the
  TensorFlow detector, and the detectors themselves (`tensorflowService.ts` and the OpenCV
  `analyzer.py`) are not modelled. They are random or machine-learned and have no sequential
  core.
- ReportGenerator.GenerateFinalReport: the emotion summary is a map, so the key order of the
  Python dictionary is not modelled. The order of first occurrence is modelled by
  `Histogram.Keys`, which the TypeScript statistics use.
- CreateAssessment.Builder.SaveQuestion: the model works on values. In the source,
  `{ ...currentSection }` is a shallow copy, so saving a question mutates the questions array
  it shares with a section already in the saved list. Question edits then reach the saved
  section even if the section edit is cancelled. This aliasing is not modelled.
- CreateAssessment: some handlers are not modelled:
  - plain text-field setters (title, description, section title, question content);
  - `handleCreateAssessment`, which only logs and navigates.

  Ids built from `Date.now()` take the clock reading as a parameter.
- InterviewList.SortInterviews: states only that the result is sorted by the comparator and a
  permutation of its input. It does not state that ties keep their input order, as the
  browser's stable sort does. Dates are given as timestamps, so an unparseable date (NaN) is
  not modelled.
- AssessmentTaking: some parts of the screen are not modelled:
  - the camera and screen-share calls, and the screenshot timer (which only logs);
  - the submit alert;
  - the hard-coded mock assessment, which the model takes as a parameter.
- Rendering and other pages are not modelled:
  - JSX, routing and charts;
  - the dashboards, candidate detail and resume upload pages;
  - the candidate dashboard's clock and date formatting (`getTimeRemaining`, `formatDate`);
  - the resume parser stub, the file upload service, the FastAPI routers and Keycloak
    authentication.
