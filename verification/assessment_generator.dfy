/**
 * The template assessment generator: one section per skill, each with five numbered
 * multiple-choice questions and, for programming skills, one coding question.
 */
module AssessmentGenerator {
  import opened Wrappers
  import opened Text

  datatype QuestionType = MultipleChoice | Coding

  datatype AssessmentStatus = Created | Sent | InProgress | Completed | Expired

  /** A question; a coding question has no options (the empty array) and no correct answer. */
  datatype Question = Question(questionType: QuestionType, content: string, options: seq<string>, correctAnswer: Option<string>)

  datatype Section = Section(title: string, questions: seq<Question>, timeAllowed: int)

  datatype Assessment = Assessment(candidateId: string, title: string, sections: seq<Section>, status: AssessmentStatus)

  /** The skills that get a coding question, compared as whole strings. */
  const CodingSkills: seq<string> := ["JavaScript", "Python", "Java", "React", "Node.js"]

  /** Thirty minutes, in seconds. */
  const SectionTime := 1800

  function OptionText(letter: string, skill: string, i: nat): string
  {
    "Option " + letter + " for " + skill + " question " + Itoa(i)
  }

  function QuestionContent(skill: string, i: nat): string
  {
    "Sample " + skill + " question " + Itoa(i) + "?"
  }

  /** Multiple-choice question number i for a skill. */
  function ChoiceQuestion(skill: string, i: nat): Question
  {
    var options := [OptionText("A", skill, i), OptionText("B", skill, i), OptionText("C", skill, i), OptionText("D", skill, i)];
    Question(MultipleChoice, QuestionContent(skill, i), options, Some(OptionText("A", skill, i)))
  }

  function CodingQuestion(skill: string): Question
  {
    Question(Coding, "Write a function in " + skill + " that performs a simple task.", [], None)
  }

  /** The section generated for one skill. */
  function SectionFor(skill: string): Section
  {
    var choices := seq(5, j requires 0 <= j < 5 => ChoiceQuestion(skill, j + 1));
    Section(skill + " Assessment",
            if skill in CodingSkills then choices + [CodingQuestion(skill)] else choices,
            SectionTime)
  }

  /** The message generateAssessment throws when building or saving fails. */
  const GenerateError := "Failed to generate assessment"

  /**
   * Mongoose's `required` check on a string field: it rejects a missing value and the empty
   * string alike.
   */
  predicate Required(s: string)
  {
    s != ""
  }

  /** The Assessment schema's required fields: candidate id, title, section titles, question texts. */
  predicate MeetsSchema(a: Assessment)
  {
    && Required(a.candidateId)
    && Required(a.title)
    && (forall k :: 0 <= k < |a.sections| ==>
          && Required(a.sections[k].title)
          && forall i :: 0 <= i < |a.sections[k].questions| ==> Required(a.sections[k].questions[i].content))
  }

  /** The document the generator builds before saving it. */
  function Generated(candidateId: string, skills: seq<string>): Assessment
  {
    Assessment(candidateId, "Skill Assessment", seq(|skills|, k requires 0 <= k < |skills| => SectionFor(skills[k])), Created)
  }

  /**
   * generateAssessment: the loops push one section per skill, in the order of the skills, and
   * the assessment is created with the fixed title and status CREATED. `assessment.save()`
   * validates the document against the schema and then hands it to the database, whose answer
   * is `write`; either failing gives the one error message.
   */
  method GenerateAssessment(candidateId: string, skills: seq<string>, write: Assessment -> bool)
    returns (r: Result<Assessment>)
    ensures r.Failure? ==> r.error == GenerateError
    ensures r.Success? <==> MeetsSchema(Generated(candidateId, skills)) && write(Generated(candidateId, skills))
    ensures r.Success? ==>
      && r.value.candidateId == candidateId && r.value.title == "Skill Assessment" && r.value.status == Created
      && |r.value.sections| == |skills|
      && forall k :: 0 <= k < |skills| ==> r.value.sections[k] == SectionFor(skills[k])
  {
    var sections: seq<Section> := [];
    for k := 0 to |skills|
      invariant |sections| == k
      invariant forall j :: 0 <= j < k ==> sections[j] == SectionFor(skills[j])
    {
      var skill := skills[k];
      var questions: seq<Question> := [];
      for i := 1 to 6
        invariant |questions| == i - 1
        invariant forall j :: 0 <= j < i - 1 ==> questions[j] == ChoiceQuestion(skill, j + 1)
      {
        questions := questions + [ChoiceQuestion(skill, i)];
      }
      if skill in CodingSkills {
        questions := questions + [CodingQuestion(skill)];
      }
      assert questions == SectionFor(skill).questions;
      sections := sections + [Section(skill + " Assessment", questions, SectionTime)];
    }
    var assessment := Assessment(candidateId, "Skill Assessment", sections, Created);
    assert assessment == Generated(candidateId, skills);
    if !MeetsSchema(assessment) || !write(assessment) {
      return Failure(GenerateError);
    }
    r := Success(assessment);
  }

  /**
   * The generated sections and questions always meet the schema, so saving is refused by
   * validation exactly when the candidate id is empty.
   */
  lemma GeneratedMeetsSchema(candidateId: string, skills: seq<string>)
    ensures MeetsSchema(Generated(candidateId, skills)) <==> candidateId != ""
  {
    var a := Generated(candidateId, skills);
    forall k | 0 <= k < |a.sections|
      ensures Required(a.sections[k].title)
      ensures forall i :: 0 <= i < |a.sections[k].questions| ==> Required(a.sections[k].questions[i].content)
    {
      var skill := skills[k];
      assert |a.sections[k].title| >= |" Assessment"|;
      forall i | 0 <= i < |a.sections[k].questions| ensures Required(a.sections[k].questions[i].content) {
        SectionQuestion(skill, i);
        ContentEnds(skill, i + 1);
      }
    }
  }

  /**
   * The shape of a generated section: five multiple-choice questions with four options whose
   * correct answer is the first option, then a coding question exactly for programming skills.
   */
  lemma SectionShape(skill: string)
    ensures var s := SectionFor(skill);
      && s.title == skill + " Assessment" && s.timeAllowed == 1800
      && (|s.questions| == 6 <==> skill in CodingSkills)
      && (|s.questions| == 5 <==> skill !in CodingSkills)
      && (forall i :: 0 <= i < 5 ==>
            && s.questions[i].questionType == MultipleChoice
            && s.questions[i].content == QuestionContent(skill, i + 1)
            && |s.questions[i].options| == 4
            && s.questions[i].correctAnswer == Some(s.questions[i].options[0])
            && s.questions[i].correctAnswer.value in s.questions[i].options)
      && (|s.questions| == 6 ==> s.questions[5].questionType == Coding && s.questions[5].options == [])
  {
  }

  /** The number in a question's content tells the question apart: two numbers, two texts. */
  lemma {:induction false} QuestionContentInjective(skill: string, i: nat, j: nat)
    requires QuestionContent(skill, i) == QuestionContent(skill, j)
    ensures i == j
  {
    var prefix := "Sample " + skill + " question ";
    var ci, cj := QuestionContent(skill, i), QuestionContent(skill, j);
    assert ci == prefix + Itoa(i) + "?";
    assert cj == prefix + Itoa(j) + "?";
    assert |Itoa(i)| == |Itoa(j)|;
    assert ci[|prefix|..|ci| - 1] == Itoa(i);
    assert cj[|prefix|..|cj| - 1] == Itoa(j);
    ItoaInjective(i, j);
  }

  /** Question k of a section: multiple-choice number k + 1 for the first five, then coding. */
  lemma SectionQuestion(skill: string, k: nat)
    requires k < |SectionFor(skill).questions|
    ensures k < 5 ==> SectionFor(skill).questions[k].content == QuestionContent(skill, k + 1)
    ensures k >= 5 ==> SectionFor(skill).questions[k] == CodingQuestion(skill)
  {
  }

  /** A multiple-choice text ends in '?', the coding text in '.'. */
  lemma ContentEnds(skill: string, i: nat)
    ensures var c := QuestionContent(skill, i); |c| > 0 && c[|c| - 1] == '?'
    ensures var c := CodingQuestion(skill).content; |c| > 0 && c[|c| - 1] == '.'
  {
  }

  /** Within a section, no two questions have the same content. */
  lemma SectionContentsDistinct(skill: string)
    ensures var qs := SectionFor(skill).questions;
      forall i, j :: 0 <= i < j < |qs| ==> qs[i].content != qs[j].content
  {
    var qs := SectionFor(skill).questions;
    forall i, j | 0 <= i < j < |qs| ensures qs[i].content != qs[j].content {
      SectionQuestion(skill, i);
      SectionQuestion(skill, j);
      ContentEnds(skill, i + 1);
      if j < 5 && qs[i].content == qs[j].content {
        QuestionContentInjective(skill, i + 1, j + 1);
      }
    }
  }
}
