/**
 * The recruiter's assessment builder: a three-step form collecting title, description and
 * target skills, then sections with their questions, then a review with totals. Sections and
 * questions are edited in a draft and saved back into their list by id.
 *
 * The ids the screen derives from the clock ("section-" and "question-" followed by
 * milliseconds) take the clock reading as a parameter.
 */
module CreateAssessment {
  import opened Wrappers
  import opened Text
  import opened Sequences

  datatype QuestionKind = MultipleChoice | Coding | TextAnswer

  /** A question; options and correctAnswer are undefined (None) unless set. */
  datatype Question = Question(id: string, kind: QuestionKind, content: string, options: Option<seq<string>>, correctAnswer: Option<string>)

  /** A section; timeLimit is in minutes. */
  datatype Section = Section(id: string, title: string, description: string, timeLimit: int, questions: seq<Question>)

  function SectionId(s: Section): string { s.id }

  function QuestionId(q: Question): string { q.id }

  /** A skill is its own id: the skill list is deleted from and checked for repeats by value. */
  function Same(s: string): string { s }

  // ---------------------------------------------------------------- skills

  /** handleAddSkill: the trimmed input is appended if it is non-empty and not already listed. */
  function WithSkill(skills: seq<string>, input: string): seq<string>
  {
    var t := Trim(input);
    if t != "" && t !in skills then skills + [t] else skills
  }

  /** Every skill is trimmed and non-empty. */
  predicate CleanSkills(skills: seq<string>)
  {
    forall i :: 0 <= i < |skills| ==> skills[i] != "" && Trim(skills[i]) == skills[i]
  }

  /** Adding keeps the list free of repeats and of blank or untrimmed entries. */
  lemma WithSkillKeepsClean(skills: seq<string>, input: string)
    requires UniqueIds(skills, Same) && CleanSkills(skills)
    ensures UniqueIds(WithSkill(skills, input), Same) && CleanSkills(WithSkill(skills, input))
  {
    var t := Trim(input);
    if t != "" && t !in skills {
      var r := skills + [t];
      TrimIdempotent(input);
      forall i, j | 0 <= i < j < |r| ensures Same(r[i]) != Same(r[j]) {
        if j < |skills| {
          assert r[i] == skills[i] && r[j] == skills[j];
        } else {
          assert r[i] == skills[i];
        }
      }
    }
  }

  /**
   * Adding keeps the existing skills in front in their order, adds at most the trimmed input,
   * and leaves the trimmed input listed exactly when it is not blank.
   */
  lemma WithSkillContents(skills: seq<string>, input: string)
    requires CleanSkills(skills)
    ensures var r := WithSkill(skills, input);
      && |skills| <= |r| <= |skills| + 1 && r[..|skills|] == skills
      && (Trim(input) != "" <==> Trim(input) in r)
      && (forall s :: s in r ==> s in skills || s == Trim(input))
  {
    var t := Trim(input);
    var r := WithSkill(skills, input);
    if t != "" && t !in skills {
      assert r == skills + [t];
      assert r[..|skills|] == skills && r[|skills|] == t;
      forall s | s in r ensures s in skills || s == t {
        var k :| 0 <= k < |r| && r[k] == s;
        if k < |skills| { assert r[k] == skills[k]; }
      }
    } else {
      assert r == skills && r[..|skills|] == skills;
      if t == "" {
        forall i | 0 <= i < |skills| ensures skills[i] != t {
        }
      }
    }
  }

  /** handleRemoveSkill keeps the list free of repeats and of blank or untrimmed entries. */
  lemma RemoveSkillKeepsClean(skills: seq<string>, skill: string)
    requires UniqueIds(skills, Same) && CleanSkills(skills)
    ensures UniqueIds(DeleteById(skills, skill, Same), Same) && CleanSkills(DeleteById(skills, skill, Same))
  {
    DeleteByIdSpec(skills, skill, Same);
    var r := DeleteById(skills, skill, Same);
    forall i | 0 <= i < |r| ensures r[i] != "" && Trim(r[i]) == r[i] {
      assert r[i] in r;
      var j :| 0 <= j < |skills| && skills[j] == r[i];
    }
  }

  /** handleRemoveSkill: the list without that skill, the others in their order. */
  lemma RemoveSkillContents(skills: seq<string>, skill: string)
    requires UniqueIds(skills, Same)
    ensures var r := DeleteById(skills, skill, Same);
      && IsSubsequence(r, skills)
      && (forall s :: s in r <==> s in skills && s != skill)
      && |r| == if skill in skills then |skills| - 1 else |skills|
  {
    DeleteByIdSpec(skills, skill, Same);
    DeleteByIdLength(skills, skill, Same);
    var k := FindIndex(skills, HasId(Same, skill));
    if k >= 0 {
      assert skills[k] == skill;
    }
  }

  // ---------------------------------------------------------------- questions

  const BlankOptions: seq<string> := ["", "", "", ""]

  /** handleCreateQuestion: a blank multiple-choice question with four blank options. */
  function NewQuestion(now: nat): Question
  {
    Question("question-" + Itoa(now), MultipleChoice, "", Some(BlankOptions), None)
  }

  /** Changing the type: multiple choice gets four blank options and a blank answer, the rest neither. */
  function Retyped(q: Question, kind: QuestionKind): Question
  {
    q.(kind := kind,
       options := if kind == MultipleChoice then Some(BlankOptions) else None,
       correctAnswer := if kind == MultipleChoice then Some("") else None)
  }

  /** The "Add Option" button is shown for a multiple-choice question with fewer than six options. */
  predicate CanAddOption(q: Question)
  {
    q.kind == MultipleChoice && q.options.Some? && |q.options.value| < 6
  }

  /** A remove button is shown beside every option after the second. */
  predicate CanRemoveOption(q: Question, index: int)
  {
    q.kind == MultipleChoice && q.options.Some? && 1 < index < |q.options.value|
  }

  function WithOptionAdded(q: Question): Question
    requires q.options.Some?
  {
    q.(options := Some(q.options.value + [""]))
  }

  /** options.filter((_, i) => i !== index) */
  function WithOptionRemoved(q: Question, index: nat): Question
    requires q.options.Some? && index < |q.options.value|
  {
    q.(options := Some(q.options.value[..index] + q.options.value[index + 1..]))
  }

  /** Editing option index's text; the chosen answer is kept as it was. */
  function WithOptionText(q: Question, index: nat, text: string): Question
    requires q.options.Some? && index < |q.options.value|
  {
    q.(options := Some(q.options.value[index := text]))
  }

  /** A multiple-choice question has between two and six options. */
  predicate OptionsBounded(q: Question)
  {
    q.kind == MultipleChoice ==> q.options.Some? && 2 <= |q.options.value| <= 6
  }

  /**
   * The option list keeps between two and six entries: a new or retyped question starts with
   * four, an option is added only below six, removed only past the second; removing drops just
   * that option and keeps the rest in order.
   */
  lemma OptionListBounds(q: Question, now: nat, kind: QuestionKind, index: nat, text: string)
    ensures OptionsBounded(NewQuestion(now)) && OptionsBounded(Retyped(q, kind))
    ensures kind == MultipleChoice ==> Retyped(q, kind).options == Some(["", "", "", ""])
    ensures OptionsBounded(q) && CanAddOption(q) ==>
      OptionsBounded(WithOptionAdded(q)) && |WithOptionAdded(q).options.value| == |q.options.value| + 1
    ensures OptionsBounded(q) && CanRemoveOption(q, index) ==>
      var r := WithOptionRemoved(q, index).options.value;
      && OptionsBounded(WithOptionRemoved(q, index))
      && |r| == |q.options.value| - 1
      && (forall i :: 0 <= i < |r| ==> r[i] == q.options.value[if i < index then i else i + 1])
    ensures OptionsBounded(q) && q.options.Some? && index < |q.options.value| ==>
      OptionsBounded(WithOptionText(q, index, text))
  {
  }

  /** The "Save Question" button: content, and for multiple choice two non-blank options and an answer. */
  predicate CanSaveQuestion(q: Question)
  {
    && q.content != ""
    && (q.kind == MultipleChoice ==>
          && q.options.Some?
          && |Filter(q.options.value, NotBlank)| >= 2
          && q.correctAnswer.Some? && q.correctAnswer.value != "")
  }

  predicate NotBlank(o: string)
  {
    Trim(o) != ""
  }

  /**
   * A new question cannot be saved before it has content, a question just switched to multiple
   * choice not before an answer is chosen, and a saveable multiple-choice question has at least
   * two non-blank options.
   */
  lemma SaveQuestionEnablement(q: Question, now: nat)
    ensures !CanSaveQuestion(NewQuestion(now))
    ensures !CanSaveQuestion(Retyped(q, MultipleChoice))
    ensures CanSaveQuestion(q) && q.kind == MultipleChoice ==>
      |q.options.value| >= 2 && exists i :: 0 <= i < |q.options.value| && NotBlank(q.options.value[i])
  {
    if CanSaveQuestion(q) && q.kind == MultipleChoice {
      var kept := Filter(q.options.value, NotBlank);
      FilterShorter(q.options.value, NotBlank);
      assert kept[0] in kept;
    }
  }

  // ---------------------------------------------------------------- sections

  /** handleCreateSection: an empty untitled section of 30 minutes. */
  function NewSection(now: nat): Section
  {
    Section("section-" + Itoa(now), "", "", 30, [])
  }

  /** The time limit field: parseInt(value) || 0, so text without a number and a zero both give 0. */
  function TimeLimitInput(value: string): int
  {
    var n := ParseInt(value);
    if n.None? || n.value == 0 then 0 else n.value
  }

  /** Typing a number sets exactly that limit; typing something that is not a number sets 0. */
  lemma TimeLimitInputSpec(n: nat, value: string)
    ensures TimeLimitInput(Itoa(n)) == n
    ensures ParseInt(value).None? ==> TimeLimitInput(value) == 0
  {
    ParseIntOfItoa(n);
  }

  /** The questions of a section have distinct ids and bounded option lists. */
  predicate SectionOk(s: Section)
  {
    UniqueIds(s.questions, QuestionId) && forall i :: 0 <= i < |s.questions| ==> OptionsBounded(s.questions[i])
  }

  /** Saving a question into a section keeps the section well formed. */
  lemma SaveQuestionKeepsSection(s: Section, q: Question)
    requires SectionOk(s) && OptionsBounded(q)
    ensures SectionOk(s.(questions := Upsert(s.questions, q, QuestionId)))
  {
    UpsertSpec(s.questions, q, QuestionId);
    var r := Upsert(s.questions, q, QuestionId);
    var k := FindIndex(s.questions, HasId(QuestionId, q.id));
    forall i | 0 <= i < |r| ensures OptionsBounded(r[i]) {
      if k < 0 && i == |s.questions| {
        assert r[i] == q;
      } else if i != k {
        assert r[i] == s.questions[i];
      }
    }
  }

  /** Deleting a question keeps the section well formed. */
  lemma DeleteQuestionKeepsSection(s: Section, id: string)
    requires SectionOk(s)
    ensures SectionOk(s.(questions := DeleteById(s.questions, id, QuestionId)))
  {
    DeleteByIdSpec(s.questions, id, QuestionId);
    var r := DeleteById(s.questions, id, QuestionId);
    forall i | 0 <= i < |r| ensures OptionsBounded(r[i]) {
      assert r[i] in r;
    }
  }

  // ---------------------------------------------------------------- totals

  function QuestionCount(s: Section): int { |s.questions| }

  function TimeLimitOf(s: Section): int { s.timeLimit }

  /** The review step's "Total Questions". */
  function TotalQuestions(sections: seq<Section>): int
  {
    Sum(sections, QuestionCount)
  }

  /** The review step's "Total Time", in minutes. */
  function TotalTime(sections: seq<Section>): int
  {
    Sum(sections, TimeLimitOf)
  }

  /**
   * Saving a section moves both totals by the difference between the saved section and the one
   * it replaces, or adds the saved section's figures when its id is new.
   */
  lemma SaveSectionTotals(sections: seq<Section>, s: Section)
    ensures var k := FindIndex(sections, HasId(SectionId, s.id)); var r := Upsert(sections, s, SectionId);
      && (k >= 0 ==>
            && TotalQuestions(r) == TotalQuestions(sections) - |sections[k].questions| + |s.questions|
            && TotalTime(r) == TotalTime(sections) - sections[k].timeLimit + s.timeLimit)
      && (k < 0 ==>
            && TotalQuestions(r) == TotalQuestions(sections) + |s.questions|
            && TotalTime(r) == TotalTime(sections) + s.timeLimit)
  {
    var k := FindIndex(sections, HasId(SectionId, s.id));
    if k >= 0 {
      SumReplace(sections, k, s, QuestionCount);
      SumReplace(sections, k, s, TimeLimitOf);
    } else {
      SumAppend(sections, [s], QuestionCount);
      SumAppend(sections, [s], TimeLimitOf);
    }
  }

  // ---------------------------------------------------------------- step enablement

  /** "Next: Add Sections": a title and at least one skill. */
  predicate CanGoToSections(title: string, skills: seq<string>)
  {
    title != "" && |skills| > 0
  }

  /** "Next: Review": at least one section. */
  predicate CanReview(sections: seq<Section>)
  {
    |sections| > 0
  }

  /** "Save Section": the draft has a title. */
  predicate CanSaveSection(s: Section)
  {
    s.title != ""
  }

  /** Once a section is saved the review step is open, and deleting the only section closes it again. */
  lemma ReviewEnablement(sections: seq<Section>, s: Section)
    requires UniqueIds(sections, SectionId)
    ensures CanReview(Upsert(sections, s, SectionId))
    ensures |sections| == 1 ==> !CanReview(DeleteById(sections, sections[0].id, SectionId))
  {
    UpsertSpec(sections, s, SectionId);
    if |sections| == 1 {
      DeleteByIdLength(sections, sections[0].id, SectionId);
    }
  }

  // ---------------------------------------------------------------- the form's state

  class Builder {
    var step: int
    var title: string
    var description: string
    var targetSkills: seq<string>
    var skillInput: string
    var sections: seq<Section>
    var currentSection: Option<Section>
    var currentQuestion: Option<Question>

    ghost predicate Valid()
      reads this
    {
      && 1 <= step <= 3
      && UniqueIds(targetSkills, Same) && CleanSkills(targetSkills)
      && UniqueIds(sections, SectionId)
      && (forall i :: 0 <= i < |sections| ==> SectionOk(sections[i]))
      && (currentSection.Some? ==> SectionOk(currentSection.value))
      && (currentQuestion.Some? ==> OptionsBounded(currentQuestion.value))
    }

    constructor ()
      ensures Valid() && step == 1 && title == "" && description == "" && targetSkills == [] && skillInput == ""
      ensures sections == [] && currentSection == None && currentQuestion == None
    {
      step, title, description, targetSkills, skillInput := 1, "", "", [], "";
      sections, currentSection, currentQuestion := [], None, None;
    }

    method AddSkill()
      requires Valid()
      modifies this`targetSkills, this`skillInput
      ensures Valid()
      ensures targetSkills == WithSkill(old(targetSkills), old(skillInput))
      ensures skillInput == if targetSkills == old(targetSkills) then old(skillInput) else ""
    {
      WithSkillKeepsClean(targetSkills, skillInput);
      var t := Trim(skillInput);
      if t != "" && t !in targetSkills {
        targetSkills := targetSkills + [t];
        skillInput := "";
      }
    }

    method RemoveSkill(skill: string)
      requires Valid()
      modifies this`targetSkills
      ensures Valid() && targetSkills == DeleteById(old(targetSkills), skill, Same)
    {
      RemoveSkillKeepsClean(targetSkills, skill);
      targetSkills := DeleteById(targetSkills, skill, Same);
    }

    method CreateSection(now: nat)
      requires Valid()
      modifies this`currentSection
      ensures Valid() && currentSection == Some(NewSection(now))
    {
      currentSection := Some(NewSection(now));
    }

    /** handleSaveSection: the draft replaces the section with its id, or is appended; the draft closes. */
    method SaveSection()
      requires Valid()
      modifies this`sections, this`currentSection
      ensures Valid()
      ensures old(currentSection).None? ==> sections == old(sections) && currentSection == None
      ensures old(currentSection).Some? ==>
        sections == Upsert(old(sections), old(currentSection).value, SectionId) && currentSection == None
    {
      if currentSection.Some? {
        var s := currentSection.value;
        UpsertSpec(sections, s, SectionId);
        var k := FindIndex(sections, HasId(SectionId, s.id));
        var updated := Upsert(sections, s, SectionId);
        forall i | 0 <= i < |updated| ensures SectionOk(updated[i]) {
          if k < 0 && i == |sections| {
            assert updated[i] == s;
          } else if i != k {
            assert updated[i] == sections[i];
          }
        }
        sections := updated;
        currentSection := None;
      }
    }

    /** handleSaveSection when its button is enabled. */
    method SaveSectionIfTitled()
      requires Valid() && currentSection.Some? && CanSaveSection(currentSection.value)
      modifies this`sections, this`currentSection
      ensures Valid() && currentSection == None
      ensures sections == Upsert(old(sections), old(currentSection).value, SectionId)
    {
      SaveSection();
    }

    /** handleEditSection: a saved section, found by id, becomes the draft. */
    method EditSection(sectionId: string)
      requires Valid()
      modifies this`currentSection
      ensures Valid()
      ensures var k := FindIndex(sections, HasId(SectionId, sectionId));
        currentSection == if k >= 0 then Some(sections[k]) else old(currentSection)
    {
      var k := FindIndex(sections, HasId(SectionId, sectionId));
      if k >= 0 {
        currentSection := Some(sections[k]);
      }
    }

    method DeleteSection(sectionId: string)
      requires Valid()
      modifies this`sections
      ensures Valid() && sections == DeleteById(old(sections), sectionId, SectionId)
    {
      DeleteByIdSpec(sections, sectionId, SectionId);
      var updated := DeleteById(sections, sectionId, SectionId);
      forall i | 0 <= i < |updated| ensures SectionOk(updated[i]) {
        assert updated[i] in updated;
      }
      sections := updated;
    }

    /** The time limit field of the draft section. */
    method SetTimeLimit(value: string)
      requires Valid() && currentSection.Some?
      modifies this`currentSection
      ensures Valid() && currentSection == Some(old(currentSection).value.(timeLimit := TimeLimitInput(value)))
    {
      currentSection := Some(currentSection.value.(timeLimit := TimeLimitInput(value)));
    }

    /** handleCreateQuestion: only while a section is being edited. */
    method CreateQuestion(now: nat)
      requires Valid()
      modifies this`currentQuestion
      ensures Valid()
      ensures currentQuestion == if currentSection.Some? then Some(NewQuestion(now)) else old(currentQuestion)
    {
      if currentSection.None? {
        return;
      }
      currentQuestion := Some(NewQuestion(now));
    }

    /** handleSaveQuestion: the draft question is saved into the draft section by id and closes. */
    method SaveQuestion()
      requires Valid()
      modifies this`currentSection, this`currentQuestion
      ensures Valid()
      ensures old(currentSection).Some? && old(currentQuestion).Some? ==>
        var s := old(currentSection).value;
        && currentSection == Some(s.(questions := Upsert(s.questions, old(currentQuestion).value, QuestionId)))
        && currentQuestion == None
      ensures old(currentSection).None? || old(currentQuestion).None? ==> unchanged(this)
    {
      if currentSection.Some? && currentQuestion.Some? {
        var s := currentSection.value;
        SaveQuestionKeepsSection(s, currentQuestion.value);
        currentSection := Some(s.(questions := Upsert(s.questions, currentQuestion.value, QuestionId)));
        currentQuestion := None;
      }
    }

    /** handleEditQuestion: a question of the draft section, found by id, becomes the draft question. */
    method EditQuestion(questionId: string)
      requires Valid()
      modifies this`currentQuestion
      ensures Valid()
      ensures currentSection.None? ==> currentQuestion == old(currentQuestion)
      ensures currentSection.Some? ==>
        var qs := currentSection.value.questions;
        var k := FindIndex(qs, HasId(QuestionId, questionId));
        currentQuestion == if k >= 0 then Some(qs[k]) else old(currentQuestion)
    {
      if currentSection.None? {
        return;
      }
      var qs := currentSection.value.questions;
      var k := FindIndex(qs, HasId(QuestionId, questionId));
      if k >= 0 {
        currentQuestion := Some(qs[k]);
      }
    }

    /** handleDeleteQuestion: drop the question with that id from the draft section. */
    method DeleteQuestion(questionId: string)
      requires Valid()
      modifies this`currentSection
      ensures Valid()
      ensures old(currentSection).None? ==> currentSection == None
      ensures old(currentSection).Some? ==>
        var s := old(currentSection).value;
        currentSection == Some(s.(questions := DeleteById(s.questions, questionId, QuestionId)))
    {
      if currentSection.None? {
        return;
      }
      var s := currentSection.value;
      DeleteQuestionKeepsSection(s, questionId);
      currentSection := Some(s.(questions := DeleteById(s.questions, questionId, QuestionId)));
    }

    /**
     * The type select's onChange. A select fires only when its value changes, so in the form
     * `kind` differs from the current type; retyping to the same type is not reachable there.
     */
    method SetQuestionType(kind: QuestionKind)
      requires Valid() && currentQuestion.Some?
      modifies this`currentQuestion
      ensures Valid() && currentQuestion == Some(Retyped(old(currentQuestion).value, kind))
    {
      currentQuestion := Some(Retyped(currentQuestion.value, kind));
    }

    method AddOption()
      requires Valid() && currentQuestion.Some? && CanAddOption(currentQuestion.value)
      modifies this`currentQuestion
      ensures Valid() && currentQuestion == Some(WithOptionAdded(old(currentQuestion).value))
    {
      currentQuestion := Some(WithOptionAdded(currentQuestion.value));
    }

    method RemoveOption(index: nat)
      requires Valid() && currentQuestion.Some? && CanRemoveOption(currentQuestion.value, index)
      modifies this`currentQuestion
      ensures Valid() && currentQuestion == Some(WithOptionRemoved(old(currentQuestion).value, index))
    {
      currentQuestion := Some(WithOptionRemoved(currentQuestion.value, index));
    }

    method SetOptionText(index: nat, text: string)
      requires Valid() && currentQuestion.Some? && currentQuestion.value.options.Some?
      requires index < |currentQuestion.value.options.value|
      modifies this`currentQuestion
      ensures Valid() && currentQuestion == Some(WithOptionText(old(currentQuestion).value, index, text))
    {
      currentQuestion := Some(WithOptionText(currentQuestion.value, index, text));
    }

    /** Choosing an option's radio button makes its current text the correct answer. */
    method ChooseAnswer(index: nat)
      requires Valid() && currentQuestion.Some? && currentQuestion.value.options.Some?
      requires index < |currentQuestion.value.options.value|
      modifies this`currentQuestion
      ensures Valid()
      ensures currentQuestion == Some(old(currentQuestion).value.(correctAnswer := Some(old(currentQuestion).value.options.value[index])))
    {
      var q := currentQuestion.value;
      currentQuestion := Some(q.(correctAnswer := Some(q.options.value[index])));
    }

    /** "Next: Add Sections", enabled with a title and a skill. */
    method GoToSections()
      requires Valid() && step == 1 && CanGoToSections(title, targetSkills)
      modifies this`step
      ensures Valid() && step == 2
    {
      step := 2;
    }

    /** "Next: Review", enabled once a section is saved. */
    method GoToReview()
      requires Valid() && step == 2 && CanReview(sections)
      modifies this`step
      ensures Valid() && step == 3
    {
      step := 3;
    }

    /** "Back" from sections or review. */
    method Back()
      requires Valid() && step > 1
      modifies this`step
      ensures Valid() && step == old(step) - 1
    {
      step := step - 1;
    }
  }
}
