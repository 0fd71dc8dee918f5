/**
 * The candidate's assessment screen: a (section, question) cursor over the sections, the
 * answers given so far, a countdown that runs once camera permission is granted, the progress
 * bar and the mm:ss clock.
 */
module AssessmentTaking {
  import opened Text
  import Sequences

  datatype QuestionType = MultipleChoice | Coding

  datatype Question = Question(id: string, questionType: QuestionType, content: string, options: seq<string>)

  datatype Section = Section(id: string, title: string, questions: seq<Question>)

  /** The pair (currentSection, currentQuestion). */
  datatype Cursor = Cursor(section: int, question: int)

  /** There is a section, and every section has a question. */
  predicate WellFormed(sections: seq<Section>)
  {
    |sections| > 0 && forall i :: 0 <= i < |sections| ==> |sections[i].questions| > 0
  }

  /** The cursor names an existing question. */
  predicate InBounds(sections: seq<Section>, c: Cursor)
  {
    0 <= c.section < |sections| && 0 <= c.question < |sections[c.section].questions|
  }

  /** nextQuestion: the next question in the section, else the first of the next section, else stay. */
  function Next(sections: seq<Section>, c: Cursor): Cursor
    requires 0 <= c.section < |sections|
  {
    if c.question < |sections[c.section].questions| - 1 then c.(question := c.question + 1)
    else if c.section < |sections| - 1 then Cursor(c.section + 1, 0)
    else c
  }

  /** prevQuestion: the previous question in the section, else the last of the previous section, else stay. */
  function Prev(sections: seq<Section>, c: Cursor): Cursor
    requires c.question <= 0 && c.section > 0 ==> c.section - 1 < |sections|
  {
    if c.question > 0 then c.(question := c.question - 1)
    else if c.section > 0 then Cursor(c.section - 1, |sections[c.section - 1].questions| - 1)
    else c
  }

  /** isLastQuestion: the final question of the final section. */
  predicate IsLast(sections: seq<Section>, c: Cursor)
    requires 0 <= c.section < |sections|
  {
    c.section == |sections| - 1 && c.question == |sections[c.section].questions| - 1
  }

  /** Moving either way keeps the cursor on an existing question. */
  lemma NavigationKeepsBounds(sections: seq<Section>, c: Cursor)
    requires WellFormed(sections) && InBounds(sections, c)
    ensures InBounds(sections, Next(sections, c))
    ensures InBounds(sections, Prev(sections, c))
  {
  }

  /** Going back undoes going forward everywhere but at the last question, and vice versa at the first. */
  lemma NavigationInverse(sections: seq<Section>, c: Cursor)
    requires WellFormed(sections) && InBounds(sections, c)
    ensures !IsLast(sections, c) ==> Prev(sections, Next(sections, c)) == c
    ensures c != Cursor(0, 0) ==> Next(sections, Prev(sections, c)) == c
  {
  }

  /**
   * The last question is exactly where "next" does nothing (the screen offers Submit there),
   * and the first is exactly where "previous" does nothing (its button is disabled there).
   */
  lemma NavigationEnds(sections: seq<Section>, c: Cursor)
    requires InBounds(sections, c)
    ensures IsLast(sections, c) <==> Next(sections, c) == c
    ensures c == Cursor(0, 0) <==> Prev(sections, c) == c
  {
  }

  // ---------------------------------------------------------------- progress

  function QuestionsIn(s: Section): int
  {
    |s.questions|
  }

  /** The number of questions before the cursor's section, plus those up to and including it. */
  function QuestionsSoFar(sections: seq<Section>, c: Cursor): int
    requires 0 <= c.section <= |sections|
  {
    Sequences.Sum(sections[..c.section], QuestionsIn) + c.question + 1
  }

  /** Progress as a whole percentage, floor(100 * questionsSoFar / total); 0 when there are no questions. */
  function Progress(sections: seq<Section>, c: Cursor): int
    requires 0 <= c.section <= |sections|
  {
    var total := Sequences.Sum(sections, QuestionsIn);
    if total == 0 then 0 else (100 * QuestionsSoFar(sections, c)) / total
  }

  /** Sums of section sizes grow with the prefix, by at least one per non-empty section. */
  lemma {:induction false} SizesPrefix(sections: seq<Section>, k: nat)
    requires k <= |sections|
    requires forall i :: 0 <= i < |sections| ==> |sections[i].questions| > 0
    ensures Sequences.Sum(sections, QuestionsIn) >= Sequences.Sum(sections[..k], QuestionsIn) + (|sections| - k)
    decreases |sections| - k
  {
    if k < |sections| {
      SizesPrefix(sections, k + 1);
      assert sections[..k + 1][..k] == sections[..k];
    } else {
      assert sections[..k] == sections;
    }
  }

  /** A share of a positive total, as a floored percentage. */
  lemma PercentOf(part: int, total: int)
    requires 0 < part <= total
    ensures 0 <= (100 * part) / total <= 100
    ensures (100 * part) / total == 100 <==> part == total
  {
    var x := 100 * part;
    var p, r := x / total, x % total;
    assert x == p * total + r && 0 <= r < total;
    QuotientBelow(p, r, total, x);
    QuotientFull(p, r, total, part);
  }

  /** A quotient of a number between 0 and 100 totals lies between 0 and 100. */
  lemma QuotientBelow(p: int, r: int, total: int, x: int)
    requires 0 <= r < total && x == p * total + r && 0 < x <= 100 * total
    ensures 0 <= p <= 100
  {
    MulNonneg(-1 - p, total);
    MulNonneg(p - 101, total);
    assert (-1 - p) * total == -total - p * total;
    assert (p - 101) * total == p * total - 101 * total;
  }

  /** The quotient of 100 parts by the total is 100 exactly when the part is the whole. */
  lemma QuotientFull(p: int, r: int, total: int, part: int)
    requires 0 <= r < total && 100 * part == p * total + r && 0 < part <= total
    ensures p == 100 <==> part == total
  {
    MulNonneg(p - 100, total);
    MulNonneg(99 - p, total);
    assert (p - 100) * total == p * total - 100 * total;
    assert (99 - p) * total == 99 * total - p * total;
  }

  /** The sign rule for a product, for any two numbers. */
  lemma MulNonneg(a: int, b: int)
    ensures a >= 0 && b >= 0 ==> a * b >= 0
  {
  }

  /** Progress is at most 100, and reaches 100 exactly at the last question. */
  lemma ProgressBounds(sections: seq<Section>, c: Cursor)
    requires WellFormed(sections) && InBounds(sections, c)
    ensures 0 <= Progress(sections, c) <= 100
    ensures Progress(sections, c) == 100 <==> IsLast(sections, c)
  {
    var total := Sequences.Sum(sections, QuestionsIn);
    var before := Sequences.Sum(sections[..c.section], QuestionsIn);
    var soFar := QuestionsSoFar(sections, c);
    SizesPrefix(sections, c.section + 1);
    SizesPrefix(sections[..c.section], 0);
    assert sections[..c.section][..0] == [];
    assert sections[..c.section + 1][..c.section] == sections[..c.section];
    assert Sequences.Sum(sections[..c.section + 1], QuestionsIn) == before + |sections[c.section].questions|;
    assert 0 < soFar <= total;
    assert soFar == total <==> IsLast(sections, c) by {
      if c.section < |sections| - 1 {
        assert soFar <= before + |sections[c.section].questions| < total;
      }
    }
    PercentOf(soFar, total);
  }

  // ---------------------------------------------------------------- clock

  /** mm:ss, each part left-padded with '0' to two digits; minutes may run to more digits. */
  function FormatTime(seconds: nat): string
  {
    PadStart2(Itoa(seconds / 60)) + ":" + PadStart2(Itoa(seconds % 60))
  }

  /**
   * The clock reads back as the number it shows: the digits before the colon are the whole
   * minutes and the two after it the remaining seconds; the text is five characters exactly
   * when the time is under 100 minutes.
   */
  lemma FormatTimeReadsBack(seconds: nat)
    ensures var r := FormatTime(seconds); var k := |r| - 3;
      && k >= 2 && r[k] == ':'
      && AllDigits(r[..k]) && AllDigits(r[k + 1..])
      && DigitsValue(r[..k]) == seconds / 60
      && DigitsValue(r[k + 1..]) == seconds % 60
      && (|r| == 5 <==> seconds < 6000)
  {
    var mm, ss := PadStart2(Itoa(seconds / 60)), PadStart2(Itoa(seconds % 60));
    PaddedValue(seconds / 60);
    PaddedValue(seconds % 60);
    ColonSplit(mm, ss);
    MinutesAndSeconds(seconds);
    var r := FormatTime(seconds);
    var k := |r| - 3;
    assert r == mm + ":" + ss;
    assert r[..k] == mm && r[k + 1..] == ss;
    var m, sec := DigitsValue(r[..k]), DigitsValue(r[k + 1..]);
    assert m == seconds / 60 && sec == seconds % 60;
  }

  /** Under 100 minutes is under 6000 seconds. */
  lemma MinutesAndSeconds(seconds: nat)
    ensures seconds / 60 < 100 <==> seconds < 6000
  {
  }

  /** The parts of "mm:ss" when the seconds part is two long. */
  lemma ColonSplit(mm: string, ss: string)
    requires |ss| == 2
    ensures var r := mm + ":" + ss; r[..|r| - 3] == mm && r[|r| - 3] == ':' && r[|r| - 2..] == ss
  {
  }

  /** A number padded to two digits reads back as itself, and stays two long exactly below 100. */
  lemma PaddedValue(n: nat)
    ensures var p := PadStart2(Itoa(n));
      && |p| >= 2 && AllDigits(p) && DigitsValue(p) == n
      && (|p| == 2 <==> n < 100)
  {
    PadStart2Value(Itoa(n));
    DigitsValueOfItoa(n);
    if n < 100 {
      ItoaBelowHundred(n);
    } else if |Itoa(n)| <= 2 {
      TwoDigitsBelowHundred(Itoa(n));
    }
  }

  /** At most two digits read as a number below 100. */
  lemma TwoDigitsBelowHundred(s: string)
    requires AllDigits(s) && |s| <= 2
    ensures DigitsValue(s) < 100
  {
    if |s| == 2 {
      assert s[..1][..0] == [];
    } else if |s| == 1 {
      assert s[..0] == [];
    }
  }

  // ---------------------------------------------------------------- the screen's state

  /** Thirty minutes, in seconds. */
  const InitialTime := 1800

  class Session {
    const sections: seq<Section>
    var currentSection: int
    var currentQuestion: int
    var timeLeft: int
    var answers: map<string, string>
    var showPermissionModal: bool
    var isCameraOn: bool
    var isScreenSharing: bool

    ghost predicate Valid()
      reads this
    {
      WellFormed(sections) && InBounds(sections, Position()) && timeLeft >= 0
    }

    function Position(): Cursor
      reads this
    {
      Cursor(currentSection, currentQuestion)
    }

    constructor (sections: seq<Section>)
      requires WellFormed(sections)
      ensures Valid() && this.sections == sections
      ensures Position() == Cursor(0, 0) && timeLeft == InitialTime && answers == map[]
      ensures showPermissionModal && !isCameraOn && !isScreenSharing
    {
      this.sections := sections;
      currentSection, currentQuestion := 0, 0;
      timeLeft := InitialTime;
      answers := map[];
      showPermissionModal, isCameraOn, isScreenSharing := true, false, false;
    }

    /** getCurrentQuestion */
    function CurrentQuestion(): Question
      reads this
      requires Valid()
    {
      sections[currentSection].questions[currentQuestion]
    }

    method NextQuestion()
      requires Valid()
      modifies this`currentSection, this`currentQuestion
      ensures Valid() && Position() == Next(sections, old(Position()))
    {
      NavigationKeepsBounds(sections, Position());
      if currentQuestion < |sections[currentSection].questions| - 1 {
        currentQuestion := currentQuestion + 1;
      } else if currentSection < |sections| - 1 {
        currentSection := currentSection + 1;
        currentQuestion := 0;
      }
    }

    method PrevQuestion()
      requires Valid()
      modifies this`currentSection, this`currentQuestion
      ensures Valid() && Position() == Prev(sections, old(Position()))
    {
      NavigationKeepsBounds(sections, Position());
      if currentQuestion > 0 {
        currentQuestion := currentQuestion - 1;
      } else if currentSection > 0 {
        currentSection := currentSection - 1;
        currentQuestion := |sections[currentSection].questions| - 1;
      }
    }

    /** handleAnswerSelect: record the answer under the question's id, other answers untouched. */
    method SelectAnswer(questionId: string, answer: string)
      requires Valid()
      modifies this`answers
      ensures Valid() && answers == old(answers)[questionId := answer]
      ensures forall q :: q != questionId ==> (q in answers <==> q in old(answers))
      ensures forall q :: q != questionId && q in answers ==> answers[q] == old(answers)[q]
    {
      answers := answers[questionId := answer];
    }

    /** One second of the countdown: it runs only while time is left and the permission modal is closed. */
    method Tick()
      requires Valid()
      modifies this`timeLeft
      ensures Valid()
      ensures timeLeft == if old(timeLeft) > 0 && !showPermissionModal then old(timeLeft) - 1 else old(timeLeft)
    {
      if timeLeft > 0 && !showPermissionModal {
        timeLeft := timeLeft - 1;
      }
    }

    /**
     * handlePermissions: when the browser grants the camera, camera and (simulated) screen share
     * are on and the modal closes; a refusal changes nothing.
     */
    method GrantPermissions(cameraGranted: bool)
      requires Valid()
      modifies this`isCameraOn, this`isScreenSharing, this`showPermissionModal
      ensures Valid()
      ensures cameraGranted ==> isCameraOn && isScreenSharing && !showPermissionModal
      ensures !cameraGranted ==> unchanged(this)
    {
      if cameraGranted {
        isCameraOn := true;
        isScreenSharing := true;
        showPermissionModal := false;
      }
    }

    /** calculateProgress: one pass over the sections totals all questions and those up to the cursor. */
    method CalculateProgress() returns (progress: int)
      requires Valid()
      ensures progress == Progress(sections, Position())
      ensures 0 <= progress <= 100 && (progress == 100 <==> IsLast(sections, Position()))
    {
      var totalQuestions, questionsSoFar := 0, 0;
      for i := 0 to |sections|
        invariant totalQuestions == Sequences.Sum(sections[..i], QuestionsIn)
        invariant questionsSoFar == if i <= currentSection then totalQuestions else QuestionsSoFar(sections, Position())
      {
        assert sections[..i + 1][..i] == sections[..i];
        var sectionQuestions := |sections[i].questions|;
        totalQuestions := totalQuestions + sectionQuestions;
        if i < currentSection {
          questionsSoFar := questionsSoFar + sectionQuestions;
        } else if i == currentSection {
          questionsSoFar := questionsSoFar + currentQuestion + 1;
        }
      }
      assert sections[..|sections|] == sections;
      SizesPrefix(sections, 0);
      assert sections[..0] == [];
      ProgressBounds(sections, Position());
      progress := (100 * questionsSoFar) / totalQuestions;
    }
  }
}
