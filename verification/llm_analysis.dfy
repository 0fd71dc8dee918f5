/**
 * The language-model analysis of an interview transcript: the prompt that lists the rubric
 * questions, and the extraction of the JSON block from the model's free-text reply.
 */
module LlmAnalysis {
  import opened Wrappers
  import opened Text

  /** The single error every failure inside the analysis is reported as. */
  const LlmError := "Failed to analyze interview with LLM"

  /** One question score as the model reports it; questionId is the question's number as a string. */
  datatype LlmScore = LlmScore(questionId: string, score: int, feedback: string)

  /** The parsed JSON object; a field the model left out is None (undefined). */
  datatype Analysis = Analysis(
    questionScores: Option<seq<LlmScore>>,
    overallScore: Option<int>,
    overallFeedback: Option<string>)

  // ---------------------------------------------------------------- the prompt

  /** Question i (from 0) as "i+1. q". */
  function NumberedLine(i: nat, q: string): string
  {
    Itoa(i + 1) + ". " + q
  }

  /** The numbered lines of the question list, in input order. */
  function NumberedLines(questions: seq<string>): (lines: seq<string>)
    ensures |lines| == |questions|
  {
    seq(|questions|, i requires 0 <= i < |questions| => NumberedLine(i, questions[i]))
  }

  /** questions.map((q, i) => `${i + 1}. ${q}`).join('\n') */
  function QuestionList(questions: seq<string>): string
  {
    Join(NumberedLines(questions), "\n")
  }

  /**
   * When no question spans several lines, splitting the question list at the line breaks
   * gives back exactly the numbered lines, one per question, in input order.
   */
  lemma QuestionListLines(questions: seq<string>)
    requires |questions| > 0
    requires forall i :: 0 <= i < |questions| ==> '\n' !in questions[i]
    ensures Split(QuestionList(questions), '\n') == NumberedLines(questions)
  {
    var lines := NumberedLines(questions);
    forall k | 0 <= k < |lines| ensures '\n' !in lines[k] {
      var d := Itoa(k + 1);
      assert lines[k] == d + ". " + questions[k];
      assert forall m :: 0 <= m < |d| ==> lines[k][m] == d[m] && IsDigit(d[m]);
      assert forall m :: 0 <= m < |questions[k]| ==> lines[k][|d| + 2 + m] == questions[k][m];
    }
    SplitJoin(lines, '\n');
  }

  /**
   * Each numbered line reads back as its question: parseInt of the line is the question's
   * 1-based number, and after "n. " comes the question text.
   */
  lemma NumberedLineReadsBack(i: nat, q: string)
    ensures ParseInt(NumberedLine(i, q)) == Some(i + 1)
    ensures |NumberedLine(i, q)| == |Itoa(i + 1)| + 2 + |q|
    ensures NumberedLine(i, q)[|Itoa(i + 1)| + 2..] == q
  {
    assert NumberedLine(i, q) == Itoa(i + 1) + (". " + q);
    ParseIntOfNumbered(i + 1, ". " + q);
  }

  const PromptIntro := "\n        You are an AI interviewer evaluating a job candidate. Below is the transcript of an interview.\n        Please analyze the candidate's responses to the following questions and rate each answer on a scale of 1-100.\n        Also provide a brief feedback for each answer.\n        \n        Interview Transcript:\n        "

  const PromptQuestionsHeading := "\n        \n        Questions to evaluate:\n        "

  /** The scoring instructions and the JSON shape the model is asked to answer in. */
  const PromptFormat := "\n        \n        For each question, provide:\n        1. Score (1-100)\n        2. Brief feedback (1-2 sentences)\n        3. Key strengths and weaknesses\n        \n        Finally, give an overall evaluation score from 1-5 where:\n        1 - Not selected\n        2-3 - On hold\n        4 - Selected but requires additional interview\n        5 - Selected\n        \n        Provide your response in the following JSON format:\n        {\n          \"questionScores\": [\n            {\n              \"questionId\": \"1\",\n              \"score\": 75,\n              \"feedback\": \"Good understanding of concepts but lacked specific examples.\"\n            },\n            ...\n          ],\n          \"overallScore\": 3,\n          \"overallFeedback\": \"Candidate shows promise but needs more technical depth.\"\n        }\n      "

  function Prompt(transcript: string, questions: seq<string>): string
  {
    PromptIntro + transcript + PromptQuestionsHeading + QuestionList(questions) + PromptFormat
  }

  /** The prompt carries the transcript, and after it the numbered question list. */
  lemma PromptCarriesInputs(transcript: string, questions: seq<string>)
    ensures PieceAt(Prompt(transcript, questions), transcript, |PromptIntro|)
    ensures PieceAt(Prompt(transcript, questions), QuestionList(questions),
                    |PromptIntro| + |transcript| + |PromptQuestionsHeading|)
  {
    var p := Prompt(transcript, questions);
    var a := |PromptIntro|;
    var b := a + |transcript| + |PromptQuestionsHeading|;
    assert p[a..a + |transcript|] == transcript;
    assert p[b..b + |QuestionList(questions)|] == QuestionList(questions);
  }

  // ---------------------------------------------------------------- the JSON block

  /** s[p..q+1] runs from a '{' to a later '}': a possible match of /\{[\s\S]*\}/. */
  predicate IsBlock(s: string, p: int, q: int)
  {
    0 <= p < q < |s| && s[p] == '{' && s[q] == '}'
  }

  /**
   * content.match(/\{[\s\S]*\}/): the match starts at the first '{' when a '}' follows it and,
   * the star being greedy, ends at the last '}'. None when no '}' follows the first '{'.
   */
  function ExtractJson(s: string): Option<string>
  {
    if '{' !in s then None
    else
      var p := FirstIndex(s, '{');
      if '}' !in s[p + 1..] then None else Some(s[p..LastIndex(s, '}') + 1])
  }

  /**
   * The extraction is the regular expression's leftmost-longest match: None exactly when no '{'
   * has a '}' after it; otherwise the piece from a '{' to a later '}' that starts no later and
   * ends no earlier than any other such piece.
   */
  lemma ExtractJsonSpec(s: string)
    ensures ExtractJson(s).None? <==> forall p, q :: !IsBlock(s, p, q)
    ensures ExtractJson(s).Some? ==>
      exists p, q :: (&& IsBlock(s, p, q)
                      && ExtractJson(s).value == s[p..q + 1]
                      && forall p', q' :: IsBlock(s, p', q') ==> p <= p' && q' <= q)
  {
    if '{' in s {
      var p := FirstIndex(s, '{');
      assert forall i :: 0 <= i < p ==> s[i] == s[..p][i];
      assert forall i :: 0 <= i < p ==> s[i] != '{';
      assert forall i :: p < i < |s| ==> s[i] == s[p + 1..][i - p - 1];
      if '}' in s[p + 1..] {
        var q := LastIndex(s, '}');
        assert forall i :: q < i < |s| ==> s[i] == s[q + 1..][i - q - 1];
        assert forall i :: q < i < |s| ==> s[i] != '}';
        var m :| 0 <= m < |s[p + 1..]| && s[p + 1..][m] == '}';
        assert s[p + 1 + m] == '}';
        assert IsBlock(s, p, q);
      } else {
        assert forall i :: p < i < |s| ==> s[i] != '}';
      }
    } else {
      assert forall i :: 0 <= i < |s| ==> s[i] != '{';
    }
  }

  /** The extracted block is a piece of the reply that starts with '{' and ends with '}'. */
  lemma ExtractJsonShape(s: string)
    requires ExtractJson(s).Some?
    ensures var b := ExtractJson(s).value;
      |b| >= 2 && b[0] == '{' && b[|b| - 1] == '}' && Contains(s, b)
  {
    ExtractJsonSpec(s);
    var p, q :| IsBlock(s, p, q) && ExtractJson(s).value == s[p..q + 1]
      && forall p', q' :: IsBlock(s, p', q') ==> p <= p' && q' <= q;
    assert PieceAt(s, s[p..q + 1], p);
  }

  /** A piece that opens with '{' and closes with '}' is its own block. */
  lemma BlockExtractsItself(b: string)
    requires |b| >= 2 && b[0] == '{' && b[|b| - 1] == '}'
    ensures ExtractJson(b) == Some(b)
  {
    assert b[1..][|b| - 2] == '}';
    assert FirstIndex(b, '{') == 0 && LastIndex(b, '}') == |b| - 1;
    assert b[0..|b|] == b;
  }

  /** Extracting again from an extracted block gives the block back. */
  lemma ExtractJsonIdempotent(s: string)
    requires ExtractJson(s).Some?
    ensures ExtractJson(ExtractJson(s).value) == ExtractJson(s)
  {
    ExtractJsonShape(s);
    BlockExtractsItself(ExtractJson(s).value);
  }

  // ---------------------------------------------------------------- the analysis call

  /**
   * analyzeInterview of the language-model service. The chat completion is the parameter
   * complete (the prompt to the reply's content, None for a null content, Failure for a failed
   * request) and JSON.parse is the parameter parse (None for a syntax error).
   */
  function AnalyzeTranscript(
    transcript: string,
    questions: seq<string>,
    complete: string -> Result<Option<string>>,
    parse: string -> Option<Analysis>): (r: Result<Analysis>)
    ensures r.Failure? ==> r.error == LlmError
    ensures r.Success? <==>
      exists content :: (&& complete(Prompt(transcript, questions)) == Success(Some(content))
                         && content != ""
                         && ExtractJson(content).Some?
                         && parse(ExtractJson(content).value).Some?)
    ensures r.Success? ==>
      exists content :: (&& complete(Prompt(transcript, questions)) == Success(Some(content))
                         && ExtractJson(content).Some?
                         && r == Success(parse(ExtractJson(content).value).value))
  {
    match complete(Prompt(transcript, questions))
    case Failure(_) => Failure(LlmError)
    case Success(None) => Failure(LlmError)
    case Success(Some(content)) =>
      if content == "" then Failure(LlmError)
      else
        match ExtractJson(content)
        case None => Failure(LlmError)
        case Some(block) =>
          match parse(block)
          case None => Failure(LlmError)
          case Some(analysis) => Success(analysis)
  }
}
