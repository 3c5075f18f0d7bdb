/** Worked sessions against the catalog. */
module Scenarios {

  import opened Text
  import opened Catalog
  import opened Scoring
  import opened Session

  /** An answer typed exactly as expected, with nothing to trim, is accepted. */
  lemma MatchesVerbatim(s: string)
    requires Unpadded(s)
    ensures Matches(s, s)
  {
    TrimUnpadded(s);
  }

  lemma LowerParis()
    ensures Lower("Paris") == "paris" == Lower("paris")
  {
    assert LowerChar('P') == 'p';
  }

  lemma LowerCaseParisAccepted()
    ensures Matches("paris", "Paris")
  {
    assert Unpadded("Paris") && Unpadded("paris");
    MatchesVerbatim("Paris");
    LowerParis();
    MatchIgnoresCase("Paris", "paris", "Paris");
  }

  /** " Paris " and "paris" are both accepted for "Paris". */
  lemma ParisVariantsMatch()
    ensures Matches(" Paris ", "Paris")
    ensures Matches("paris", "Paris")
  {
    assert Unpadded("Paris");
    MatchesVerbatim("Paris");
    assert AllWhiteSpace(" ");
    MatchIgnoresPadding(" ", "Paris", " ", "Paris");
    assert " " + "Paris" + " " == " Paris ";
    LowerCaseParisAccepted();
  }

  /** Scoring three answers, one step of the fold at a time. */
  lemma ScoreOfThree(questions: seq<Question>, answers: seq<string>)
    requires |questions| == |answers| == 3
    ensures Missed(questions, answers)
         == (if Matches(answers[0], questions[0].answer) then [] else [questions[0]])
          + (if Matches(answers[1], questions[1].answer) then [] else [questions[1]])
          + (if Matches(answers[2], questions[2].answer) then [] else [questions[2]])
  {
    var first, second := answers[..1], answers[..2];
    assert second[..1] == first && first[..0] == [] && answers[..2] == second;
    assert first[0] == answers[0] && second[1] == answers[1];
    assert Missed(questions, first[..0]) == [];
    assert Missed(questions, first)
        == (if Matches(answers[0], questions[0].answer) then [] else [questions[0]]);
    assert Missed(questions, second)
        == Missed(questions, first)
         + (if Matches(answers[1], questions[1].answer) then [] else [questions[1]]);
  }

  lemma FranceAnswersAccepted()
    ensures Matches("Paris", "Paris") && Matches("101", "101") && Matches("Torre Eiffel", "Torre Eiffel")
  {
    assert Unpadded("Paris") && Unpadded("101") && Unpadded("Torre Eiffel");
    MatchesVerbatim("Paris");
    MatchesVerbatim("101");
    MatchesVerbatim("Torre Eiffel");
  }

  lemma DepartmentCountRejected()
    ensures !Matches("100", "101")
  {
    assert Unpadded("100");
    TrimUnpadded("100");
    LowerOfLowerCase("100");
    LowerOfLowerCase("101");
  }

  /** France answered correctly: three of three, nothing missed. */
  lemma FranceAllCorrect()
    ensures Score(Lookup("France"), ["Paris", "101", "Torre Eiffel"]) == ScoreResult(3, 3, [])
  {
    var questions, answers := Lookup("France"), ["Paris", "101", "Torre Eiffel"];
    CatalogOrder();
    FranceAnswersAccepted();
    ScoreOfThree(questions, answers);
  }

  /** Three answers of which only the second is wrong: two correct, the second question missed. */
  lemma ScoreSecondWrong(questions: seq<Question>, answers: seq<string>)
    requires |questions| == |answers| == 3
    requires Matches(answers[0], questions[0].answer)
    requires !Matches(answers[1], questions[1].answer)
    requires Matches(answers[2], questions[2].answer)
    ensures Score(questions, answers) == ScoreResult(2, 3, [questions[1]])
  {
    ScoreOfThree(questions, answers);
  }

  lemma FranceSecondQuestion()
    ensures Lookup("France")[1] == Question("Quantos departamentos a França tem?", "101")
  {
  }

  /** France with the wrong department count: two of three, only that question missed. */
  lemma FranceOneWrong()
    ensures Score(Lookup("France"), ["paris", "100", "Torre Eiffel"])
         == ScoreResult(2, 3, [Question("Quantos departamentos a França tem?", "101")])
  {
    var questions, answers := Lookup("France"), ["paris", "100", "Torre Eiffel"];
    CatalogOrder();
    LowerCaseParisAccepted();
    DepartmentCountRejected();
    FranceAnswersAccepted();
    FranceSecondQuestion();
    ScoreSecondWrong(questions, answers);
  }

  /** A country outside the catalog, or a known one spelled differently, gets no questions. */
  lemma UnknownCountryHasNoQuestions()
    ensures Lookup("Brazil") == []
    ensures Lookup("france") == []
  {
  }

  /** The France session driven through the class: open, type three answers, submit. */
  method FranceSession() returns (result: ScoreResult)
    ensures result == ScoreResult(2, 3, [Question("Quantos departamentos a França tem?", "101")])
    ensures !Passed(result)
  {
    var session := new QuizSession("France");
    session.ChangeAnswer(0, "paris");
    session.ChangeAnswer(1, "100");
    session.ChangeAnswer(2, "Torre Eiffel");
    assert session.answers[..] == ["paris", "100", "Torre Eiffel"];
    result := session.Submit();
    FranceOneWrong();
    PassThreshold(result);
  }

}
