/**
 * The questions screen: the questions for one country, the answers typed so
 * far, answer edits and submission.
 */
module Session {

  import opened Catalog
  import opened Scoring
  import opened Text

  class QuizSession {
    const country: string
    const questions: seq<Question>
    /** The current answers array; an edit replaces it with an updated copy. */
    var answers: array<string>

    /** One answer slot per question. */
    ghost predicate Valid()
      reads this
    {
      answers.Length == |questions|
    }

    /** Opening the screen: look the country up and start with one empty answer per question. */
    constructor (country: string)
      ensures this.country == country && questions == Lookup(country)
      ensures Valid() && fresh(answers)
      ensures forall i :: 0 <= i < answers.Length ==> answers[i] == ""
    {
      this.country := country;
      var questions := Lookup(country);
      this.questions := questions;
      answers := new string[|questions|](_ => "");
    }

    /**
     * `handleAnswerChange`: copy the array, overwrite one slot, install the
     * copy. The previous array is left untouched.
     */
    method ChangeAnswer(index: nat, text: string)
      requires Valid() && index < answers.Length
      modifies this
      ensures Valid() && fresh(answers)
      ensures answers[..] == old(answers[..])[index := text]
      ensures old(answers)[..] == old(answers[..])
    {
      var current := answers;
      var copy := new string[current.Length];
      for i := 0 to current.Length
        invariant copy[..i] == current[..i]
      {
        copy[i] := current[i];
      }
      copy[index] := text;
      answers := copy;
    }

    /**
     * `handleSubmit`: walk the answers, collecting each question whose answer
     * does not match, then report correct, total and the missed questions.
     */
    method Submit() returns (result: ScoreResult)
      requires Valid()
      ensures result == Score(questions, answers[..])
    {
      var incorrect: seq<Question> := [];
      for i := 0 to answers.Length
        invariant incorrect == Missed(questions, answers[..i])
      {
        if Lower(Trim(answers[i])) != Lower(questions[i].answer) {
          incorrect := incorrect + [questions[i]];
        }
        assert answers[..i + 1][..i] == answers[..i];
      }
      assert answers[..answers.Length] == answers[..];
      result := ScoreResult(answers.Length - |incorrect|, |questions|, incorrect);
    }
  }

  /**
   * Submitting twice with no edit in between gives the same result, and that
   * result balances: correct plus missed is the number of questions.
   */
  method SubmitTwice(session: QuizSession) returns (first: ScoreResult, second: ScoreResult)
    requires session.Valid()
    ensures first == second
    ensures first.correctAnswers + |first.incorrectQuestions| == first.totalQuestions == |session.questions|
  {
    first := session.Submit();
    second := session.Submit();
    ScoreBalance(session.questions, session.answers[..]);
  }

}
