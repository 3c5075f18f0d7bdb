/**
 * What a submission computes: which questions were missed, how many were
 * right, and whether that is a pass. These functions are the specification
 * the session's `Submit` loop is proved against.
 */
module Scoring {

  import opened Text
  import opened Catalog

  /** What the results screen receives. */
  datatype ScoreResult = ScoreResult(correctAnswers: int, totalQuestions: nat, incorrectQuestions: seq<Question>)

  /**
   * `answer.trim().toLowerCase() === expected.toLowerCase()`: the user's
   * answer is trimmed, the expected answer is not.
   */
  predicate Matches(answer: string, expected: string)
  {
    Lower(Trim(answer)) == Lower(expected)
  }

  /**
   * The `reduce` over the answers: question `i` is pushed, in order, when
   * answer `i` does not match it. Only the answered prefix of the questions is
   * visited.
   */
  function Missed(questions: seq<Question>, answers: seq<string>): (missed: seq<Question>)
    requires |answers| <= |questions|
    ensures |missed| <= |answers|
  {
    if answers == [] then []
    else
      var n := |answers| - 1;
      Missed(questions, answers[..n])
        + (if Matches(answers[n], questions[n].answer) then [] else [questions[n]])
  }

  /** The positions of the missed questions, in the order the `reduce` visits them. */
  function MissedIndices(questions: seq<Question>, answers: seq<string>): (indices: seq<nat>)
    requires |answers| <= |questions|
  {
    if answers == [] then []
    else
      var n := |answers| - 1;
      MissedIndices(questions, answers[..n])
        + (if Matches(answers[n], questions[n].answer) then [] else [n])
  }

  /** Independent count of the answers that match their question. */
  function CountMatches(questions: seq<Question>, answers: seq<string>): (count: nat)
    requires |answers| <= |questions|
  {
    if answers == [] then 0
    else (if Matches(answers[0], questions[0].answer) then 1 else 0)
         + CountMatches(questions[1..], answers[1..])
  }

  /** `handleSubmit`'s result: correct is answers minus missed, total is the question count. */
  function Score(questions: seq<Question>, answers: seq<string>): ScoreResult
    requires |answers| <= |questions|
  {
    var missed := Missed(questions, answers);
    ScoreResult(|answers| - |missed|, |questions|, missed)
  }

  /**
   * The results screen's test `correctAnswers / totalQuestions >= 0.7`.
   * With no questions, JavaScript divides by zero: a positive count gives
   * Infinity (a pass), zero gives NaN (a fail).
   */
  predicate Passed(r: ScoreResult)
  {
    if r.totalQuestions == 0 then r.correctAnswers > 0
    else (r.correctAnswers as real) / (r.totalQuestions as real) >= 0.7
  }

  /** The missed positions are visited positions, strictly increasing. */
  lemma {:induction false} MissedIndicesOrdered(questions: seq<Question>, answers: seq<string>)
    requires |answers| <= |questions|
    ensures forall k :: 0 <= k < |MissedIndices(questions, answers)| ==> MissedIndices(questions, answers)[k] < |answers|
    ensures forall k, l :: 0 <= k < l < |MissedIndices(questions, answers)|
              ==> MissedIndices(questions, answers)[k] < MissedIndices(questions, answers)[l]
  {
    if answers != [] {
      MissedIndicesOrdered(questions, answers[..|answers| - 1]);
    }
  }

  /** A position is listed exactly when its answer does not match. */
  lemma {:induction false} MissedIndicesExact(questions: seq<Question>, answers: seq<string>)
    requires |answers| <= |questions|
    ensures forall i :: 0 <= i < |answers|
              ==> (i in MissedIndices(questions, answers) <==> !Matches(answers[i], questions[i].answer))
  {
    if answers != [] {
      var n := |answers| - 1;
      var prefix := answers[..n];
      var indices := MissedIndices(questions, prefix);
      MissedIndicesExact(questions, prefix);
      MissedIndicesOrdered(questions, prefix);
      var last := if Matches(answers[n], questions[n].answer) then [] else [n];
      assert MissedIndices(questions, answers) == indices + last;
      forall i | 0 <= i < |answers|
        ensures i in MissedIndices(questions, answers) <==> !Matches(answers[i], questions[i].answer)
      {
        if i < n {
          assert prefix[i] == answers[i];
          assert i in indices + last <==> i in indices;
        } else {
          assert n !in indices;
        }
      }
    }
  }

  /** The missed questions are the questions at the missed positions. */
  lemma {:induction false} MissedAtIndices(questions: seq<Question>, answers: seq<string>)
    requires |answers| <= |questions|
    ensures |Missed(questions, answers)| == |MissedIndices(questions, answers)|
    ensures forall k :: 0 <= k < |MissedIndices(questions, answers)| ==> MissedIndices(questions, answers)[k] < |questions|
    ensures forall k :: 0 <= k < |MissedIndices(questions, answers)|
              ==> Missed(questions, answers)[k] == questions[MissedIndices(questions, answers)[k]]
  {
    if answers != [] {
      var n := |answers| - 1;
      var prefix := answers[..n];
      var missed, indices := Missed(questions, prefix), MissedIndices(questions, prefix);
      MissedAtIndices(questions, prefix);
      if Matches(answers[n], questions[n].answer) {
        assert Missed(questions, answers) == missed;
        assert MissedIndices(questions, answers) == indices;
      } else {
        assert Missed(questions, answers) == missed + [questions[n]];
        assert MissedIndices(questions, answers) == indices + [n];
      }
    }
  }

  /**
   * The missed list is the order-preserving selection of exactly those
   * questions whose answer does not match.
   */
  lemma MissedSelection(questions: seq<Question>, answers: seq<string>)
    requires |answers| <= |questions|
    ensures |Missed(questions, answers)| == |MissedIndices(questions, answers)|
    ensures forall k :: 0 <= k < |MissedIndices(questions, answers)|
              ==> MissedIndices(questions, answers)[k] < |answers|
                  && Missed(questions, answers)[k] == questions[MissedIndices(questions, answers)[k]]
    ensures forall k, l :: 0 <= k < l < |MissedIndices(questions, answers)|
              ==> MissedIndices(questions, answers)[k] < MissedIndices(questions, answers)[l]
    ensures forall i :: 0 <= i < |answers|
              ==> (i in MissedIndices(questions, answers) <==> !Matches(answers[i], questions[i].answer))
  {
    MissedIndicesOrdered(questions, answers);
    MissedIndicesExact(questions, answers);
    MissedAtIndices(questions, answers);
  }

  lemma {:induction false} CountMatchesLast(questions: seq<Question>, answers: seq<string>)
    requires 0 < |answers| <= |questions|
    ensures var n := |answers| - 1;
      CountMatches(questions, answers)
        == CountMatches(questions, answers[..n]) + (if Matches(answers[n], questions[n].answer) then 1 else 0)
  {
    var n := |answers| - 1;
    if n > 0 {
      CountMatchesLast(questions[1..], answers[1..]);
      assert answers[1..][..n - 1] == answers[..n][1..];
    }
  }

  /** Every visited question is either missed or counted as a match. */
  lemma {:induction false} MissedPlusMatches(questions: seq<Question>, answers: seq<string>)
    requires |answers| <= |questions|
    ensures |Missed(questions, answers)| + CountMatches(questions, answers) == |answers|
  {
    if answers != [] {
      var n := |answers| - 1;
      MissedPlusMatches(questions, answers[..n]);
      CountMatchesLast(questions, answers);
    }
  }

  /**
   * With one answer per question, the correct count is the number of matching
   * answers and correct plus missed is the total.
   */
  lemma ScoreBalance(questions: seq<Question>, answers: seq<string>)
    requires |answers| == |questions|
    ensures var r := Score(questions, answers);
      && r.correctAnswers == CountMatches(questions, answers)
      && r.correctAnswers + |r.incorrectQuestions| == r.totalQuestions
      && 0 <= r.correctAnswers <= r.totalQuestions
  {
    MissedPlusMatches(questions, answers);
  }

  lemma DivAtLeast(c: real, t: real, k: real)
    requires t > 0.0
    ensures c / t >= k <==> c >= k * t
  {
    var q := c / t;
    assert q * t == c;
    assert (q - k) * t == c - k * t;
    if q >= k {
      assert (q - k) * t >= 0.0;
    } else {
      assert (k - q) * t > 0.0;
    }
  }

  /** For a non-empty quiz the 0.7 threshold is the integer test 10 * correct >= 7 * total. */
  lemma PassThreshold(r: ScoreResult)
    requires r.totalQuestions > 0
    ensures Passed(r) <==> 10 * r.correctAnswers >= 7 * r.totalQuestions
  {
    DivAtLeast(r.correctAnswers as real, r.totalQuestions as real, 0.7);
  }

  /** Exactly 70% passes; 69% fails. */
  lemma PassBoundary(missed: seq<Question>)
    ensures Passed(ScoreResult(7, 10, missed))
    ensures !Passed(ScoreResult(69, 100, missed))
  {
    PassThreshold(ScoreResult(7, 10, missed));
    PassThreshold(ScoreResult(69, 100, missed));
  }

  /**
   * Every catalog quiz has three questions, and for three questions 2 of 3
   * (66%) fails: a pass needs every answer right.
   */
  lemma ThreeQuestionPassNeedsAll(questions: seq<Question>, answers: seq<string>)
    requires |answers| == |questions| == 3
    ensures Passed(Score(questions, answers)) <==> Missed(questions, answers) == []
  {
    ScoreBalance(questions, answers);
    PassThreshold(Score(questions, answers));
  }

  /** Surrounding white space on the user's answer never changes the verdict. */
  lemma MatchIgnoresPadding(pre: string, answer: string, post: string, expected: string)
    requires AllWhiteSpace(pre) && AllWhiteSpace(post)
    ensures Matches(pre + answer + post, expected) <==> Matches(answer, expected)
  {
    TrimPadding(pre, answer, post);
  }

  /** Two answers that agree up to case get the same verdict. */
  lemma MatchIgnoresCase(a: string, b: string, expected: string)
    requires Lower(a) == Lower(b)
    ensures Matches(a, expected) <==> Matches(b, expected)
  {
    LowerTrim(a);
    LowerTrim(b);
  }

  /**
   * The expected answer is not trimmed: one that begins with white space can
   * never be matched, whatever the user types.
   */
  lemma PaddedExpectedNeverMatches(answer: string, expected: string)
    requires expected != [] && IsWhiteSpace(expected[0])
    ensures !Matches(answer, expected)
  {
    var t := Trim(answer);
    TrimSpec(answer);
    if t != [] {
      assert Lower(t)[0] == LowerChar(t[0]);
      assert Lower(expected)[0] == LowerChar(expected[0]);
    }
  }

}
