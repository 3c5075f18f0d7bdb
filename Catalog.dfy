/** The static question catalog, keyed by the country name the geocoder reports. */
module Catalog {

  /** One catalog entry: the prompt shown and the expected answer. */
  datatype Question = Question(question: string, answer: string)

  /** `questionsData`: three questions per country, in presentation order. */
  const QuestionsData: map<string, seq<Question>> := map[
    "France" := [
      Question("Qual é a capital da França?", "Paris"),
      Question("Quantos departamentos a França tem?", "101"),
      Question("Qual é o famoso monumento em Paris?", "Torre Eiffel")
    ],
    "Japan" := [
      Question("Qual é a capital do Japão?", "Tóquio"),
      Question("Qual é a moeda do Japão?", "Iene"),
      Question("Qual é o símbolo nacional do Japão?", "Crisântemo")
    ],
    "India" := [
      Question("Qual é a capital da Índia?", "Nova Délhi"),
      Question("Quantos estados a Índia tem?", "28"),
      Question("Qual é a língua mais falada na Índia?", "Hindi")
    ]
  ]

  /**
   * `questionsData[country] || []`: an exact, case-sensitive key match;
   * every other name gets the empty list, and every known name three questions.
   */
  function Lookup(country: string): (questions: seq<Question>)
    ensures questions == [] <==> country !in {"France", "Japan", "India"}
    ensures questions != [] ==> |questions| == 3
  {
    if country in QuestionsData then QuestionsData[country] else []
  }

  /** The expected answers of a question list, in order. */
  function Answers(questions: seq<Question>): seq<string>
  {
    seq(|questions|, i requires 0 <= i < |questions| => questions[i].answer)
  }

  /** The catalog keeps each country's questions in the order they are written. */
  lemma CatalogOrder()
    ensures Answers(Lookup("France")) == ["Paris", "101", "Torre Eiffel"]
    ensures Answers(Lookup("Japan")) == ["Tóquio", "Iene", "Crisântemo"]
    ensures Answers(Lookup("India")) == ["Nova Délhi", "28", "Hindi"]
  {
  }

}
