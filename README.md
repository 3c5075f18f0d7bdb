# Geolocation quiz: the quiz-session core in Dafny

The app (`geolocalizacao/App.js`) finds the user's country from the device position. It then shows three
trivia questions for that country, collects free-text answers and scores them. This project models
the part of the app that carries data and invariants:

- **Catalog** (`Catalog.dfy`): the static `questionsData` map from country name to an ordered list
  of `{question, answer}` records, and the `questionsData[country] || []` lookup.
- **Geocoding** (`Geocoding.dfy`): the field extraction `address?.country || null` applied to the
  reverse-geocoding reply. It also holds the home screen's gate `country && questionsData[country]`,
  which decides whether the "show questions" button appears.
- **Text** (`Text.dfy`): `String.prototype.trim` and `String.prototype.toLowerCase` as used by
  the answer comparison.
- **Scoring** (`Scoring.dfy`): the pure specification of a submission.
  - `Matches`: the trimmed, lower-cased answer equals the lower-cased expected answer. The expected
    answer is not trimmed.
  - `Missed`: the `reduce` that pushes each missed question.
  - `Score`: `correctAnswers = answers.length - incorrect.length` and
    `totalQuestions = questions.length`.
  - `Passed`: the results screen's test `correctAnswers / totalQuestions >= 0.7`.
- **Session** (`Session.dfy`): the questions screen as a class `QuizSession`.
  - Its `answers` field is an array that starts as one empty string per question.
  - `ChangeAnswer` is `handleAnswerChange`. It copies the array, overwrites one slot and installs
    the copy; the previous array is left untouched.
  - `Submit` is `handleSubmit`. Its loop is proved equal to `Scoring.Score`.
- **Scenarios** (`Scenarios.dfy`): the worked France sessions and the unknown-country lookup.

`Wrappers.dfy` holds the `Option` type that stands for JavaScript's `null`/`undefined`.

Four points of the code's behaviour that the model keeps:

- The expected answer is never trimmed; only the user's answer is (`App.js:105`).
  `PaddedExpectedNeverMatches` shows the consequence: an expected answer that begins with white
  space could never be matched.
- The correct count is `answers.length - incorrect.length` (`App.js:112`). The answers array always
  has one slot per question (`QuizSession.Valid`), so this equals the question count minus the
  missed count.
- `handleAnswerChange` has no range check (`App.js:97-101`). Its only caller passes indices taken
  from `questions.map`, so the model requires an in-range index.
- The home screen offers the questions only for a country with a catalog entry (`App.js:75`).

## Model

| member | source | states |
|---|---|---|
| Catalog.Lookup | geolocalizacao/App.js:93 | The result is empty exactly when the name is not one of the exact, case-sensitive keys "France", "Japan", "India"; a known name gets 3 questions |
| Catalog.CatalogOrder | geolocalizacao/App.js:10-26 | Each country's expected answers come out in the order the catalog lists them |
| Geocoding.ExtractCountry | geolocalizacao/App.js:59-60 | A country is returned iff the reply has an address whose country is present and non-empty (falsy values give null); it is then that country |
| Geocoding.GateOpensForCatalogCountries | geolocalizacao/App.js:75 | The questions button appears iff the geocoder named a catalog key, and then the lookup yields 3 questions |
| Text.TrimStartSpec | geolocalizacao/App.js:105 | Front trimming keeps a suffix, removes only white space and stops at the first other character |
| Text.TrimEndSpec | geolocalizacao/App.js:105 | Back trimming keeps a prefix, removes only white space and stops at the last other character |
| Text.TrimSpec | geolocalizacao/App.js:105 | `trim` returns the slice of its input left after front and back trimming, never longer than the input, with no white space at either end |
| Text.TrimUnpadded | geolocalizacao/App.js:105 | A string with no white space at either end is unchanged by `trim` |
| Text.TrimIdempotent | geolocalizacao/App.js:105 | Trimming twice is trimming once |
| Text.TrimPadding | geolocalizacao/App.js:105 | White space added on either side of a string does not change its trimmed form |
| Text.LowerChar | geolocalizacao/App.js:105 | A lower-cased character is never upper case, is white space iff the original is, and differs from it only if the original was upper case |
| Text.LowerSpec | geolocalizacao/App.js:105 | `toLowerCase` keeps the length, leaves no upper-case letter and changes only upper-case letters |
| Text.LowerOfLowerCase | geolocalizacao/App.js:105 | A string without upper-case letters is its own lower case |
| Text.LowerIdempotent | geolocalizacao/App.js:105 | Lower-casing twice is lower-casing once |
| Text.LowerTrim | geolocalizacao/App.js:105 | Lower-casing commutes with trimming |
| Scoring.Missed | geolocalizacao/App.js:104-109 | The missed list is never longer than the list of answers visited |
| Scoring.MissedIndicesOrdered | geolocalizacao/App.js:104-109 | The missed positions are visited positions, in strictly increasing order |
| Scoring.MissedIndicesExact | geolocalizacao/App.js:104-106 | Position i is listed iff lower(trim(answer i)) differs from lower(expected answer i) |
| Scoring.MissedAtIndices | geolocalizacao/App.js:104-109 | The k-th missed question is the question at the k-th missed position |
| Scoring.MissedSelection | geolocalizacao/App.js:104-109 | The missed list is the order-preserving selection of exactly the questions whose answer does not match |
| Scoring.MissedPlusMatches | geolocalizacao/App.js:104-112 | Missed questions plus matching answers account for every answer visited |
| Scoring.ScoreBalance | geolocalizacao/App.js:112-113 | With one answer per question, correct equals the number of matching answers, correct plus missed equals total, and 0 <= correct <= total |
| Scoring.PassThreshold | geolocalizacao/App.js:153 | For a non-empty quiz, `correct / total >= 0.7` holds iff 10 * correct >= 7 * total |
| Scoring.PassBoundary | geolocalizacao/App.js:153 | 7 of 10 passes; 69 of 100 fails |
| Scoring.ThreeQuestionPassNeedsAll | geolocalizacao/App.js:153 | For a 3-question quiz (every catalog quiz) a pass needs every answer right; 2 of 3 fails |
| Scoring.MatchIgnoresPadding | geolocalizacao/App.js:105 | White space around the user's answer never changes whether it matches |
| Scoring.MatchIgnoresCase | geolocalizacao/App.js:105 | Two answers equal up to case get the same verdict |
| Scoring.PaddedExpectedNeverMatches | geolocalizacao/App.js:105 | An expected answer starting with white space matches no answer, because only the user's side is trimmed |
| Session.QuizSession.constructor | geolocalizacao/App.js:92-94 | The session holds the lookup's questions and an answers array of the same length, every slot "" |
| Session.QuizSession.ChangeAnswer | geolocalizacao/App.js:97-101 | The new answers are the old ones with only slot `index` replaced by `text`; the length is kept; the new array is fresh and the old array is unchanged |
| Session.QuizSession.Submit | geolocalizacao/App.js:103-115 | The reduce loop returns exactly `Score(questions, answers)` and changes nothing |
| Session.SubmitTwice | geolocalizacao/App.js:103-115 | Two submits with no edit between them give identical results, with correct plus missed equal to the question count |
| Scenarios.ParisVariantsMatch | geolocalizacao/App.js:105 | " Paris " and "paris" both match "Paris" |
| Scenarios.FranceAllCorrect | geolocalizacao/App.js:104-114 | France answered "Paris", "101", "Torre Eiffel" scores 3 of 3 with nothing missed |
| Scenarios.FranceOneWrong | geolocalizacao/App.js:104-114 | France answered "paris", "100", "Torre Eiffel" scores 2 of 3, missing only the departments question |
| Scenarios.UnknownCountryHasNoQuestions | geolocalizacao/App.js:93 | "Brazil" and the lower-case "france" both get the empty question list |
| Scenarios.FranceSession | geolocalizacao/App.js:97-115 | Driving the class through three edits and a submit gives 2 of 3, a fail |

## Left out

- The React components, JSX rendering, the style sheet and the stack navigator are presentation
  only, so they are not modelled.
- Route parameters passed between screens are modelled as plain values passed between the
  session, the scoring functions and their callers.
- The location permission request, the GPS position and the alert shown on denial are device I/O.
  Only the abstract address record is modelled, so the resolver's failure cases (permission denied,
  no position, network failure) are not modelled.
- The HTTP request to the reverse-geocoding service and the async sequencing in `useEffect` are
  network I/O and concurrency. Only the field extraction from the reply's `address` object is
  modelled.
- Latitude and longitude, and the `=== 0` / `=== null` placeholders on the home screen, are
  floating-point display logic.
- The `incorrectQuestions` state of the questions screen is declared but never set, so it is not
  modelled.
- Text.Lower: `toLowerCase` is modelled for ASCII A-Z and Latin-1 U+00C0-U+00DE (except U+00D7)
  only. This covers every letter in the catalog. Case mappings of other scripts are not modelled;
  neither are mappings to several characters, such as U+0130.
- Text.Trim: the white-space set is ECMAScript's WhiteSpace and LineTerminator code points. Strings
  are sequences of code points, not UTF-16 code units.
- Scoring.Passed: the division is modelled on exact reals, not IEEE doubles. The two agree for
  every total below about 10^15; a catalog quiz has 3 questions.
- Catalog.Lookup: the catalog is modelled as its own keys only. JavaScript object lookup also finds
  inherited names such as "constructor" or "toString", which would open the home-screen gate. The
  geocoder never reports such names.
- Session.QuizSession.ChangeAnswer: requires `index` within the array. In JavaScript an
  out-of-range write would grow the array, but the screen only passes indices of rendered questions.
