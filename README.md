# Quiz game session, modelled in Dafny

A browser multiple-choice quiz. It loads an array of questions, each with
its text, its distractors and its correct answer. It then shows them one at
a time with the option labels in random order and scores the player's clicks.
At the end it reports the score out of the total. The whole state of a game is
the session record `gameData`, which the page changes in place:

- `total`: the number of questions loaded;
- `q`: the questions not yet shown;
- `score`: the number of correct selections;
- `counter`: the number of questions shown so far.

The project models that record and, beside it, the part of the page a player
can act on: the question on screen and its option buttons, each enabled or
disabled. Three files, one module each:

- `quiz.dfy` (module `Quiz`): the values. These are `Question`, `GameData`
  (the session record) and `Step` (what advancing leads to). It also holds the
  two transitions of the record as functions: `NextStep` shifts the front
  question off the queue, and `Judge` scores one selection. The options builder
  `ShuffledOptions` is here too.
- `game.dfy` (module `Game`): class `Session` keeps the record and the output
  area as fields that its methods update in place. `Valid()` is its invariant:
  `counter + |q| == total` and `score <= counter`, the questions served so far
  followed by the queue are the loaded array, the buttons on screen are a
  permutation of the shown question's distractors plus its answer, and while
  any button is enabled the question on screen has not been scored yet.
  `Start` builds the record that `Load` gives for the loaded array. `Advance`
  and `Answer` tie the new record to `NextStep` or `Judge` of the old one.
  `Render` leaves the record unchanged, and `DisableOptions` touches only the
  enabled flags of the buttons.
  The page's `startGame` (main/main.js:49-56) goes straight from loading to
  the first question. In the model that is `Start` followed by `Advance`; the
  "Question n of m" message it shows is left out. `Advance` requires that no
  button is still enabled: the page advances only before the first question
  and after an answer has disabled the buttons (main/main.js:55, 107-108).
- `play.dfy` (module `Play`): a whole playthrough as a function, `Run`, with
  the labels the player selects as its input. Its lemmas relate the final
  score to `CorrectCount`, an independent count of correct selections. They
  also show that questions are served once each, in loaded order.

The randomised ordering of the options is a nondeterministic choice. Each
round of `ShuffledOptions` takes any label still left. So the model allows
every order and promises only that the result is a permutation.

One might expect the correct answer to appear exactly once among the
options. The code (main/main.js:77) appends it to the distractors and does
not remove duplicates. The model follows the code: the answer appears once more than
among the distractors, which is exactly once when no distractor equals it
(`Quiz.AnswerOffered`).

## Model

| member | source | states |
|---|---|---|
| `Quiz.Load` | main/main.js:35-40 | The record built from a loaded array satisfies `Consistent`: nothing served, nothing scored, every loaded question queued. Its fields are stated outright by `Game.Session.Start`. |
| `Game.Session.Start` | main/main.js:35-40 | A new session has `total` equal to the number of loaded questions, the queue equal to the loaded array, `score = 0` and `counter = 0`; nothing is on screen and the invariant holds. |
| `Quiz.NextStep` | main/main.js:58-65 | Advancing reaches game over exactly when the queue is empty, and then leaves the record unchanged and reports its score and total. Otherwise the shown question is the old front of the queue, the new queue is the rest, `counter` grows by exactly one, and `score` and `total` stay the same. `counter + |q|` is preserved, and so is `Consistent` (`counter + |q| == total`, `score <= counter`). At game over the reported score is at most the total. |
| `Game.Session.Advance` | main/main.js:58-72 | Called, as on the page, only when no button of the question on screen is enabled. The new record is `NextStep` of the old one. At game over the served questions are the whole loaded array, the reported score is at most the total, and the screen is cleared. Otherwise the shown question is appended to the served sequence and put on screen with fresh, enabled buttons that are a permutation of its options plus its answer. The invariant is kept. |
| `Game.Session.Render` | main/main.js:74-90 | Puts the question on screen with one fresh, enabled button per label: a permutation of the distractors plus the answer. The session record is unchanged. |
| `Quiz.OptionPool` | main/main.js:77 | The option pool holds, as a multiset, exactly the distractors plus one more copy of the answer. |
| `Quiz.ShuffledOptions` | main/main.js:77-78 | The labels returned are, as a multiset, the distractors plus the correct answer. |
| `Quiz.AnswerOffered` | main/main.js:77 | Any permutation of the option pool has one label per distractor plus one, contains the correct answer, and holds it once more often than the distractors do (exactly once when no distractor equals it). |
| `Quiz.Judge` | main/main.js:92-95 | Scoring a selection raises `score` by one exactly when the selected label equals the answer and otherwise leaves it unchanged. `total`, `counter` and `q` never change. `Consistent` is kept while the question has not been scored yet. |
| `Game.Session.Answer` | main/main.js:92-109 | A click on an enabled button scores its label with `Judge` and then leaves no button enabled. A click on a disabled or missing button is ignored and changes nothing. So after one answer any further click on the same question is ignored, and `score <= counter <= total` holds throughout. |
| `Game.Session.DisableOptions` | main/main.js:111-114 | Every option button of the question on screen is disabled afterwards. |
| `Play.Run` | main/main.js:55-109 | A playthrough: advance, then score the next selection on the question shown, then advance again, until game over or no selection is left. It carries no contract of its own; its meaning is given by `Play.RunFrom` and `Play.Playthrough`. |
| `Play.RunFrom` | main/main.js:58-109 | From any consistent record, a playthrough serves the queued questions front to front: it serves one question per selection, plus the one that is left on screen. Served questions followed by the final queue are the old queue. The score grows by the number of selections that name their question's answer. `total` is unchanged and `Consistent` holds at the end. The game reaches game over exactly when there is a selection for every queued question. |
| `Play.CorrectCountBound` | main/main.js:93-95 | Each selection earns at most one point, so the number of correct selections never exceeds the number of questions or the number of selections. |
| `Play.Playthrough` | main/main.js:35-119 | From a freshly loaded array, the final score is the number of correct selections. It is at most `counter`, which is at most the number of loaded questions. The served questions are a prefix of the loaded array. With a selection for every question, the game ends at game over having shown the whole array in order, with an empty queue and `counter == total`. |

## Left out

- Page construction and styling (`createPageElement`, `showMessage`, `toggleButtonVisibility`, class names, the "Question n of m", feedback and game-over message texts, the lazily created restart button, main/main.js:1-27, 121-150). These are display effects with no logic. Restarting (main/main.js:135-141) only shows the start button again, and a new game then begins with `Game.Session.Start`.
- Fetching and parsing the question file and the error path (`fetch`, `res.json()`, `handleError`, main/main.js:32-34, 43-46, 152-155). This is input/output. The model starts from an already loaded sequence of questions and does not check that the elements are well formed.
- The 2000 ms delay before advancing (main/main.js:108). Timer scheduling is left out, and the advance is the next explicit call of `Game.Session.Advance`. `Play.Run` takes it immediately after each selection.
- `Math.random` in the sort comparator (main/main.js:78). Randomness is modelled as a nondeterministic choice, so the model states that the order is a permutation and not which one, and it does not model the bias of comparator-based shuffling.
- The unused `Timeout` global (main/main.js:5). This file has no countdown.
- `Game.Session.Answer` takes the index of the clicked button rather than a free string. In the page, the only strings that reach `handleAnswerSelection` are the labels of the buttons shown.
