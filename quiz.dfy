/** The values of the quiz: a question as loaded from the question file, the
    session record `gameData`, and the two transitions that change that record
    (taking the next question off the queue, and scoring a selection). */
module Quiz {

  /** One element of the loaded question array: the question text, the
      distractors and the correct answer. Never changed once loaded. */
  datatype Question = Question(text: string, options: seq<string>, answer: string)

  /** The session record: how many questions were loaded, the questions not
      yet served (front first), the number of correct selections, and the
      number of questions served so far. */
  datatype GameData = GameData(total: nat, q: seq<Question>, score: nat, counter: nat)

  /** What advancing the session leads to: the game-over report (score out of
      total), or the question that is shown next. */
  datatype Step = GameOver(score: nat, total: nat) | Show(question: Question)

  /** The bookkeeping every session keeps: each loaded question is either
      still queued or counted as served, and no more questions were answered
      correctly than were served. */
  predicate Consistent(g: GameData) {
    g.counter + |g.q| == g.total && g.score <= g.counter
  }

  /** The fresh session built from a loaded question array. */
  function Load(data: seq<Question>): (g: GameData)
    ensures Consistent(g)
  {
    GameData(|data|, data, 0, 0)
  }

  /** Advancing: with an empty queue the game is over and nothing changes;
      otherwise the front question is shifted off the queue and counted. */
  function NextStep(g: GameData): (r: (Step, GameData))
    ensures r.0.GameOver? <==> g.q == []
    ensures r.0.GameOver? ==> r.1 == g && r.0.score == g.score && r.0.total == g.total
    ensures r.0.Show? ==> [r.0.question] + r.1.q == g.q
    ensures r.0.Show? ==> r.1.counter == g.counter + 1
    ensures r.1.score == g.score && r.1.total == g.total
    ensures r.1.counter + |r.1.q| == g.counter + |g.q|
    ensures Consistent(g) ==> Consistent(r.1)
    ensures Consistent(g) && r.0.GameOver? ==> r.0.score <= r.0.total
  {
    if |g.q| == 0 then
      (GameOver(g.score, g.total), g)
    else
      (Show(g.q[0]), g.(q := g.q[1..], counter := g.counter + 1))
  }

  /** Scoring a selection for the question on screen: the score goes up by
      one exactly when the selected label is the correct answer. */
  function Judge(g: GameData, selected: string, question: Question): (r: GameData)
    ensures r.total == g.total && r.q == g.q && r.counter == g.counter
    ensures g.score <= r.score <= g.score + 1
    ensures r.score == g.score + 1 <==> selected == question.answer
    ensures Consistent(g) && g.score < g.counter ==> Consistent(r)
  {
    if selected == question.answer then g.(score := g.score + 1) else g
  }

  /** The labels offered for a question: the distractors followed by the
      answer, before they are put in random order. */
  function OptionPool(question: Question): (pool: seq<string>)
    ensures multiset(pool) == multiset(question.options) + multiset{question.answer}
  {
    question.options + [question.answer]
  }

  /** Puts the option labels of `question` in an arbitrary order. The order
      is left open: each round picks any label still in the pool, so every
      permutation is a possible result, and only the permutation is promised. */
  method ShuffledOptions(question: Question) returns (opts: seq<string>)
    ensures multiset(opts) == multiset(OptionPool(question))
  {
    var pool := OptionPool(question);
    opts := [];
    while pool != []
      invariant multiset(opts) + multiset(pool) == multiset(OptionPool(question))
      decreases |pool|
    {
      var i :| 0 <= i < |pool|;
      assert pool == pool[..i] + [pool[i]] + pool[i + 1..];
      opts := opts + [pool[i]];
      pool := pool[..i] + pool[i + 1..];
    }
  }

  /** Any ordering of the option labels offers one button per distractor plus
      one for the answer, so the correct answer is always among them, once
      more often than among the distractors. */
  lemma AnswerOffered(question: Question, opts: seq<string>)
    requires multiset(opts) == multiset(OptionPool(question))
    ensures |opts| == |question.options| + 1
    ensures question.answer in opts
    ensures multiset(opts)[question.answer] == multiset(question.options)[question.answer] + 1
    ensures question.answer !in question.options ==> multiset(opts)[question.answer] == 1
  {
    assert multiset(opts) == multiset(question.options) + multiset{question.answer};
    assert |opts| == |multiset(opts)|;
    assert question.answer in multiset(opts);
  }
}
