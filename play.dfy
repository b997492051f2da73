/** A whole playthrough on the session record: the game shows the next
    question, the player selects one label for it, the selection is scored,
    and after the selection the game advances again, until the queue is empty
    or the player stops selecting. */
module Play {
  import opened Quiz

  /** The end of a playthrough: the final session record, the questions that
      were shown, in order, and whether the game reached game over. */
  datatype Record = Record(final: GameData, served: seq<Question>, over: bool)

  /** Plays from `g` with `chosen[i]` as the label selected for the i-th
      question shown from here on. */
  function Run(g: GameData, chosen: seq<string>): Record
    decreases |chosen|
  {
    var next := NextStep(g);
    match next.0
    case GameOver(_, _) => Record(next.1, [], true)
    case Show(question) =>
      if chosen == [] then
        Record(next.1, [question], false)
      else
        var rest := Run(Judge(next.1, chosen[0], question), chosen[1..]);
        Record(rest.final, [question] + rest.served, rest.over)
  }

  /** How many of the selections name the answer of the question they were
      made for (selections pair up with questions front to front). */
  function CorrectCount(questions: seq<Question>, chosen: seq<string>): nat
  {
    if questions == [] || chosen == [] then 0
    else (if chosen[0] == questions[0].answer then 1 else 0)
         + CorrectCount(questions[1..], chosen[1..])
  }

  function Min(a: nat, b: nat): nat {
    if a <= b then a else b
  }

  /** At most one point per question and per selection. */
  lemma {:induction false} CorrectCountBound(questions: seq<Question>, chosen: seq<string>)
    ensures CorrectCount(questions, chosen) <= Min(|questions|, |chosen|)
  {
    if questions != [] && chosen != [] {
      CorrectCountBound(questions[1..], chosen[1..]);
    }
  }

  /** Playing from any consistent session serves the queued questions front
      to front, one per selection plus the one left on screen, scores one
      point per selection that names its question's answer, and reaches game
      over exactly when there is a selection for every queued question. */
  lemma {:induction false} RunFrom(g: GameData, chosen: seq<string>)
    requires Consistent(g)
    ensures Consistent(Run(g, chosen).final)
    ensures Run(g, chosen).final.total == g.total
    ensures Run(g, chosen).final.score == g.score + CorrectCount(g.q, chosen)
    ensures Run(g, chosen).served == g.q[..Min(|g.q|, |chosen| + 1)]
    ensures Run(g, chosen).served + Run(g, chosen).final.q == g.q
    ensures Run(g, chosen).final.counter == g.counter + |Run(g, chosen).served|
    ensures Run(g, chosen).over <==> |chosen| >= |g.q|
    decreases |chosen|
  {
    var next := NextStep(g);
    if next.0.Show? && chosen != [] {
      var question := next.0.question;
      var g1 := Judge(next.1, chosen[0], question);
      RunFrom(g1, chosen[1..]);
      assert g.q == [question] + g1.q;
      assert g.q[..Min(|g.q|, |chosen| + 1)] == [question] + g1.q[..Min(|g1.q|, |chosen[1..]| + 1)];
    }
  }

  /** A full game from a freshly loaded question array: the final score is
      the number of correct selections, never more than the number of loaded
      questions; every question is shown at most once and in loaded order, and
      with a selection for every question the game ends having shown them all. */
  lemma {:induction false} Playthrough(data: seq<Question>, chosen: seq<string>)
    ensures Run(Load(data), chosen).final.total == |data|
    ensures Run(Load(data), chosen).final.score == CorrectCount(data, chosen)
    ensures Run(Load(data), chosen).final.score <= Run(Load(data), chosen).final.counter <= |data|
    ensures Run(Load(data), chosen).final.score <= |chosen|
    ensures Run(Load(data), chosen).served <= data
    ensures |chosen| >= |data| ==>
              Run(Load(data), chosen).over && Run(Load(data), chosen).served == data
              && Run(Load(data), chosen).final.q == []
              && Run(Load(data), chosen).final.counter == |data|
  {
    RunFrom(Load(data), chosen);
    CorrectCountBound(data, chosen);
  }
}
