/** The running game: the session record, which the page updates in place,
    together with the part of the page a player can act on (the question on
    screen, its option buttons and whether each button is still enabled). */
module Game {
  import opened Quiz

  datatype Option<T> = None | Some(value: T)

  /** What a click on an option button leads to. A click on a disabled or
      missing button does nothing, which the model reports as `Ignored`. */
  datatype Outcome = Ignored | Correct | Wrong(answer: string)

  class Session {
    // the session record
    var total: nat
    var q: seq<Question>
    var score: nat
    var counter: nat

    // the output area: the question on screen and its option buttons
    var shown: Option<Question>
    var buttons: seq<string>
    var enabled: array<bool>

    // the question array the session was built from, and the questions
    // served so far, in the order they were served
    ghost var loaded: seq<Question>
    ghost var served: seq<Question>

    /** The session record as a value. */
    ghost function Data(): GameData
      reads this
    {
      GameData(total, q, score, counter)
    }

    /** Some option button of the question on screen can still be clicked. */
    ghost predicate Pending()
      reads this, enabled
    {
      exists k :: 0 <= k < enabled.Length && enabled[k]
    }

    /** The session record agrees with the loaded array: the questions
        served so far, followed by the queue, are the loaded questions. */
    ghost predicate Bookkeeping()
      reads this
    {
      && total == |loaded|
      && served + q == loaded
      && counter == |served|
      && Consistent(Data())
    }

    /** The output area shows one button per option label of the last
        question served, or nothing, and while a button is enabled the
        question on screen has not been scored yet. */
    ghost predicate Display()
      reads this, enabled
    {
      && enabled.Length == |buttons|
      && (shown.None? ==> buttons == [])
      && (shown.Some? ==> served != [] && shown.value == served[|served| - 1]
                          && multiset(buttons) == multiset(OptionPool(shown.value)))
      && (Pending() ==> score < counter)
    }

    ghost predicate Valid()
      reads this, enabled
    {
      Bookkeeping() && Display()
    }

    /** A fresh session for the loaded question array, before the first
        question is shown. */
    constructor Start(data: seq<Question>)
      ensures Valid() && fresh(enabled)
      ensures Data() == Load(data)
      ensures total == |data| && q == data && score == 0 && counter == 0
      ensures loaded == data && served == []
      ensures shown == None && buttons == []
    {
      total, q, score, counter := |data|, data, 0, 0;
      shown, buttons := None, [];
      enabled := new bool[0];
      loaded, served := data, [];
    }

    /** Shows the next question with freshly shuffled, enabled option
        buttons, or ends the game when no question is left. The page advances
        only before the first question and after an answer, so never while a
        button of the question on screen can still be clicked. */
    method Advance() returns (step: Step)
      requires Valid() && !Pending()
      modifies this
      ensures Valid()
      ensures (step, Data()) == NextStep(old(Data()))
      ensures loaded == old(loaded)
      ensures step.GameOver? ==> served == old(served) == loaded
      ensures step.GameOver? ==> step.score <= step.total
      ensures step.GameOver? ==> shown == None && buttons == [] && !Pending()
      ensures step.Show? ==> served == old(served) + [step.question]
      ensures step.Show? ==> shown == Some(step.question)
      ensures step.Show? ==> multiset(buttons) == multiset(OptionPool(step.question))
      ensures step.Show? ==> fresh(enabled)
      ensures step.Show? ==> forall k :: 0 <= k < enabled.Length ==> enabled[k]
    {
      if |q| == 0 {
        step := GameOver(score, total);
        shown, buttons := None, [];
        enabled := new bool[0];
      } else {
        var question := q[0];
        assert [question] + q[1..] == q;
        q, counter := q[1..], counter + 1;
        served := served + [question];
        step := Show(question);
        Render(question);
      }
    }

    /** Puts `question` on screen with one enabled button per option label,
        in random order. */
    method Render(question: Question)
      requires Bookkeeping() && served != [] && question == served[|served| - 1]
      requires score < counter
      modifies this
      ensures Valid()
      ensures Data() == old(Data()) && loaded == old(loaded) && served == old(served)
      ensures shown == Some(question)
      ensures multiset(buttons) == multiset(OptionPool(question))
      ensures fresh(enabled)
      ensures forall k :: 0 <= k < enabled.Length ==> enabled[k]
    {
      var opts := ShuffledOptions(question);
      shown, buttons := Some(question), opts;
      enabled := new bool[|opts|](_ => true);
    }

    /** A click on the `k`-th option button. An enabled button scores its
        label against the answer of the question on screen and then disables
        every button, so the question cannot be scored twice. */
    method Answer(k: nat) returns (outcome: Outcome)
      requires Valid()
      modifies this, enabled
      ensures Valid()
      ensures enabled == old(enabled) && loaded == old(loaded) && served == old(served)
      ensures shown == old(shown) && buttons == old(buttons)
      ensures outcome == Ignored <==> !(k < enabled.Length && old(enabled[k]))
      ensures outcome == Ignored ==> Data() == old(Data())
      ensures outcome == Ignored ==> forall j :: 0 <= j < enabled.Length ==> enabled[j] == old(enabled[j])
      ensures outcome != Ignored ==>
                shown.Some? && k < |buttons|
                && Data() == Judge(old(Data()), buttons[k], shown.value)
                && (outcome == Correct <==> buttons[k] == shown.value.answer)
                && (outcome.Wrong? ==> outcome.answer == shown.value.answer)
                && !Pending()
      ensures !old(Pending()) ==> outcome == Ignored
    {
      if !(k < enabled.Length && enabled[k]) {
        outcome := Ignored;
        return;
      }
      var question := shown.value;
      var selected := buttons[k];
      if selected == question.answer {
        score := score + 1;
        outcome := Correct;
      } else {
        outcome := Wrong(question.answer);
      }
      DisableOptions();
    }

    /** Disables every option button of the question on screen. */
    method DisableOptions()
      modifies enabled
      ensures forall k :: 0 <= k < enabled.Length ==> !enabled[k]
    {
      for i := 0 to enabled.Length
        invariant forall k :: 0 <= k < i ==> !enabled[k]
      {
        enabled[i] := false;
      }
    }
  }
}
