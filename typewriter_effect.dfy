/** The mounted animation: the closure variables of the effect, the
    placeholder state it publishes and the delay of the timer it keeps
    pending, updated in place by one tick. */
module TypewriterEffect {
  import opened Typewriter

  class Animation {
    const phrases: seq<string>
    var index: int
    var text: string
    var deleting: bool
    /** The placeholder shown in the prompt field. */
    var placeholder: string
    /** The delay of the timer currently scheduled to run the next tick. */
    var pendingDelay: nat

    /** The closure variables as a value of the tick's state. */
    function Current(): State
      reads this
    {
      State(index, text, deleting)
    }

    ghost predicate Valid()
      reads this
    {
      IndexOk(phrases, Current())
    }

    /** Mounting: index 0, no text, typing, an empty placeholder and the first
        tick scheduled after the long pause. */
    constructor (phrases: seq<string>)
      requires |phrases| > 0
      ensures Valid()
      ensures this.phrases == phrases
      ensures Current() == Initial() && placeholder == ""
      ensures pendingDelay == FirstDelay()
    {
      this.phrases := phrases;
      index := 0;
      text := "";
      deleting := false;
      placeholder := "";
      pendingDelay := DELAY_BEFORE_TYPING;
    }

    /** One tick, updating the variables in the order the effect does. */
    method Type()
      requires Valid()
      modifies this
      ensures Valid()
      ensures Current() == Step(phrases, old(Current())).next
      ensures placeholder == Step(phrases, old(Current())).placeholder
      ensures pendingDelay == Step(phrases, old(Current())).delay
    {
      var phrase := phrases[index];
      if deleting {
        text := Substring(phrase, |text| - 1);
      } else {
        text := Substring(phrase, |text| + 1);
      }
      placeholder := text;
      if !deleting && text == phrase {
        deleting := true;
        pendingDelay := DELAY_BEFORE_TYPING;
      } else if deleting && text == "" {
        deleting := false;
        index := (index + 1) % |phrases|;
        pendingDelay := TYPING_SPEED;
      } else {
        pendingDelay := if deleting then DELETING_SPEED else TYPING_SPEED;
      }
    }
  }
}
