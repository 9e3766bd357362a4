/** The typewriter placeholder of the prompt field: a tick function over the
    state (phrase index, text shown so far, deleting?) that cycles through a
    fixed list of example phrases, typing each one out character by character
    and then deleting it again. */
module Typewriter {

  /** The example phrases the placeholder cycles through. */
  const PHRASES: seq<string> := [
    "A pineapple in the ocean",
    "Astronaut on the moon with a beer",
    "A dog walking a cat",
    "Supperman on the train"
  ]

  /** Delays, in milliseconds, before the next tick. */
  const TYPING_SPEED: nat := 100
  const DELETING_SPEED: nat := 50
  const DELAY_BEFORE_TYPING: nat := 1000

  /** The closure variables of the animation. */
  datatype State = State(index: int, text: string, deleting: bool)

  /** What one tick produces: the new state, the placeholder it publishes and
      the delay before the next tick is scheduled. */
  datatype Tick = Tick(next: State, placeholder: string, delay: nat)

  /** The state the animation starts in. */
  function Initial(): State {
    State(0, "", false)
  }

  /** The delay before the very first tick. */
  function FirstDelay(): nat {
    DELAY_BEFORE_TYPING
  }

  /** `s.substring(0, end)` of JavaScript: the end index is clamped to the
      range 0 .. |s|. */
  function Substring(s: string, end: int): (r: string)
    ensures r <= s
    ensures |r| == if end < 0 then 0 else if end > |s| then |s| else end
  {
    if end < 0 then "" else if end > |s| then s else s[..end]
  }

  /** The current index is a position of the phrase list. */
  predicate IndexOk(phrases: seq<string>, s: State) {
    0 <= s.index < |phrases|
  }

  /** One call of the tick: extend or shrink the text by one character of the
      current phrase, publish it, switch mode at the ends of the phrase
      (advancing the phrase index when the text runs empty) and choose the
      delay before the next tick. */
  function Step(phrases: seq<string>, s: State): (t: Tick)
    requires IndexOk(phrases, s)
    ensures IndexOk(phrases, t.next)
    ensures t.placeholder == t.next.text
    ensures t.next.text <= phrases[s.index] && t.next.text <= phrases[t.next.index]
    ensures t.next.index == s.index || t.next.index == (s.index + 1) % |phrases|
    ensures t.delay == DELAY_BEFORE_TYPING || t.delay == TYPING_SPEED || t.delay == DELETING_SPEED
  {
    var phrase := phrases[s.index];
    var text := if s.deleting then Substring(phrase, |s.text| - 1)
                else Substring(phrase, |s.text| + 1);
    if !s.deleting && text == phrase then
      Tick(State(s.index, text, true), text, DELAY_BEFORE_TYPING)
    else if s.deleting && text == "" then
      Tick(State((s.index + 1) % |phrases|, text, false), text, TYPING_SPEED)
    else
      Tick(State(s.index, text, s.deleting), text, if s.deleting then DELETING_SPEED else TYPING_SPEED)
  }

  /** The state after `n` ticks. */
  function Run(phrases: seq<string>, s: State, n: nat): (r: State)
    requires IndexOk(phrases, s)
    ensures IndexOk(phrases, r)
    ensures n > 0 ==> r.text <= phrases[r.index]
    ensures n == 0 ==> r == s
    decreases n
  {
    if n == 0 then s else Run(phrases, Step(phrases, s).next, n - 1)
  }

  /** Every phrase has at least one character. */
  predicate NonEmptyPhrases(phrases: seq<string>) {
    |phrases| > 0 && forall i :: 0 <= i < |phrases| ==> |phrases[i]| > 0
  }

  /** The invariant of every reachable state: the index is a position of the
      list, the text is a prefix of its phrase, a deleting state still has a
      character to delete and a typing state still has one to type. */
  predicate Inv(phrases: seq<string>, s: State) {
    && IndexOk(phrases, s)
    && s.text <= phrases[s.index]
    && (s.deleting ==> |s.text| > 0)
    && (!s.deleting ==> |s.text| < |phrases[s.index]|)
  }

  // ---------------------------------------------------------------------
  // One tick
  // ---------------------------------------------------------------------

  /** A typing tick that does not finish the phrase adds exactly the next
      character of the phrase and keeps the index. */
  lemma TypingTick(phrases: seq<string>, s: State)
    requires IndexOk(phrases, s) && !s.deleting
    requires s.text <= phrases[s.index] && |s.text| < |phrases[s.index]|
    ensures Step(phrases, s).next.text == s.text + [phrases[s.index][|s.text|]]
    ensures Step(phrases, s).next.index == s.index
  {
    var p := phrases[s.index];
    assert p[..|s.text| + 1] == p[..|s.text|] + [p[|s.text|]];
  }

  /** A deleting tick on a non-empty text removes exactly its last character. */
  lemma DeletingTick(phrases: seq<string>, s: State)
    requires IndexOk(phrases, s) && s.deleting
    requires s.text <= phrases[s.index] && |s.text| > 0
    ensures Step(phrases, s).next.text == s.text[..|s.text| - 1]
  {
    var p := phrases[s.index];
    assert s.text == p[..|s.text|];
  }

  /** A typing tick switches to deleting exactly when it completes the phrase;
      it then keeps the index and waits the long pause. */
  lemma PhraseCompleted(phrases: seq<string>, s: State)
    requires IndexOk(phrases, s) && !s.deleting
    ensures var t := Step(phrases, s);
      && (t.next.deleting <==> t.next.text == phrases[s.index])
      && (t.next.deleting ==> t.next.index == s.index && t.delay == DELAY_BEFORE_TYPING)
  {
  }

  /** A deleting tick switches to typing exactly when it empties the text; it
      then moves on to the next phrase, wrapping around, and waits one typing
      delay. */
  lemma TextEmptied(phrases: seq<string>, s: State)
    requires IndexOk(phrases, s) && s.deleting
    ensures var t := Step(phrases, s);
      && (!t.next.deleting <==> t.next.text == "")
      && (!t.next.deleting ==> t.next.index == (s.index + 1) % |phrases| && t.delay == TYPING_SPEED)
  {
  }

  /** Away from the two ends of a phrase a tick keeps the mode and the index,
      and the delay is the speed of the current mode. */
  lemma NoBoundary(phrases: seq<string>, s: State)
    requires IndexOk(phrases, s)
    requires var t := Step(phrases, s);
      !(!s.deleting && t.next.text == phrases[s.index]) && !(s.deleting && t.next.text == "")
    ensures var t := Step(phrases, s);
      && t.next.deleting == s.deleting
      && t.next.index == s.index
      && t.delay == (if s.deleting then DELETING_SPEED else TYPING_SPEED)
  {
  }

  /** The long pause follows exactly the ticks that complete a phrase, the
      short one exactly the deleting ticks that leave text behind. */
  lemma DelayMeaning(phrases: seq<string>, s: State)
    requires IndexOk(phrases, s)
    ensures var t := Step(phrases, s);
      && (t.delay == DELAY_BEFORE_TYPING <==> !s.deleting && t.next.deleting)
      && (t.delay == DELETING_SPEED <==> s.deleting && t.next.deleting)
      && (t.delay == TYPING_SPEED <==> !t.next.deleting)
  {
  }

  /** On a reachable state the clamping of `substring` never takes effect and
      every tick changes the length of the text by exactly one. */
  lemma LengthChangesByOne(phrases: seq<string>, s: State)
    requires Inv(phrases, s)
    ensures |Step(phrases, s).next.text| == |s.text| + (if s.deleting then -1 else 1)
  {
  }

  /** The tick preserves the invariant of reachable states. */
  lemma StepPreservesInv(phrases: seq<string>, s: State)
    requires NonEmptyPhrases(phrases) && Inv(phrases, s)
    ensures Inv(phrases, Step(phrases, s).next)
  {
    var t := Step(phrases, s);
    if !t.next.deleting && t.next.index != s.index {
      assert |phrases[t.next.index]| > 0;
    }
  }

  /** The animation starts in a state satisfying the invariant. */
  lemma InitialInv(phrases: seq<string>)
    requires NonEmptyPhrases(phrases)
    ensures Inv(phrases, Initial())
  {
    assert |phrases[0]| > 0;
  }

  /** Every state the animation reaches satisfies the invariant. */
  lemma {:induction false} RunPreservesInv(phrases: seq<string>, s: State, n: nat)
    requires NonEmptyPhrases(phrases) && Inv(phrases, s)
    ensures Inv(phrases, Run(phrases, s, n))
    decreases n
  {
    if n > 0 {
      StepPreservesInv(phrases, s);
      RunPreservesInv(phrases, Step(phrases, s).next, n - 1);
    }
  }

  // ---------------------------------------------------------------------
  // Full cycle
  // ---------------------------------------------------------------------

  /** Running `a + b` ticks is running `a` ticks, then `b`. */
  lemma {:induction false} RunAdd(phrases: seq<string>, s: State, a: nat, b: nat)
    requires IndexOk(phrases, s)
    ensures Run(phrases, s, a + b) == Run(phrases, Run(phrases, s, a), b)
    decreases a
  {
    if a > 0 {
      RunAdd(phrases, Step(phrases, s).next, a - 1, b);
    }
  }

  /** Typing from the first `k` characters of a phrase reaches the whole
      phrase, now in deleting mode, after `|phrase| - k` ticks. */
  lemma {:induction false} TypeOut(phrases: seq<string>, i: int, k: nat)
    requires 0 <= i < |phrases| && k < |phrases[i]|
    ensures Run(phrases, State(i, phrases[i][..k], false), |phrases[i]| - k)
         == State(i, phrases[i], true)
    decreases |phrases[i]| - k
  {
    var p := phrases[i];
    var s := State(i, p[..k], false);
    var next := Step(phrases, s).next;
    assert next.text == p[..k + 1];
    if k + 1 == |p| {
      assert p[..k + 1] == p;
      assert next == State(i, p, true);
    } else {
      assert next == State(i, p[..k + 1], false);
      TypeOut(phrases, i, k + 1);
    }
  }

  /** Deleting from the first `k` characters of a phrase reaches the empty
      text on the next phrase, now in typing mode, after `k` ticks. */
  lemma {:induction false} DeleteAll(phrases: seq<string>, i: int, k: nat)
    requires 0 <= i < |phrases| && 0 < k <= |phrases[i]|
    ensures Run(phrases, State(i, phrases[i][..k], true), k)
         == State((i + 1) % |phrases|, "", false)
    decreases k
  {
    var p := phrases[i];
    var s := State(i, p[..k], true);
    var next := Step(phrases, s).next;
    assert next.text == p[..k - 1];
    if k == 1 {
      assert next == State((i + 1) % |phrases|, "", false);
    } else {
      assert next == State(i, p[..k - 1], true);
      DeleteAll(phrases, i, k - 1);
    }
  }

  /** From the empty text on phrase `i`, typing it out and deleting it again
      takes `2 * |phrases[i]|` ticks and ends on the empty text of the next
      phrase, wrapping around after the last one. */
  lemma FullCycle(phrases: seq<string>, i: int)
    requires 0 <= i < |phrases| && |phrases[i]| > 0
    ensures Run(phrases, State(i, "", false), 2 * |phrases[i]|)
         == State((i + 1) % |phrases|, "", false)
  {
    var p := phrases[i];
    assert p[..0] == "";
    TypeOut(phrases, i, 0);
    assert p[..|p|] == p;
    DeleteAll(phrases, i, |p|);
    RunAdd(phrases, State(i, "", false), |p|, |p|);
  }

  // ---------------------------------------------------------------------
  // The concrete phrase list
  // ---------------------------------------------------------------------

  /** Number of ticks that types and deletes every phrase once. */
  function Period(): nat {
    2 * (|PHRASES[0]| + |PHRASES[1]| + |PHRASES[2]| + |PHRASES[3]|)
  }

  /** The animation starts at index 0 with no text while typing, after the
      long pause, and every state it then reaches satisfies the invariant. */
  lemma StartUp(n: nat)
    ensures Initial() == State(0, "", false) && FirstDelay() == DELAY_BEFORE_TYPING
    ensures Inv(PHRASES, Run(PHRASES, Initial(), n))
  {
    assert NonEmptyPhrases(PHRASES) by {
      assert |PHRASES[0]| > 0 && |PHRASES[1]| > 0 && |PHRASES[2]| > 0 && |PHRASES[3]| > 0;
    }
    InitialInv(PHRASES);
    RunPreservesInv(PHRASES, Initial(), n);
  }

  /** After typing and deleting all four phrases once, the animation is back
      in its initial state: it repeats with a period of 196 ticks. */
  lemma RoundTrip()
    ensures Period() == 196
    ensures Run(PHRASES, Initial(), Period()) == Initial()
  {
    var a, b, c, d := 2 * |PHRASES[0]|, 2 * |PHRASES[1]|, 2 * |PHRASES[2]|, 2 * |PHRASES[3]|;
    assert |PHRASES[0]| == 24 && |PHRASES[1]| == 33 && |PHRASES[2]| == 19 && |PHRASES[3]| == 22;
    var s0 := Initial();
    FullCycle(PHRASES, 0);
    var s1 := Run(PHRASES, s0, a);
    assert s1 == State(1, "", false);
    FullCycle(PHRASES, 1);
    var s2 := Run(PHRASES, s1, b);
    assert s2 == State(2, "", false);
    FullCycle(PHRASES, 2);
    var s3 := Run(PHRASES, s2, c);
    assert s3 == State(3, "", false);
    FullCycle(PHRASES, 3);
    var s4 := Run(PHRASES, s3, d);
    assert s4 == State(0, "", false);
    RunAdd(PHRASES, s0, a, b);
    RunAdd(PHRASES, s0, a + b, c);
    RunAdd(PHRASES, s0, a + b + c, d);
  }
}
