/**
 * The typewriter effect of the hero section (`TextType` in src/components/Main.jsx).
 *
 * The widget cycles through a list of phrases. Every tick of its timer either
 * types one more character of the current phrase or deletes one; a complete
 * phrase switches it to deleting (after a pause), an empty text switches it
 * back to typing and moves on to the next phrase, cyclically.
 *
 * The pure function `Step` is the specification of one tick; the class
 * `TextTyper` holds the component's state and its `Tick` method performs the
 * same update setter by setter.
 */
module TextType {

  import Modular

  /** JavaScript's `s.substring(0, end)`: `end` is clamped into [0, |s|]. */
  function Substring(s: string, end: int): (r: string)
    ensures r <= s
    ensures end <= 0 ==> r == []
    ensures 0 <= end <= |s| ==> |r| == end
    ensures |s| <= end ==> r == s
  {
    if end <= 0 then [] else if end >= |s| then s else s[..end]
  }

  /** The phrase index `loopNum % text.length`; it always selects a phrase. */
  function PhraseIndex(count: nat, loopNum: nat): (i: nat)
    requires count > 0
    ensures i < count
  {
    loopNum % count
  }

  /** The next round selects the next phrase, wrapping from the last to the first. */
  lemma NextPhraseIndex(count: nat, loopNum: nat)
    requires count > 0
    ensures PhraseIndex(count, loopNum + 1) == (PhraseIndex(count, loopNum) + 1) % count
  {
    Modular.ModSucc(loopNum, count);
  }

  /** The phrase being typed or deleted in round `loopNum`: always one of the list. */
  function Phrase(text: seq<string>, loopNum: nat): (p: string)
    requires |text| > 0
    ensures p in text
  {
    text[PhraseIndex(|text|, loopNum)]
  }

  /** After every phrase has had its round, the same phrase comes back. */
  lemma PhrasePeriodic(text: seq<string>, loopNum: nat)
    requires |text| > 0
    ensures Phrase(text, loopNum + |text|) == Phrase(text, loopNum)
  {
    Modular.ModUnique(loopNum + |text|, |text|, loopNum / |text| + 1, loopNum % |text|);
  }

  /**
   * The state of the component: the displayed text, the mode, the round
   * counter and the interval in milliseconds until the next tick.
   */
  datatype Typer = Typer(currentText: string, isDeleting: bool, loopNum: nat, delta: real)

  /** The state on mount: nothing typed, typing the first phrase. */
  function Initial(typingSpeed: real): Typer
  {
    Typer("", false, 0, typingSpeed)
  }

  /**
   * One tick. The new text is a prefix of the current phrase one character
   * longer (typing) or shorter (deleting) than the displayed one. Reaching the
   * full phrase while typing switches to deleting with the pause as delay;
   * reaching "" while deleting switches to typing, advances the round and
   * restores the typing delay; any other deleting tick shortens the delay by a
   * factor 1.5.
   */
  function Step(text: seq<string>, typingSpeed: real, pauseDuration: real, s: Typer): (r: Typer)
    requires |text| > 0
    ensures s.loopNum <= r.loopNum <= s.loopNum + 1
    ensures r.currentText <= Phrase(text, s.loopNum)
    ensures r.loopNum != s.loopNum <==> s.isDeleting && !r.isDeleting
    ensures !s.isDeleting && r.isDeleting <==>
              !s.isDeleting && r.currentText == Phrase(text, s.loopNum)
    ensures s.isDeleting && !r.isDeleting <==> s.isDeleting && r.currentText == []
    ensures !s.isDeleting && r.isDeleting ==> r.delta == pauseDuration
    ensures s.isDeleting && !r.isDeleting ==> r.delta == typingSpeed
    ensures s.isDeleting && r.isDeleting ==> r.delta == s.delta / 1.5
    ensures !s.isDeleting && !r.isDeleting ==> r.delta == s.delta
  {
    var fullText := Phrase(text, s.loopNum);
    var updatedText :=
      if s.isDeleting then Substring(fullText, |s.currentText| - 1)
      else Substring(fullText, |s.currentText| + 1);
    if !s.isDeleting && updatedText == fullText then
      Typer(updatedText, true, s.loopNum, pauseDuration)
    else if s.isDeleting && updatedText == [] then
      Typer(updatedText, false, s.loopNum + 1, typingSpeed)
    else
      Typer(updatedText, s.isDeleting, s.loopNum, if s.isDeleting then s.delta / 1.5 else s.delta)
  }

  /**
   * The invariant of every reachable state: the displayed text is a prefix of
   * the current phrase; while typing the phrase is not yet complete, and while
   * deleting the text is not yet empty (unless the phrase itself is empty).
   */
  predicate Inv(text: seq<string>, s: Typer)
  {
    && |text| > 0
    && var p := Phrase(text, s.loopNum);
    && s.currentText <= p
    && (!s.isDeleting ==> |s.currentText| < |p| || p == [])
    && (s.isDeleting ==> s.currentText != [] || p == [])
  }

  /** `n` ticks in a row. */
  function Run(text: seq<string>, typingSpeed: real, pauseDuration: real, s: Typer, n: nat): Typer
    requires |text| > 0
    decreases n
  {
    if n == 0 then s else Run(text, typingSpeed, pauseDuration, Step(text, typingSpeed, pauseDuration, s), n - 1)
  }

  lemma InitialSatisfiesInv(text: seq<string>, typingSpeed: real)
    requires |text| > 0
    ensures Inv(text, Initial(typingSpeed))
  {
  }

  lemma StepPreservesInv(text: seq<string>, typingSpeed: real, pauseDuration: real, s: Typer)
    requires Inv(text, s)
    ensures Inv(text, Step(text, typingSpeed, pauseDuration, s))
  {
  }

  /**
   * In a reachable state a typing tick lengthens the text by exactly one
   * character of the phrase, and a deleting tick removes exactly the last
   * character (or leaves "" at "").
   */
  lemma StepMovesOneCharacter(text: seq<string>, typingSpeed: real, pauseDuration: real, s: Typer)
    requires Inv(text, s)
    ensures var r := Step(text, typingSpeed, pauseDuration, s);
            var p := Phrase(text, s.loopNum);
            && (!s.isDeleting && p != [] ==> r.currentText == p[..|s.currentText| + 1])
            && (s.isDeleting && s.currentText != [] ==> r.currentText == s.currentText[..|s.currentText| - 1])
            && (s.isDeleting && s.currentText == [] ==> r.currentText == [])
  {
    var p := Phrase(text, s.loopNum);
    if s.isDeleting && s.currentText != [] {
      assert s.currentText == p[..|s.currentText|];
    }
  }

  /** Running `a + b` ticks is running `a` ticks and then `b` more. */
  lemma {:induction false} RunAdditive(text: seq<string>, typingSpeed: real, pauseDuration: real, s: Typer, a: nat, b: nat)
    requires |text| > 0
    ensures Run(text, typingSpeed, pauseDuration, s, a + b)
         == Run(text, typingSpeed, pauseDuration, Run(text, typingSpeed, pauseDuration, s, a), b)
    decreases a
  {
    if a > 0 {
      RunAdditive(text, typingSpeed, pauseDuration, Step(text, typingSpeed, pauseDuration, s), a - 1, b);
    }
  }

  /** The invariant holds after any number of ticks, and the round counter never decreases. */
  lemma {:induction false} RunPreservesInv(text: seq<string>, typingSpeed: real, pauseDuration: real, s: Typer, n: nat)
    requires Inv(text, s)
    ensures Inv(text, Run(text, typingSpeed, pauseDuration, s, n))
    ensures s.loopNum <= Run(text, typingSpeed, pauseDuration, s, n).loopNum <= s.loopNum + n
    decreases n
  {
    if n > 0 {
      var r := Step(text, typingSpeed, pauseDuration, s);
      StepPreservesInv(text, typingSpeed, pauseDuration, s);
      RunPreservesInv(text, typingSpeed, pauseDuration, r, n - 1);
    }
  }

  /**
   * Typing from any reachable typing state completes the phrase in exactly
   * as many ticks as characters are missing, then waits `pauseDuration`.
   */
  lemma {:induction false} TypingCompletesPhrase(text: seq<string>, typingSpeed: real, pauseDuration: real, s: Typer)
    requires Inv(text, s) && !s.isDeleting
    requires Phrase(text, s.loopNum) != []
    ensures var p := Phrase(text, s.loopNum);
            Run(text, typingSpeed, pauseDuration, s, |p| - |s.currentText|) == Typer(p, true, s.loopNum, pauseDuration)
    decreases |Phrase(text, s.loopNum)| - |s.currentText|
  {
    var p := Phrase(text, s.loopNum);
    var r := Step(text, typingSpeed, pauseDuration, s);
    StepMovesOneCharacter(text, typingSpeed, pauseDuration, s);
    StepPreservesInv(text, typingSpeed, pauseDuration, s);
    if |s.currentText| + 1 < |p| {
      assert r.currentText != p;
      TypingCompletesPhrase(text, typingSpeed, pauseDuration, r);
    } else {
      assert p[..|s.currentText| + 1] == p;
    }
  }

  /**
   * Deleting from any reachable deleting state with a non-empty text empties
   * it in exactly `|currentText|` ticks, then moves to the next round with the
   * typing delay.
   */
  lemma {:induction false} DeletingCompletesRound(text: seq<string>, typingSpeed: real, pauseDuration: real, s: Typer)
    requires Inv(text, s) && s.isDeleting && s.currentText != []
    ensures Run(text, typingSpeed, pauseDuration, s, |s.currentText|) == Typer([], false, s.loopNum + 1, typingSpeed)
    decreases |s.currentText|
  {
    var r := Step(text, typingSpeed, pauseDuration, s);
    StepMovesOneCharacter(text, typingSpeed, pauseDuration, s);
    StepPreservesInv(text, typingSpeed, pauseDuration, s);
    if |s.currentText| > 1 {
      DeletingCompletesRound(text, typingSpeed, pauseDuration, r);
    }
  }

  /**
   * A whole round: starting a non-empty phrase from "", `2 * |phrase|` ticks
   * type it, delete it and leave the widget at "" on the next phrase, cyclically.
   */
  lemma {:induction false} RoundAdvancesPhrase(text: seq<string>, typingSpeed: real, pauseDuration: real, s: Typer)
    requires |text| > 0 && s.currentText == [] && !s.isDeleting
    requires Phrase(text, s.loopNum) != []
    ensures var p := Phrase(text, s.loopNum);
            var r := Run(text, typingSpeed, pauseDuration, s, 2 * |p|);
            && r == Typer([], false, s.loopNum + 1, typingSpeed)
            && PhraseIndex(|text|, r.loopNum) == (PhraseIndex(|text|, s.loopNum) + 1) % |text|
  {
    var p := Phrase(text, s.loopNum);
    TypingCompletesPhrase(text, typingSpeed, pauseDuration, s);
    var mid := Typer(p, true, s.loopNum, pauseDuration);
    DeletingCompletesRound(text, typingSpeed, pauseDuration, mid);
    RunAdditive(text, typingSpeed, pauseDuration, s, |p|, |p|);
    NextPhraseIndex(|text|, s.loopNum);
  }
  /**
   * An empty phrase still takes a round of two ticks: the first finds the
   * text complete and switches to deleting with the pause as delay, the
   * second finds it empty and moves on to the next phrase.
   */
  lemma EmptyPhraseRound(text: seq<string>, typingSpeed: real, pauseDuration: real, s: Typer)
    requires |text| > 0 && s.currentText == [] && !s.isDeleting
    requires Phrase(text, s.loopNum) == []
    ensures Run(text, typingSpeed, pauseDuration, s, 1) == Typer([], true, s.loopNum, pauseDuration)
    ensures Run(text, typingSpeed, pauseDuration, s, 2) == Typer([], false, s.loopNum + 1, typingSpeed)
  {
    var s1 := Step(text, typingSpeed, pauseDuration, s);
    assert Run(text, typingSpeed, pauseDuration, s, 1) == s1;
    assert Run(text, typingSpeed, pauseDuration, s, 2) == Step(text, typingSpeed, pauseDuration, s1);
  }


  /** The mounted `TextType` component. */
  class TextTyper {
    const text: seq<string>
    const typingSpeed: real
    const pauseDuration: real
    var currentText: string
    var isDeleting: bool
    var loopNum: nat
    var delta: real

    function State(): Typer
      reads this
    {
      Typer(currentText, isDeleting, loopNum, delta)
    }

    ghost predicate Valid()
      reads this
    {
      Inv(text, State())
    }

    /** Mounting with the phrase list and the optional speeds (defaults 75 and 1500 ms). */
    constructor (text: seq<string>, typingSpeed: real := 75.0, pauseDuration: real := 1500.0)
      requires |text| > 0
      ensures this.text == text && this.typingSpeed == typingSpeed && this.pauseDuration == pauseDuration
      ensures State() == Initial(typingSpeed)
      ensures Valid()
    {
      this.text := text;
      this.typingSpeed := typingSpeed;
      this.pauseDuration := pauseDuration;
      currentText := "";
      isDeleting := false;
      loopNum := 0;
      delta := typingSpeed;
    }

    /** The timer fires: one tick, computed from the state as it was before it. */
    method Tick()
      requires Valid()
      modifies this
      ensures Valid()
      ensures State() == Step(text, typingSpeed, pauseDuration, old(State()))
    {
      ghost var before := State();
      var deleting := isDeleting;
      var i := loopNum % |text|;
      var fullText := text[i];
      var updatedText :=
        if deleting then Substring(fullText, |currentText| - 1)
        else Substring(fullText, |currentText| + 1);
      currentText := updatedText;
      if deleting {
        delta := delta / 1.5;
      }
      if !deleting && updatedText == fullText {
        isDeleting := true;
        delta := pauseDuration;
      } else if deleting && updatedText == "" {
        isDeleting := false;
        loopNum := loopNum + 1;
        delta := typingSpeed;
      }
      StepPreservesInv(text, typingSpeed, pauseDuration, before);
    }
  }
}
