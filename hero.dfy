/**
 * The hero banner of components/Hero.tsx: a typing effect that spells the
 * words of the headline one character at a time, pauses on a complete word,
 * then clears it and moves on to the next word, round and round; and the
 * call-to-action buttons that jump to a section of the page.
 */
module Hero {
  import Page

  /** The rotating words of the headline, in display order. */
  const Words: seq<string> := ["Fullstack", "Blockchain", "AI"]

  /** The typing state: the text typed so far and the index of the word being typed. */
  datatype Typing = Typing(text: string, wordIndex: nat)

  /** The text shown is always a prefix of the word being typed. */
  ghost predicate ValidTyping(s: Typing)
  {
    s.wordIndex < |Words| && s.text <= Words[s.wordIndex]
  }

  /** The word after word `i`, cyclically. */
  function NextWordIndex(i: nat): (j: nat)
    ensures j < |Words|
    ensures i < |Words| - 1 ==> j == i + 1
    ensures i == |Words| - 1 ==> j == 0
  {
    (i + 1) % |Words|
  }

  /**
   * One timer callback of the effect. While the word is incomplete the next
   * character of the word is appended; once it is complete the callback moves
   * to the next word and clears the text.
   */
  function Tick(s: Typing): (r: Typing)
    requires ValidTyping(s)
    ensures ValidTyping(r)
    ensures |s.text| < |Words[s.wordIndex]| ==>
              r.wordIndex == s.wordIndex && r.text == Words[s.wordIndex][..|s.text| + 1]
    ensures |s.text| == |Words[s.wordIndex]| ==> r.text == "" && r.wordIndex == NextWordIndex(s.wordIndex)
  {
    var word := Words[s.wordIndex];
    if |s.text| == |word| then
      Typing("", NextWordIndex(s.wordIndex))
    else
      assert s.text == word[..|s.text|];
      Typing(s.text + [word[|s.text|]], s.wordIndex)
  }

  /** The state after `n` callbacks. */
  function TickN(s: Typing, n: nat): (r: Typing)
    requires ValidTyping(s)
    ensures ValidTyping(r)
  {
    if n == 0 then s else Tick(TickN(s, n - 1))
  }

  /** Running `a` callbacks and then `b` more is running `a + b` callbacks. */
  lemma {:induction false} TickNAdd(s: Typing, a: nat, b: nat)
    requires ValidTyping(s)
    ensures TickN(TickN(s, a), b) == TickN(s, a + b)
  {
    if b > 0 {
      TickNAdd(s, a, b - 1);
    }
  }

  /** Starting from an empty text, `k` callbacks have typed the first `k` characters of the word. */
  lemma {:induction false} TypesPrefix(i: nat, k: nat)
    requires i < |Words| && k <= |Words[i]|
    ensures TickN(Typing("", i), k) == Typing(Words[i][..k], i)
  {
    if k > 0 {
      TypesPrefix(i, k - 1);
    }
  }

  /**
   * A word of length `n` takes `n` callbacks to type and one more to clear it
   * and move to the next word.
   */
  lemma CompletesWord(i: nat)
    requires i < |Words|
    ensures TickN(Typing("", i), |Words[i]| + 1) == Typing("", NextWordIndex(i))
  {
    TypesPrefix(i, |Words[i]|);
    assert Words[i][..|Words[i]|] == Words[i];
  }

  /**
   * After a full round, Fullstack then Blockchain then AI (or the same cycle
   * starting elsewhere), the effect is back where it started: 9 + 10 + 2
   * characters and three word changes make 24 callbacks.
   */
  lemma FullCycle(i: nat)
    requires i < |Words|
    ensures TickN(Typing("", i), 24) == Typing("", i)
  {
    var j := NextWordIndex(i);
    var k := NextWordIndex(j);
    assert NextWordIndex(k) == i;
    CompletesWord(i);
    CompletesWord(j);
    CompletesWord(k);
    TickNAdd(Typing("", i), |Words[i]| + 1, |Words[j]| + 1);
    TickNAdd(Typing("", i), |Words[i]| + 1 + |Words[j]| + 1, |Words[k]| + 1);
    assert |Words[i]| + |Words[j]| + |Words[k]| == 21;
  }

  /** The sections the hero's buttons scroll to. */
  const ButtonTargets: seq<string> := ["skills", "contact", "about"]

  /** Every button of the hero targets a section the page renders, so every one of them scrolls. */
  lemma ButtonTargetsExist()
    ensures forall t :: t in ButtonTargets ==> t in Page.SectionIds
  {
  }

  /** The typing effect as the component runs it. */
  class TypingEffect {
    var text: string
    var wordIndex: nat
    /** False once the effect has been cleaned up; late callbacks then do nothing. */
    var mounted: bool

    ghost predicate Valid()
      reads this
    {
      ValidTyping(State())
    }

    function State(): Typing
      reads this
    {
      Typing(text, wordIndex)
    }

    constructor ()
      ensures Valid()
      ensures text == "" && wordIndex == 0 && mounted
    {
      text := "";
      wordIndex := 0;
      mounted := true;
    }

    /** A pending timer callback fires. */
    method Step()
      requires Valid()
      modifies this
      ensures Valid()
      ensures mounted == old(mounted)
      ensures old(mounted) ==> State() == Tick(old(State()))
      ensures !old(mounted) ==> State() == old(State())
    {
      if !mounted {
        return;
      }
      if |text| == |Words[wordIndex]| {
        wordIndex := (wordIndex + 1) % |Words|;
        text := "";
      } else {
        text := text + [Words[wordIndex][|text|]];
      }
    }

    /** The effect's cleanup runs: later callbacks are ignored. */
    method Cleanup()
      modifies this
      ensures !mounted
      ensures State() == old(State())
    {
      mounted := false;
    }
  }

  /**
   * A hero button: the page's active section becomes the requested one, and
   * the page scrolls only if an element with that id exists.
   */
  method ScrollToSection(page: Page.Index, sectionId: string, elementIds: set<string>) returns (scrolled: bool)
    modifies page
    ensures page.activeSection == sectionId
    ensures page.loading == old(page.loading)
    ensures scrolled <==> sectionId in elementIds
  {
    page.SetActiveSection(sectionId);
    scrolled := sectionId in elementIds;
  }

  /** When every section of the page is in the document, each hero button scrolls to its target. */
  method ButtonScrolls(page: Page.Index, target: string, elementIds: set<string>) returns (scrolled: bool)
    requires target in ButtonTargets
    requires forall s :: s in Page.SectionIds ==> s in elementIds
    modifies page
    ensures scrolled
    ensures page.activeSection == target
    ensures page.loading == old(page.loading)
  {
    ButtonTargetsExist();
    scrolled := ScrollToSection(page, target, elementIds);
  }
}
