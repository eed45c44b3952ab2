/**
 * The skills section of components/Skills.tsx: a table of skills per category,
 * the category tabs that choose which list is shown, and the animated counter
 * that counts each skill's level up from zero once it scrolls into view.
 */
module Skills {

  /** One skill: its name and its proficiency level in percent. */
  datatype SkillItem = SkillItem(name: string, level: int)

  /** A category tab: the key it selects and its caption (the label shown). */
  datatype CategoryButton = CategoryButton(id: string, caption: string)

  /** The category tabs, in the order they are shown. */
  const Categories: seq<CategoryButton> := [
    CategoryButton("frontend", "Frontend"),
    CategoryButton("backend", "Backend"),
    CategoryButton("mobile", "Mobile"),
    CategoryButton("blockchain", "Blockchain"),
    CategoryButton("ai", "AI"),
    CategoryButton("languages", "Languages"),
    CategoryButton("tools", "Tools")
  ]

  /** The skills of each category. */
  const SkillsData: map<string, seq<SkillItem>> := map[
    "frontend" := [
      SkillItem("React", 95), SkillItem("Next.js", 90), SkillItem("TypeScript", 85),
      SkillItem("Tailwind CSS", 90), SkillItem("Bootstrap", 85), SkillItem("Redux", 85),
      SkillItem("Zustand", 95), SkillItem("TanStack Query", 91)],
    "backend" := [
      SkillItem("Node.js", 85), SkillItem("Express.js", 70), SkillItem("Hono.js", 75),
      SkillItem("FastAPI", 70), SkillItem("Next.js", 90), SkillItem("Prisma", 85),
      SkillItem("Drizzle", 90), SkillItem("PostgreSQL", 90)],
    "blockchain" := [
      SkillItem("Solidity", 80), SkillItem("Wagmi", 85), SkillItem("Viem", 80),
      SkillItem("Ethers.js", 75), SkillItem("Hardhat", 70), SkillItem("Foundry", 89),
      SkillItem("Smart Contracts", 75), SkillItem("DApps", 70),
      SkillItem("Web3 Security Auditing", 30), SkillItem("thirdweb", 70)],
    "ai" := [
      SkillItem("LangChain", 70), SkillItem("LLM Integration", 75), SkillItem("Vercel AI SDK", 70),
      SkillItem("AI Chatbots", 65), SkillItem("Prompt Engineering", 75),
      SkillItem("Vector Databases", 70), SkillItem("AI Agents", 80), SkillItem("RAG Systems", 70)],
    "languages" := [
      SkillItem("TypeScript", 90), SkillItem("JavaScript", 95), SkillItem("Python", 75),
      SkillItem("Solidity", 80), SkillItem("HTML/CSS", 90)],
    "tools" := [
      SkillItem("Git", 90), SkillItem("Docker", 75), SkillItem("Vercel", 85),
      SkillItem("VS Code", 95), SkillItem("Figma", 70), SkillItem("Cursor AI", 85),
      SkillItem("pnpm", 80)],
    "mobile" := [
      SkillItem("React Native", 85), SkillItem("Expo", 80), SkillItem("React Navigation", 85),
      SkillItem("Native Base", 75), SkillItem("Redux for Mobile", 80), SkillItem("Reanimated", 70),
      SkillItem("App Publishing", 75), SkillItem("Mobile UX/UI", 80)]
  ]

  /** The tab selected when the section first renders. */
  const InitialCategory: string := "frontend"

  /**
   * The tabs and the table agree: every tab selects a key of the table and
   * every key has a tab, so looking up the selected tab never fails.
   */
  lemma TabsMatchTable()
    ensures forall b :: b in Categories ==> b.id in SkillsData
    ensures forall c :: c in SkillsData ==> exists b :: b in Categories && b.id == c
    ensures InitialCategory in SkillsData
  {
    assert Categories[0].id == "frontend";
    assert Categories[1].id == "backend";
    assert Categories[2].id == "mobile";
    assert Categories[3].id == "blockchain";
    assert Categories[4].id == "ai";
    assert Categories[5].id == "languages";
    assert Categories[6].id == "tools";
  }

  /** Every level in the table is a percentage. */
  lemma LevelsArePercentages()
    ensures forall c, i :: c in SkillsData && 0 <= i < |SkillsData[c]| ==> 0 <= SkillsData[c][i].level <= 100
  {
  }

  /** The list rendered for a category: exactly that category's entry of the table. */
  function ShownSkills(category: string): (r: seq<SkillItem>)
    requires category in SkillsData
    ensures r != []
    ensures forall i :: 0 <= i < |r| ==> 0 <= r[i].level <= 100
  {
    LevelsArePercentages();
    SkillsData[category]
  }

  /** The selected tab. */
  class SkillsPanel {
    var activeCategory: string

    ghost predicate Valid()
      reads this
    {
      activeCategory in SkillsData
    }

    constructor ()
      ensures Valid() && activeCategory == InitialCategory
    {
      activeCategory := InitialCategory;
    }

    /** A click on one of the tabs selects its category. */
    method SelectCategory(button: CategoryButton)
      requires button in Categories
      modifies this
      ensures Valid() && activeCategory == button.id
    {
      TabsMatchTable();
      activeCategory := button.id;
    }

    /** The skills rendered under the selected tab. */
    function Shown(): (r: seq<SkillItem>)
      requires Valid()
      reads this
      ensures r == SkillsData[activeCategory]
      ensures r != []
      ensures forall i :: 0 <= i < |r| ==> 0 <= r[i].level <= 100
    {
      ShownSkills(activeCategory)
    }
  }

  // The animated counter. After k ticks of the interval its accumulator holds
  // start = k * end / (duration / 16) = 16 * k * end / duration. It is kept
  // scaled by `duration`, as the integer 16 * k * end, so that the real
  // arithmetic is exact: floor(start) is (16 * k * end) / duration, and
  // start >= end exactly when 16 * k * end >= end * duration.

  /** The duration every counter of the section uses. */
  const DefaultDuration: int := 2000

  /** The count shown after `k` ticks: min(floor(start), end). */
  function Displayed(end: int, duration: int, k: nat): (c: int)
    requires duration > 0
    ensures c <= end
    ensures end >= 0 ==> 0 <= c
  {
    var floorStart := (16 * k * end) / duration;
    if floorStart < end then floorStart else end
  }

  /** Whether the tick numbered `k` clears the interval: start >= end. */
  predicate Done(end: int, duration: int, k: nat)
  {
    16 * k * end >= end * duration
  }

  /** The number of the tick that clears the interval, for a non-negative `end`. */
  function StopTick(end: int, duration: int): nat
    requires end >= 0 && duration > 0
  {
    if end == 0 then 1 else (duration + 15) / 16
  }

  lemma DivMonotone(a: int, b: int, d: int)
    requires d > 0 && a <= b
    ensures a / d <= b / d
  {
    var qa, qb := a / d, b / d;
    assert qa * d <= a <= b < (qb + 1) * d;
  }

  /** One tick adds 16 * end to the scaled accumulator. */
  lemma AccumulatorStep(k: nat, end: int)
    ensures 16 * k * end + 16 * end == 16 * (k + 1) * end
  {
  }

  /** For a non-negative `end` the shown count never goes down from one tick to a later one. */
  lemma DisplayedMonotone(end: int, duration: int, j: nat, k: nat)
    requires end >= 0 && duration > 0 && j <= k
    ensures Displayed(end, duration, j) <= Displayed(end, duration, k)
  {
    assert 16 * k * end - 16 * j * end == 16 * (k - j) * end;
    DivMonotone(16 * j * end, 16 * k * end, duration);
  }

  /** The tick that clears the interval shows `end` itself. */
  lemma DoneShowsEnd(end: int, duration: int, k: nat)
    requires duration > 0 && Done(end, duration, k)
    ensures Displayed(end, duration, k) == end
  {
    assert (end * duration) / duration == end;
    DivMonotone(end * duration, 16 * k * end, duration);
  }

  /** Every tick before that shows less than `end`. */
  lemma NotDoneBelowEnd(end: int, duration: int, k: nat)
    requires duration > 0 && !Done(end, duration, k)
    ensures Displayed(end, duration, k) < end
  {
    var a := 16 * k * end;
    var q := a / duration;
    assert q * duration <= a < end * duration;
  }

  /**
   * For a non-negative `end` and a positive duration the interval is cleared,
   * on tick StopTick and on no earlier tick.
   */
  lemma StopsFirstAt(end: int, duration: int)
    requires end >= 0 && duration > 0
    ensures StopTick(end, duration) >= 1
    ensures Done(end, duration, StopTick(end, duration))
    ensures forall k: nat :: 1 <= k < StopTick(end, duration) ==> !Done(end, duration, k)
  {
    if end > 0 {
      var s := StopTick(end, duration);
      assert 16 * s >= duration;
      assert 16 * s * end >= duration * end;
      forall k: nat | 1 <= k < s
        ensures !Done(end, duration, k)
      {
        assert 16 * k < duration;
        assert 16 * k * end < duration * end;
      }
    }
  }

  /**
   * In exact arithmetic, every counter of the section, counting up to a
   * positive level, clears its interval on tick 125.
   */
  lemma DefaultCounterStopsAt125(end: int)
    requires end > 0
    ensures StopTick(end, DefaultDuration) == 125
    ensures Done(end, DefaultDuration, 125)
    ensures forall k: nat :: 1 <= k < 125 ==> !Done(end, DefaultDuration, k)
  {
    StopsFirstAt(end, DefaultDuration);
  }

  /** One counter: its props, the shown count and the interval's accumulator. */
  class CountUp {
    var end: int
    const duration: int
    var count: int
    /** The accumulator `start`, scaled by `duration`. */
    var scaledStart: int
    /** Whether the counter has been seen; it is watched once only. */
    var inView: bool
    /** Whether the interval is set. */
    var ticking: bool
    ghost var ticks: nat

    ghost predicate Valid()
      reads this
    {
      && duration > 0
      && scaledStart == 16 * ticks * end
      && (!inView ==> count == 0)
      && (ticks > 0 ==> count == Displayed(end, duration, ticks))
      && (!inView ==> ticks == 0 && !ticking)
      && (ticking ==> forall k: nat :: 1 <= k <= ticks ==> !Done(end, duration, k))
      && (inView && !ticking ==> ticks > 0 && Done(end, duration, ticks))
    }

    constructor (end: int, duration: int)
      requires duration > 0
      ensures Valid()
      ensures this.end == end && this.duration == duration
      ensures count == 0 && !inView && !ticking
    {
      this.end := end;
      this.duration := duration;
      count := 0;
      scaledStart := 0;
      inView := false;
      ticking := false;
      ticks := 0;
    }

    /** The counter scrolls into view: the first time, the interval starts from zero. */
    method EnterView()
      requires Valid()
      modifies this
      ensures Valid() && inView && end == old(end)
      ensures !old(inView) ==> ticking && ticks == 0 && count == 0
      ensures old(inView) ==> ticking == old(ticking) && ticks == old(ticks) && count == old(count)
    {
      if !inView {
        inView := true;
        scaledStart := 0;
        ticks := 0;
        ticking := true;
      }
    }

    /**
     * The counter is rendered with `end` set to `newEnd`, as when a tab switch
     * hands its position in the list another skill's level. The effect depends
     * on `end`, so it re-runs only when the level differs: then the accumulator
     * restarts from zero and, if the counter has been seen, a new interval is
     * set. The shown count keeps its old value until the next tick, and may
     * exceed the new end. With the same level nothing changes.
     */
    method SetEnd(newEnd: int)
      requires Valid()
      modifies this
      ensures Valid() && end == newEnd
      ensures count == old(count) && inView == old(inView)
      ensures newEnd != old(end) ==> ticks == 0 && scaledStart == 0 && ticking == inView
      ensures newEnd == old(end) ==> ticks == old(ticks) && scaledStart == old(scaledStart) && ticking == old(ticking)
    {
      if newEnd != end {
        end := newEnd;
        scaledStart := 0;
        ticks := 0;
        ticking := inView;
      }
    }

    /** One tick of the interval. */
    method Tick()
      requires Valid() && ticking
      modifies this
      ensures Valid()
      ensures end == old(end) && inView == old(inView)
      ensures ticks == old(ticks) + 1
      ensures count == Displayed(end, duration, ticks) && count <= end
      ensures end >= 0 && old(ticks) > 0 ==> old(count) <= count
      ensures ticking <==> !Done(end, duration, ticks)
      ensures !ticking ==> count == end
    {
      var e, d := end, duration;
      ghost var k := ticks + 1;
      AccumulatorStep(ticks, e);
      var acc := scaledStart + 16 * e;
      assert acc == 16 * k * e;
      var floorStart := acc / d;
      var shown := if floorStart < e then floorStart else e;
      assert shown == Displayed(e, d, k);
      if e >= 0 && k > 1 {
        DisplayedMonotone(e, d, k - 1, k);
      }
      if acc >= e * d {
        DoneShowsEnd(e, d, k);
      }
      scaledStart, ticks, count := acc, k, shown;
      if acc >= e * d {
        ticking := false;
      }
    }

    /** Left to run, the interval of a non-negative counter clears itself on tick StopTick showing `end`. */
    method RunToCompletion()
      requires Valid() && ticking && end >= 0
      modifies this
      ensures Valid() && !ticking && end == old(end)
      ensures ticks == StopTick(end, duration)
      ensures count == end
    {
      StopsFirstAt(end, duration);
      while ticking
        invariant Valid() && inView && end == old(end)
        invariant ticks <= StopTick(end, duration)
        invariant !ticking ==> ticks == StopTick(end, duration) && count == end
        decreases StopTick(end, duration) - ticks
      {
        Tick();
      }
    }
  }
}
