/**
 * The page shell of app/page.tsx: the section that is currently active (shared
 * with the navigation bar and the hero through its setter), the one-way loading
 * flag, and the intersection-observer handler that keeps the active section in
 * step with what is on screen.
 */
module Page {

  /** The ids of the `<section>` elements the page renders, in document order. */
  const SectionIds: seq<string> := ["home", "about", "detailed-about", "experience", "skills", "contact"]

  /** One intersection-observer entry: the observed section's id and whether it is intersecting. */
  datatype ObserverEntry = ObserverEntry(targetId: string, isIntersecting: bool)

  /**
   * The active section after a batch of entries has been handled, starting from
   * `current`: every intersecting entry sets it in turn, so the last one wins.
   */
  function ActiveAfterIntersection(entries: seq<ObserverEntry>, current: string): string
  {
    if entries == [] then current
    else if entries[|entries| - 1].isIntersecting then entries[|entries| - 1].targetId
    else ActiveAfterIntersection(entries[..|entries| - 1], current)
  }

  /** A batch with no intersecting entry leaves the active section as it was. */
  lemma {:induction false} NoIntersectionKeepsActive(entries: seq<ObserverEntry>, current: string)
    requires forall i :: 0 <= i < |entries| ==> !entries[i].isIntersecting
    ensures ActiveAfterIntersection(entries, current) == current
  {
    if entries != [] {
      NoIntersectionKeepsActive(entries[..|entries| - 1], current);
    }
  }

  /**
   * Otherwise the active section is the id of the last intersecting entry of
   * the batch, whatever came before it.
   */
  lemma {:induction false} LastIntersectingWins(entries: seq<ObserverEntry>, current: string, i: nat)
    requires i < |entries| && entries[i].isIntersecting
    requires forall j :: i < j < |entries| ==> !entries[j].isIntersecting
    ensures ActiveAfterIntersection(entries, current) == entries[i].targetId
  {
    if i < |entries| - 1 {
      var init := entries[..|entries| - 1];
      assert init[i] == entries[i];
      LastIntersectingWins(init, current, i);
    }
  }

  /** The `forEach` over the observer entries, as the loop it is. */
  method LastIntersecting(entries: seq<ObserverEntry>, current: string) returns (active: string)
    ensures active == ActiveAfterIntersection(entries, current)
  {
    active := current;
    for k := 0 to |entries|
      invariant active == ActiveAfterIntersection(entries[..k], current)
    {
      assert entries[..k + 1][..k] == entries[..k];
      if entries[k].isIntersecting {
        active := entries[k].targetId;
      }
    }
    assert entries[..|entries|] == entries;
  }

  /** What the shell shows: the loading overlay and the opacity of the main content. */
  datatype View = View(overlay: bool, mainOpacity: int)

  /** The overlay is present exactly while loading, and the content is invisible exactly then. */
  function Render(loading: bool): (v: View)
    ensures v.overlay <==> loading
    ensures v.overlay <==> v.mainOpacity == 0
    ensures 0 <= v.mainOpacity <= 1
  {
    if loading then View(true, 0) else View(false, 1)
  }

  /** The page component's own state. */
  class Index {
    var activeSection: string
    var loading: bool

    constructor ()
      ensures activeSection == "home" && loading
    {
      activeSection := "home";
      loading := true;
    }

    /** The setter handed down to the navigation bar and the hero. */
    method SetActiveSection(section: string)
      modifies this
      ensures activeSection == section
      ensures loading == old(loading)
    {
      activeSection := section;
    }

    /** The single loading timer fires: the overlay goes away for good. */
    method LoadingTimerFires()
      modifies this
      ensures !loading
      ensures activeSection == old(activeSection)
    {
      loading := false;
    }

    /** The observer callback for one batch of entries. */
    method HandleIntersection(entries: seq<ObserverEntry>)
      modifies this
      ensures activeSection == ActiveAfterIntersection(entries, old(activeSection))
      ensures loading == old(loading)
    {
      activeSection := LastIntersecting(entries, activeSection);
    }
  }
}
