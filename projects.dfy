/**
 * The projects section of components/Projects.tsx: a constant list of projects,
 * category tabs, and the filter that shows either every project ("all") or the
 * projects listed under the selected category, in their original order.
 */
module Projects {
  import opened Wrappers

  datatype Category = All | Web | Blockchain | Ai

  /** A project card; the description and image are not carried here. */
  datatype Project = Project(
    id: nat,
    title: string,
    tags: seq<string>,
    categories: seq<Category>,
    liveUrl: Option<string>,
    repoUrl: Option<string>)

  const ProjectList: seq<Project> := [
    Project(1, "DeFi Exchange Platform", ["React", "Next.js", "Solidity", "Web3.js", "Tailwind CSS"],
            [Web, Blockchain], Some("#"), Some("#")),
    Project(2, "AI-Powered Content Creator", ["React", "TypeScript", "LangChain", "Node.js", "PostgreSQL"],
            [Web, Ai], Some("#"), Some("#")),
    Project(3, "NFT Marketplace", ["React", "Ethers.js", "Solidity", "Hardhat", "IPFS"],
            [Web, Blockchain], Some("#"), Some("#")),
    Project(4, "Developer Portfolio", ["React", "Tailwind CSS", "Framer Motion", "TypeScript"],
            [Web], Some("#"), Some("#")),
    Project(5, "AI Code Assistant", ["Python", "TypeScript", "LLMs", "VS Code Extension"],
            [Ai], Some("#"), Some("#")),
    Project(6, "Blockchain Voting System", ["React", "Solidity", "Hardhat", "Web3.js", "Tailwind CSS"],
            [Web, Blockchain], Some("#"), Some("#"))
  ]

  /** A category tab: the category it selects and its caption. */
  datatype CategoryButton = CategoryButton(id: Category, caption: string)

  const CategoryButtons: seq<CategoryButton> := [
    CategoryButton(All, "All Projects"),
    CategoryButton(Web, "Web Development"),
    CategoryButton(Blockchain, "Blockchain"),
    CategoryButton(Ai, "AI Projects")
  ]

  /** The position of the tab that selects `c`: every category has a tab. */
  function TabIndex(c: Category): (i: nat)
    ensures i < |CategoryButtons| && CategoryButtons[i].id == c
  {
    match c
    case All => 0
    case Web => 1
    case Blockchain => 2
    case Ai => 3
  }

  /** The tabs select distinct categories, and the first tab is the initial one. */
  lemma TabsDistinct()
    ensures forall i, j :: 0 <= i < j < |CategoryButtons| ==> CategoryButtons[i].id != CategoryButtons[j].id
    ensures CategoryButtons[0].id == InitialCategory
  {
  }

  /** The tab selected when the section first renders. */
  const InitialCategory: Category := All

  /** `projects.filter(project => project.category.includes(c))`. */
  function FilterBy(ps: seq<Project>, c: Category): (r: seq<Project>)
    ensures |r| <= |ps|
    ensures forall i :: 0 <= i < |r| ==> c in r[i].categories
    ensures forall p :: p in r ==> p in ps
  {
    if ps == [] then []
    else
      var init := FilterBy(ps[..|ps| - 1], c);
      var last := ps[|ps| - 1];
      if c in last.categories then init + [last] else init
  }

  /** The list the section renders for the selected category. */
  function Filtered(ps: seq<Project>, active: Category): (r: seq<Project>)
    ensures active == All ==> r == ps
    ensures active != All ==> forall i :: 0 <= i < |r| ==> active in r[i].categories
  {
    if active == All then ps else FilterBy(ps, active)
  }

  /** The positions, in increasing order, of the projects listed under `c`. */
  ghost function MatchingIndices(ps: seq<Project>, c: Category): (idx: seq<nat>)
    ensures forall k :: 0 <= k < |idx| ==> idx[k] < |ps|
    ensures forall k, l :: 0 <= k < l < |idx| ==> idx[k] < idx[l]
    ensures forall i :: 0 <= i < |ps| ==> (i in idx <==> c in ps[i].categories)
  {
    if ps == [] then []
    else
      var init := MatchingIndices(ps[..|ps| - 1], c);
      if c in ps[|ps| - 1].categories then init + [|ps| - 1] else init
  }

  /**
   * The filter keeps exactly the projects listed under the category, in their
   * original order: its k-th element is the project at the k-th matching
   * position. So nothing listed under the category is dropped and nothing is
   * reordered.
   */
  lemma {:induction false} FilterIsOrderedSubsequence(ps: seq<Project>, c: Category)
    ensures |FilterBy(ps, c)| == |MatchingIndices(ps, c)|
    ensures forall k :: 0 <= k < |FilterBy(ps, c)| ==> FilterBy(ps, c)[k] == ps[MatchingIndices(ps, c)[k]]
  {
    if ps != [] {
      var init := ps[..|ps| - 1];
      FilterIsOrderedSubsequence(init, c);
      assert forall i :: 0 <= i < |init| ==> init[i] == ps[i];
    }
  }

  /** A list whose projects are all listed under `c` passes the filter unchanged. */
  lemma {:induction false} FilterKeepsAllMatching(ps: seq<Project>, c: Category)
    requires forall i :: 0 <= i < |ps| ==> c in ps[i].categories
    ensures FilterBy(ps, c) == ps
  {
    if ps != [] {
      FilterKeepsAllMatching(ps[..|ps| - 1], c);
      assert ps[..|ps| - 1] + [ps[|ps| - 1]] == ps;
    }
  }

  /** Filtering an already filtered list by the same category changes nothing. */
  lemma FilterIdempotent(ps: seq<Project>, c: Category)
    ensures FilterBy(FilterBy(ps, c), c) == FilterBy(ps, c)
    ensures Filtered(Filtered(ps, c), c) == Filtered(ps, c)
  {
    FilterKeepsAllMatching(FilterBy(ps, c), c);
  }

  /** A list in which no project is listed under `c` filters to nothing. */
  lemma {:induction false} FilterDropsAllUnmatched(ps: seq<Project>, c: Category)
    requires forall i :: 0 <= i < |ps| ==> c !in ps[i].categories
    ensures FilterBy(ps, c) == []
  {
    if ps != [] {
      FilterDropsAllUnmatched(ps[..|ps| - 1], c);
    }
  }

  /**
   * No project is listed under "all", so the special case for it is what makes
   * the initial tab show the whole list: a plain filter would show nothing.
   */
  lemma InitialTabShowsEverything()
    ensures Filtered(ProjectList, InitialCategory) == ProjectList
    ensures FilterBy(ProjectList, All) == []
  {
    FilterDropsAllUnmatched(ProjectList, All);
  }

  /** Project ids are distinct, so the cards' keys are unique. */
  lemma ProjectIdsDistinct()
    ensures forall i, j :: 0 <= i < j < |ProjectList| ==> ProjectList[i].id != ProjectList[j].id
  {
  }

  /** A link renders when it is present and truthy, that is, not the empty string. */
  predicate Truthy(url: Option<string>)
  {
    url.Some? && url.value != ""
  }

  /** The link buttons rendered on a project card, in order. */
  function LinkButtons(p: Project): (r: seq<string>)
    ensures "Live Demo" in r <==> Truthy(p.liveUrl)
    ensures "View Code" in r <==> Truthy(p.repoUrl)
    ensures |r| <= 2
  {
    (if Truthy(p.liveUrl) then ["Live Demo"] else []) + (if Truthy(p.repoUrl) then ["View Code"] else [])
  }

  /** Every project of the list shows both link buttons. */
  lemma EveryProjectShowsBothLinks()
    ensures forall i :: 0 <= i < |ProjectList| ==> LinkButtons(ProjectList[i]) == ["Live Demo", "View Code"]
  {
  }
}
