/**
 * The view model of `displayRepositories` (script.js:121-153) and
 * `updatePagination` (script.js:155-164), and the display name of
 * `displayUserProfile` (script.js:106, 108).
 */
module RepoView {
  import opened Wrappers
  import opened Pagination

  /** The fields of a repository the page uses; `null` fields are `None`. */
  datatype Repo = Repo(name: string, htmlUrl: string, description: Option<string>, topics: Option<seq<string>>)

  /** One repository card: its link, heading, description line and one tag per topic. */
  datatype Card = Card(name: string, htmlUrl: string, description: string, tags: seq<string>)

  /** The list area: the "No repositories found." placeholder, or the cards. */
  datatype RepoList = Placeholder | Cards(cards: seq<Card>)

  /** Prev/Next state, the "Page c of t" label and the page-number strip. */
  datatype PaginationView = PaginationView(prevDisabled: bool, nextDisabled: bool, currentPage: int, totalPages: nat, strip: seq<PageItem>)

  /** What a repository response renders; no pagination means the controls were left as they were. */
  datatype ReposView = ReposView(list: RepoList, pagination: Option<PaginationView>)

  const NoDescription: string := "No description available"
  const DescriptionLimit: nat := 150
  const TruncationMark: string := "..."

  /** `s.substring(0, n)` for `n >= 0`: the end is cut to the length. */
  function Prefix(s: string, n: nat): string {
    if |s| <= n then s else s[..n]
  }

  /**
   * The description line of a card: the placeholder for a missing or empty
   * description, the description itself up to 150 characters, otherwise
   * its first 150 characters and "...".
   */
  function DescriptionText(description: Option<string>): (text: string)
    ensures description == None || description == Some("") ==> text == NoDescription
    ensures description.Some? && 0 < |description.value| <= DescriptionLimit ==> text == description.value
    ensures description.Some? && |description.value| > DescriptionLimit ==>
              text == description.value[..DescriptionLimit] + TruncationMark
    ensures |text| <= DescriptionLimit + |TruncationMark|
  {
    match description
    case None => NoDescription
    case Some(d) =>
      if d == "" then NoDescription
      else Prefix(d, DescriptionLimit) + (if |d| > DescriptionLimit then TruncationMark else "")
  }

  /** The tags of a card: one per topic, none when `topics` is missing or empty. */
  function TopicTags(topics: Option<seq<string>>): seq<string> {
    match topics
    case None => []
    case Some(ts) => ts
  }

  function CardFor(repo: Repo): Card {
    Card(repo.name, repo.htmlUrl, DescriptionText(repo.description), TopicTags(repo.topics))
  }

  /** `updatePagination` and `renderPageNumbers` for the given page state. */
  function PaginationFor(currentPage: int, totalPages: nat): PaginationView {
    PaginationView(PrevDisabled(currentPage), NextDisabled(currentPage, totalPages), currentPage, totalPages,
                   PageStrip(currentPage, totalPages))
  }

  /**
   * What `displayRepositories` renders: an empty list gives the placeholder
   * and returns before the controls are updated; otherwise one card per
   * repository, in order, then the controls.
   */
  function RenderRepos(repos: seq<Repo>, currentPage: int, totalPages: nat): (view: ReposView)
    ensures |repos| == 0 <==> view.list == Placeholder
    ensures |repos| == 0 <==> view.pagination == None
    ensures view.list.Cards? ==>
              |view.list.cards| == |repos| && forall i :: 0 <= i < |repos| ==> view.list.cards[i] == CardFor(repos[i])
    ensures view.pagination.Some? ==> view.pagination.value == PaginationFor(currentPage, totalPages)
  {
    if |repos| == 0 then ReposView(Placeholder, None)
    else ReposView(Cards(seq(|repos|, i requires 0 <= i < |repos| => CardFor(repos[i]))),
                   Some(PaginationFor(currentPage, totalPages)))
  }

  /** Each card shows one tag per topic, in the topics' order. */
  lemma CardTags(repos: seq<Repo>, currentPage: int, totalPages: nat, i: int)
    requires 0 <= i < |repos| && repos[i].topics.Some?
    ensures RenderRepos(repos, currentPage, totalPages).list.cards[i].tags == repos[i].topics.value
  {
  }

  /** `displayRepositories`, appending the cards one repository at a time. */
  method DisplayRepositories(repos: seq<Repo>, currentPage: int, totalPages: nat) returns (view: ReposView)
    ensures view == RenderRepos(repos, currentPage, totalPages)
  {
    if |repos| == 0 {
      return ReposView(Placeholder, None);
    }
    var cards: seq<Card> := [];
    for k := 0 to |repos|
      invariant |cards| == k
      invariant forall i :: 0 <= i < k ==> cards[i] == CardFor(repos[i])
    {
      cards := cards + [CardFor(repos[k])];
    }
    var strip := RenderPageNumbers(currentPage, totalPages);
    var controls := PaginationView(PrevDisabled(currentPage), NextDisabled(currentPage, totalPages),
                                   currentPage, totalPages, strip);
    assert cards == seq(|repos|, i requires 0 <= i < |repos| => CardFor(repos[i]));
    view := ReposView(Cards(cards), Some(controls));
  }

  /** `user.name || user.login`: the name unless it is missing or empty. */
  function DisplayName(name: Option<string>, login: string): (shown: string)
    ensures name.Some? && name.value != "" ==> shown == name.value
    ensures name == None || name == Some("") ==> shown == login
  {
    match name
    case Some(n) => if n != "" then n else login
    case None => login
  }
}
