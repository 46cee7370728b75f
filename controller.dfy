/**
 * The module-level page state of the lister (script.js:14-17) and the
 * handlers that change it: `fetchRepos` (script.js:32-45), `changePage`
 * (script.js:19-30), the page-number clicks (script.js:182-185, 202-205,
 * 222-225) and the two response handlers (script.js:50-63, 75-87).
 */
module Controller {
  import opened Wrappers
  import opened Text
  import opened Responses
  import opened Pagination
  import opened RepoView

  /**
   * The pair of requests a search starts: the profile of `username` and its
   * repositories' page `page`, `ReposPerPage` to a page.
   */
  datatype FetchRequest = FetchRequest(username: string, page: nat)

  class PaginationController {
    var currentPage: nat
    var totalPages: nat
    var currentUsername: string

    /**
     * The stored name is always the trimmed contents of the box, so a box
     * still holding exactly that name keeps the page where it is.
     */
    ghost predicate Valid()
      reads this
    {
      IsTrimmed(currentUsername)
    }

    constructor ()
      ensures Valid()
      ensures currentPage == 1 && totalPages == 0 && currentUsername == ""
    {
      currentPage := 1;
      totalPages := 0;
      currentUsername := "";
    }

    /**
     * The state part of `fetchRepos`: an input that trims to nothing changes
     * nothing and starts no request; otherwise the page goes back to 1 exactly
     * when the name differs from the last one, the name is stored, and the
     * requests for that name and page start.
     */
    method Search(input: string) returns (request: Option<FetchRequest>)
      requires Valid()
      modifies this`currentPage, this`currentUsername
      ensures Valid() && totalPages == old(totalPages)
      ensures Trim(input) == [] ==>
                request == None && currentPage == old(currentPage) && currentUsername == old(currentUsername)
      ensures Trim(input) != [] ==>
                && currentUsername == Trim(input)
                && (Trim(input) != old(currentUsername) ==> currentPage == 1)
                && (Trim(input) == old(currentUsername) ==> currentPage == old(currentPage))
                && request == Some(FetchRequest(Trim(input), currentPage))
      ensures input == old(currentUsername) ==> currentPage == old(currentPage)
    {
      TrimOfTrimmed(currentUsername);
      var username := Trim(input);
      if username == [] {
        return None;
      }
      if username != currentUsername {
        currentPage := 1;
      }
      currentUsername := username;
      request := Some(FetchRequest(username, currentPage));
    }

    /**
     * `changePage`: the page moves by `delta` and is clamped to the page
     * count (to 0 when there are no pages), even when the box is empty; then
     * the box is searched again, so a new name there sends the page back to 1.
     */
    method ChangePage(delta: int, input: string) returns (request: Option<FetchRequest>)
      requires Valid()
      modifies this`currentPage, this`currentUsername
      ensures Valid() && totalPages == old(totalPages)
      ensures var renamed := Trim(input) != [] && Trim(input) != old(currentUsername);
              currentPage == if renamed then 1 else ClampPage(old(currentPage) + delta, totalPages)
      ensures totalPages >= 1 ==> 1 <= currentPage <= totalPages
      ensures totalPages == 0 && (Trim(input) == [] || Trim(input) == old(currentUsername)) ==> currentPage == 0
      ensures currentUsername == if Trim(input) == [] then old(currentUsername) else Trim(input)
      ensures request == if Trim(input) == [] then None else Some(FetchRequest(Trim(input), currentPage))
      ensures input == old(currentUsername) ==> currentPage == ClampPage(old(currentPage) + delta, totalPages)
    {
      TrimOfTrimmed(currentUsername);
      var page := currentPage + delta;
      if page < 1 {
        page := 1;
      }
      if page > totalPages {
        page := totalPages;
      }
      currentPage := page;
      request := Search(input);
    }

    /**
     * A click on a page number (the first-page shortcut, a window number or
     * the last-page shortcut): the page is set, then the box is searched
     * again, so a new name there still sends the page back to 1.
     */
    method JumpTo(page: nat, input: string) returns (request: Option<FetchRequest>)
      requires Valid()
      modifies this`currentPage, this`currentUsername
      ensures Valid() && totalPages == old(totalPages)
      ensures var renamed := Trim(input) != [] && Trim(input) != old(currentUsername);
              currentPage == if renamed then 1 else page
      ensures currentUsername == if Trim(input) == [] then old(currentUsername) else Trim(input)
      ensures request == if Trim(input) == [] then None else Some(FetchRequest(Trim(input), currentPage))
      ensures input == old(currentUsername) ==> currentPage == page
    {
      TrimOfTrimmed(currentUsername);
      currentPage := page;
      request := Search(input);
    }

    /** The profile arrived: the page count becomes `ceil(publicRepos / 10)`. */
    method OnProfileLoaded(publicRepos: nat)
      modifies this`totalPages
      ensures totalPages == TotalPages(publicRepos)
      ensures totalPages * ReposPerPage >= publicRepos && totalPages * ReposPerPage < publicRepos + ReposPerPage
    {
      totalPages := TotalPages(publicRepos);
    }

    /** The profile response: only one that passes the checks updates the page count. */
    method OnProfileResponse(header: RateHeader, ok: bool, publicRepos: nat) returns (verdict: Verdict)
      modifies this`totalPages
      ensures verdict == Classify(ProfileRequest, header, ok)
      ensures totalPages == if verdict == Proceed then TotalPages(publicRepos) else old(totalPages)
    {
      verdict := Classify(ProfileRequest, header, ok);
      if verdict == Proceed {
        OnProfileLoaded(publicRepos);
      }
    }

    /** The repositories response: one that passes the checks is rendered with the current page state. */
    method OnReposResponse(header: RateHeader, ok: bool, repos: seq<Repo>) returns (verdict: Verdict, view: Option<ReposView>)
      ensures verdict == Classify(ReposRequest, header, ok)
      ensures view == if verdict == Proceed then Some(RenderRepos(repos, currentPage, totalPages)) else None
    {
      verdict := Classify(ReposRequest, header, ok);
      if verdict == Proceed {
        var rendered := DisplayRepositories(repos, currentPage, totalPages);
        view := Some(rendered);
      } else {
        view := None;
      }
    }
  }
}
