/** The top-level page switcher: which page is shown, who is signed in,
  * which grant an application is being written for, and the catalog's
  * search state that survives leaving the catalog. */
module App {
  import opened Basics

  datatype Page = Catalog | Application | Dashboard | Login | Register

  /** The placeholder name every e-mail/password sign-in produces. */
  const StubUserName: string := "Иван Петров"

  /** JavaScript truthiness of an optional string argument. */
  predicate Truthy(s: Option<string>) {
    s.Some? && s.value != ""
  }

  /** What the submit handler reports about an application (it goes to the console). */
  datatype Submission = Submission(grantId: Option<string>, grantTitle: string, applicationText: string)

  class App {
    var currentPage: Page
    var isLoggedIn: bool
    var userName: string
    var selectedGrantId: Option<string>
    var selectedGrantTitle: string
    var searchQuery: string
    var selectedCategory: string

    /** Signed-out users have no name, and the pages that need a user
      * (the dashboard, the application form) are only shown to one; the
      * application form always knows which grant it is for. */
    ghost predicate Valid()
      reads this
    {
      && (!isLoggedIn ==> userName == "")
      && (currentPage == Dashboard ==> isLoggedIn)
      && (currentPage == Application ==> isLoggedIn && selectedGrantId.Some?)
    }

    constructor ()
      ensures Valid()
      ensures currentPage == Catalog && !isLoggedIn && userName == ""
      ensures selectedGrantId == None && selectedGrantTitle == ""
      ensures searchQuery == "" && selectedCategory == "all"
    {
      currentPage := Catalog;
      isLoggedIn := false;
      userName := "";
      selectedGrantId := None;
      selectedGrantTitle := "";
      searchQuery := "";
      selectedCategory := "all";
    }

    /** Sign in when both credentials are given; called without them it
      * only opens the sign-in page. */
    method HandleLogin(email: Option<string>, password: Option<string>)
      requires Valid()
      modifies this
      ensures Valid()
      ensures Truthy(email) && Truthy(password) ==>
        isLoggedIn && userName == StubUserName && currentPage == Catalog
      ensures !(Truthy(email) && Truthy(password)) ==>
        isLoggedIn == old(isLoggedIn) && userName == old(userName) && currentPage == Login
      ensures selectedGrantId == old(selectedGrantId) && selectedGrantTitle == old(selectedGrantTitle)
      ensures searchQuery == old(searchQuery) && selectedCategory == old(selectedCategory)
    {
      if Truthy(email) && Truthy(password) {
        userName := StubUserName;
        isLoggedIn := true;
        currentPage := Catalog;
      } else {
        currentPage := Login;
      }
    }

    /** Registration signs the new user in under the name they gave. */
    method HandleRegister(email: string, password: string, fullName: string)
      requires Valid()
      modifies this
      ensures Valid()
      ensures isLoggedIn && userName == fullName && currentPage == Catalog
      ensures selectedGrantId == old(selectedGrantId) && selectedGrantTitle == old(selectedGrantTitle)
      ensures searchQuery == old(searchQuery) && selectedCategory == old(selectedCategory)
    {
      userName := fullName;
      isLoggedIn := true;
      currentPage := Catalog;
    }

    /** Signing out forgets the name and returns to the catalog; the
      * selected grant is left as it was. */
    method HandleLogout()
      requires Valid()
      modifies this
      ensures Valid()
      ensures !isLoggedIn && userName == "" && currentPage == Catalog
      ensures selectedGrantId == old(selectedGrantId) && selectedGrantTitle == old(selectedGrantTitle)
      ensures searchQuery == old(searchQuery) && selectedCategory == old(selectedCategory)
    {
      isLoggedIn := false;
      userName := "";
      currentPage := Catalog;
    }

    method HandleSwitchToLogin()
      requires Valid()
      modifies this
      ensures Valid()
      ensures currentPage == Login
      ensures isLoggedIn == old(isLoggedIn) && userName == old(userName)
      ensures selectedGrantId == old(selectedGrantId) && selectedGrantTitle == old(selectedGrantTitle)
      ensures searchQuery == old(searchQuery) && selectedCategory == old(selectedCategory)
    {
      currentPage := Login;
    }

    method HandleSwitchToRegister()
      requires Valid()
      modifies this
      ensures Valid()
      ensures currentPage == Register
      ensures isLoggedIn == old(isLoggedIn) && userName == old(userName)
      ensures selectedGrantId == old(selectedGrantId) && selectedGrantTitle == old(selectedGrantTitle)
      ensures searchQuery == old(searchQuery) && selectedCategory == old(selectedCategory)
    {
      currentPage := Register;
    }

    method HandleNavigateHome()
      requires Valid()
      modifies this
      ensures Valid()
      ensures currentPage == Catalog
      ensures isLoggedIn == old(isLoggedIn) && userName == old(userName)
      ensures selectedGrantId == old(selectedGrantId) && selectedGrantTitle == old(selectedGrantTitle)
      ensures searchQuery == old(searchQuery) && selectedCategory == old(selectedCategory)
    {
      currentPage := Catalog;
    }

    /** The profile link opens the dashboard for a signed-in user and the
      * sign-in page for anyone else. */
    method HandleNavigateToProfile()
      requires Valid()
      modifies this
      ensures Valid()
      ensures currentPage == (if isLoggedIn then Dashboard else Login)
      ensures isLoggedIn == old(isLoggedIn) && userName == old(userName)
      ensures selectedGrantId == old(selectedGrantId) && selectedGrantTitle == old(selectedGrantTitle)
      ensures searchQuery == old(searchQuery) && selectedCategory == old(selectedCategory)
    {
      if isLoggedIn {
        currentPage := Dashboard;
      } else {
        currentPage := Login;
      }
    }

    /** Applying opens the application page for the chosen grant, but only
      * for a signed-in user; anyone else is sent to the sign-in page and
      * nothing is selected. */
    method HandleApplyToGrant(grantId: string, grantTitle: string)
      requires Valid()
      modifies this
      ensures Valid()
      ensures old(isLoggedIn) ==>
        currentPage == Application && selectedGrantId == Some(grantId) && selectedGrantTitle == grantTitle
      ensures !old(isLoggedIn) ==>
        currentPage == Login && selectedGrantId == old(selectedGrantId) && selectedGrantTitle == old(selectedGrantTitle)
      ensures isLoggedIn == old(isLoggedIn) && userName == old(userName)
      ensures searchQuery == old(searchQuery) && selectedCategory == old(selectedCategory)
    {
      if !isLoggedIn {
        HandleLogin(None, None);
        return;
      }
      selectedGrantId := Some(grantId);
      selectedGrantTitle := grantTitle;
      currentPage := Application;
    }

    /** Leaving the application page clears the selected grant. */
    method HandleBackFromApplication()
      requires Valid() && currentPage == Application
      modifies this
      ensures Valid()
      ensures currentPage == Catalog && selectedGrantId == None && selectedGrantTitle == ""
      ensures isLoggedIn == old(isLoggedIn) && userName == old(userName)
      ensures searchQuery == old(searchQuery) && selectedCategory == old(selectedCategory)
    {
      currentPage := Catalog;
      selectedGrantId := None;
      selectedGrantTitle := "";
    }

    /** Submitting reports the text together with the selected grant and
      * moves to the dashboard; the selection itself is kept. */
    method HandleSubmitApplication(applicationText: string) returns (sent: Submission)
      requires Valid() && currentPage == Application
      modifies this
      ensures Valid()
      ensures sent == Submission(old(selectedGrantId), old(selectedGrantTitle), applicationText)
      ensures sent.grantId.Some?
      ensures currentPage == Dashboard
      ensures isLoggedIn == old(isLoggedIn) && userName == old(userName)
      ensures selectedGrantId == old(selectedGrantId) && selectedGrantTitle == old(selectedGrantTitle)
      ensures searchQuery == old(searchQuery) && selectedCategory == old(selectedCategory)
    {
      sent := Submission(selectedGrantId, selectedGrantTitle, applicationText);
      currentPage := Dashboard;
    }

    /** "New application" on the dashboard goes back to the catalog. */
    method HandleCreateNewApplication()
      requires Valid()
      modifies this
      ensures Valid()
      ensures currentPage == Catalog
      ensures isLoggedIn == old(isLoggedIn) && userName == old(userName)
      ensures selectedGrantId == old(selectedGrantId) && selectedGrantTitle == old(selectedGrantTitle)
      ensures searchQuery == old(searchQuery) && selectedCategory == old(selectedCategory)
    {
      currentPage := Catalog;
    }

    /** The catalog's search box writes straight into the page state. */
    method SetSearchQuery(query: string)
      requires Valid()
      modifies this
      ensures Valid()
      ensures searchQuery == query && selectedCategory == old(selectedCategory)
      ensures currentPage == old(currentPage) && isLoggedIn == old(isLoggedIn) && userName == old(userName)
      ensures selectedGrantId == old(selectedGrantId) && selectedGrantTitle == old(selectedGrantTitle)
    {
      searchQuery := query;
    }

    /** The catalog's category selector writes straight into the page state. */
    method SetSelectedCategory(category: string)
      requires Valid()
      modifies this
      ensures Valid()
      ensures selectedCategory == category && searchQuery == old(searchQuery)
      ensures currentPage == old(currentPage) && isLoggedIn == old(isLoggedIn) && userName == old(userName)
      ensures selectedGrantId == old(selectedGrantId) && selectedGrantTitle == old(selectedGrantTitle)
    {
      selectedCategory := category;
    }

    /** The header and footer frame every page except the two sign-in forms. */
    function ShowHeaderAndFooter(): (shown: bool)
      reads this
      ensures shown <==> currentPage in {Catalog, Application, Dashboard}
    {
      currentPage != Login && currentPage != Register
    }
  }
}
