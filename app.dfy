/**
 * The root component: the session state (current view, login/register
 * choice, selected subject, dark mode, bookmarked ids), the handlers that
 * change it, the preferences it loads at start and writes on every change,
 * and the authentication gate followed by the dispatch on the current view.
 */
module App {
  import opened Subjects
  import opened Preferences
  import opened Bookmarks
  import SubjectDashboard
  import Dashboard

  datatype View =
    | DashboardView | ChatView | QuizView | ProfileView | SubjectsView
    | AnalyticsView | AdminView | CatalogView | DailyQuizzesView | ForumsView

  datatype AuthView = Login | Register

  /** The signed-in user as far as the root component looks at it. */
  datatype User = User(email: string)

  /** `user?.email === 'admin@example.com'` */
  function IsAdmin(user: Option<User>): (admin: bool)
    ensures admin <==> user.Some? && user.value.email == "admin@example.com"
    ensures user.None? ==> !admin
  {
    match user
    case None => false
    case Some(u) => u.email == "admin@example.com"
  }

  // ---------------------------------------------------------------------
  // Opening a learning-path subject
  // ---------------------------------------------------------------------

  /** `topics.filter(t => t.isCompleted).length` */
  function CountCompleted(topics: seq<Topic>): (n: nat)
    ensures n == multiset(topics)[Topic(true)]
    ensures n <= |topics|
    ensures n == |topics| <==> forall i :: 0 <= i < |topics| ==> topics[i].isCompleted
    ensures n == 0 <==> forall i :: 0 <= i < |topics| ==> !topics[i].isCompleted
  {
    if topics == [] then 0
    else
      var rest := CountCompleted(topics[1..]);
      assert forall i :: 1 <= i < |topics| ==> topics[i] == topics[1..][i - 1];
      assert topics == [topics[0]] + topics[1..];
      assert multiset(topics) == multiset{topics[0]} + multiset(topics[1..]);
      (if topics[0].isCompleted then 1 else 0) + rest
  }

  /** The `Subject` that `handleSelectCoreSubject` builds from a learning-path subject. */
  function ToSubject(core: CoreSubject): (s: Subject)
    ensures s.id == core.id && s.name == core.name && s.description == core.description
    ensures s.color == core.color && s.difficulty == core.difficulty && s.icon == "BookOpen"
    ensures s.totalTopics == |core.topics|
    ensures s.completedTopics == CountCompleted(core.topics) == multiset(core.topics)[Topic(true)]
    ensures 0 <= s.completedTopics <= s.totalTopics
    ensures s.completedTopics == s.totalTopics <==> forall i :: 0 <= i < |core.topics| ==> core.topics[i].isCompleted
  {
    Subject(core.id, core.name, "BookOpen", core.description, core.color,
            |core.topics|, CountCompleted(core.topics), core.difficulty)
  }

  // ---------------------------------------------------------------------
  // What is rendered
  // ---------------------------------------------------------------------

  /** The page below the navigation bar, with the state it is given. */
  datatype Page =
    | ProfilePage
    | SubjectsPage
    | AnalyticsPage
    | ChatPage(chatSubject: Option<Subject>)
    | QuizPage(quizSubject: Option<Subject>)
    | DashboardPage(bookmarks: seq<string>)

  datatype Screen =
    | LoginScreen(loginDark: bool)
    | RegisterScreen(registerDark: bool)
    | Shell(navView: View, dark: bool, page: Page)

  /** The views the `switch` has no case for, handled by its `default`. */
  predicate FallsBackToDashboard(view: View) {
    view.DashboardView? || view.AdminView? || view.CatalogView? || view.DailyQuizzesView? || view.ForumsView?
  }

  /** The `switch (currentView)` of the signed-in branch. */
  function PageFor(view: View, selected: Option<Subject>, bookmarks: seq<string>): (p: Page)
    ensures p.DashboardPage? <==> FallsBackToDashboard(view)
    ensures p.DashboardPage? ==> p.bookmarks == bookmarks
    ensures p.ChatPage? <==> view == ChatView
    ensures p.QuizPage? <==> view == QuizView
    ensures p == ProfilePage <==> view == ProfileView
    ensures p == SubjectsPage <==> view == SubjectsView
    ensures p == AnalyticsPage <==> view == AnalyticsView
    ensures (p.ChatPage? || p.QuizPage?) ==> p == (if view == ChatView then ChatPage(selected) else QuizPage(selected))
  {
    match view
    case ProfileView => ProfilePage
    case SubjectsView => SubjectsPage
    case AnalyticsView => AnalyticsPage
    case ChatView => ChatPage(selected)
    case QuizView => QuizPage(selected)
    case _ => DashboardPage(bookmarks)
  }

  /** The authentication gate, then the dispatch on the current view. */
  function Render(isAuthenticated: bool, authView: AuthView, view: View, selected: Option<Subject>,
                  darkMode: bool, bookmarks: seq<string>): (screen: Screen)
    ensures !isAuthenticated && authView == Register ==> screen == RegisterScreen(darkMode)
    ensures !isAuthenticated && authView == Login ==> screen == LoginScreen(darkMode)
    ensures isAuthenticated ==> screen.Shell? && screen.navView == view && screen.dark == darkMode
    ensures isAuthenticated ==> screen.page == PageFor(view, selected, bookmarks)
  {
    if !isAuthenticated then
      if authView == Register then RegisterScreen(darkMode) else LoginScreen(darkMode)
    else
      Shell(view, darkMode, PageFor(view, selected, bookmarks))
  }

  /** Signed out, the view and the selection make no difference. */
  lemma AuthGateFirst(authView: AuthView, v1: View, v2: View, s1: Option<Subject>, s2: Option<Subject>,
                      darkMode: bool, b1: seq<string>, b2: seq<string>)
    ensures Render(false, authView, v1, s1, darkMode, b1) == Render(false, authView, v2, s2, darkMode, b2)
    ensures !Render(false, authView, v1, s1, darkMode, b1).Shell?
  {
  }

  /**
   * Signed in, the views without a case of their own show the same page as
   * the dashboard view; only the navigation bar still names the view.
   */
  lemma FallbackShowsDashboard(view: View, selected: Option<Subject>, darkMode: bool, bookmarks: seq<string>)
    requires FallsBackToDashboard(view)
    ensures Render(true, Login, view, selected, darkMode, bookmarks).page ==
            Render(true, Register, DashboardView, None, darkMode, bookmarks).page
    ensures Render(true, Login, view, selected, darkMode, bookmarks).navView == view
  {
  }

  // ---------------------------------------------------------------------
  // Dark mode, toggled repeatedly
  // ---------------------------------------------------------------------

  /** The flag after `n` calls of `toggleDarkMode` from `initial`. */
  function DarkModeAfter(initial: bool, n: nat): bool {
    if n == 0 then initial else !DarkModeAfter(initial, n - 1)
  }

  /** After `n` toggles from light mode the flag is on exactly when `n` is odd. */
  lemma {:induction false} DarkModeParity(n: nat)
    ensures DarkModeAfter(false, n) == (n % 2 == 1)
  {
    if n > 0 {
      DarkModeParity(n - 1);
    }
  }

  // ---------------------------------------------------------------------
  // The session state
  // ---------------------------------------------------------------------

  class AppContent {
    var currentView: View
    var authView: AuthView
    var selectedSubject: Option<Subject>
    var selectedCoreSubject: Option<CoreSubject>
    var darkMode: bool
    var bookmarkedSubjects: seq<string>
    const store: PreferenceStore

    /** The store holds the session's own dark-mode flag and bookmark list. */
    ghost predicate Persisted()
      reads this, store
    {
      store.darkMode == Json(darkMode) && store.bookmarkedSubjects == Json(bookmarkedSubjects)
    }

    /**
     * Mounting: the dashboard, the login form, nothing selected; the two
     * preferences are read from the store (`false` and `[]` when absent),
     * and the persistence effects then write them back.
     */
    constructor (store: PreferenceStore)
      modifies store
      ensures this.store == store
      ensures currentView == DashboardView && authView == Login
      ensures selectedSubject == None && selectedCoreSubject == None
      ensures darkMode == LoadOr(old(store.darkMode), false)
      ensures bookmarkedSubjects == LoadOr(old(store.bookmarkedSubjects), [])
      ensures Persisted()
    {
      this.store := store;
      currentView := DashboardView;
      authView := Login;
      selectedSubject := None;
      selectedCoreSubject := None;
      var dark := LoadOr(store.darkMode, false);
      var saved := LoadOr(store.bookmarkedSubjects, []);
      darkMode := dark;
      bookmarkedSubjects := saved;
      new;
      store.darkMode := Json(dark);
      store.bookmarkedSubjects := Json(saved);
    }

    /** What the component renders for the given authentication status. */
    function Screen(isAuthenticated: bool): Screen
      reads this
    {
      Render(isAuthenticated, authView, currentView, selectedSubject, darkMode, bookmarkedSubjects)
    }

    method HandleSelectSubject(subject: Subject)
      modifies this`selectedSubject, this`currentView
      ensures selectedSubject == Some(subject) && currentView == ChatView
      ensures Screen(true).page == ChatPage(Some(subject))
    {
      selectedSubject := Some(subject);
      currentView := ChatView;
    }

    /** Opens a learning-path subject in the chat, converted to a `Subject`. */
    method HandleSelectCoreSubject(core: CoreSubject)
      modifies this`selectedCoreSubject, this`selectedSubject, this`currentView
      ensures selectedCoreSubject == Some(core)
      ensures selectedSubject == Some(ToSubject(core)) && currentView == ChatView
    {
      selectedCoreSubject := Some(core);
      selectedSubject := Some(ToSubject(core));
      currentView := ChatView;
    }

    method HandleStartChat()
      modifies this`selectedSubject, this`currentView
      ensures selectedSubject == None && currentView == ChatView
      ensures Screen(true).page == ChatPage(None)
    {
      selectedSubject := None;
      currentView := ChatView;
    }

    method HandleStartQuiz()
      modifies this`selectedSubject, this`currentView
      ensures selectedSubject == None && currentView == QuizView
      ensures Screen(true).page == QuizPage(None)
    {
      selectedSubject := None;
      currentView := QuizView;
    }

    /** Back to the dashboard: both selections cleared, preferences untouched. */
    method HandleBackToDashboard()
      modifies this`currentView, this`selectedSubject, this`selectedCoreSubject
      ensures currentView == DashboardView && selectedSubject == None && selectedCoreSubject == None
      ensures darkMode == old(darkMode) && bookmarkedSubjects == old(bookmarkedSubjects)
      ensures Screen(true).page == DashboardPage(bookmarkedSubjects)
    {
      currentView := DashboardView;
      selectedSubject := None;
      selectedCoreSubject := None;
    }

    /**
     * The navigation bar sets the view as given. The bar is rendered only
     * when someone is signed in; the handler itself does not check that.
     */
    method HandleNavigation(view: View)
      modifies this`currentView
      ensures currentView == view
    {
      currentView := view;
    }

    method SwitchToRegister()
      modifies this`authView
      ensures authView == Register
      ensures Screen(false) == RegisterScreen(darkMode)
    {
      authView := Register;
    }

    method SwitchToLogin()
      modifies this`authView
      ensures authView == Login
      ensures Screen(false) == LoginScreen(darkMode)
    {
      authView := Login;
    }

    /** Flips the flag; the persistence effect writes the new value. */
    method ToggleDarkMode()
      modifies this`darkMode, store`darkMode
      ensures darkMode == !old(darkMode)
      ensures store.darkMode == Json(darkMode)
      ensures old(Persisted()) ==> Persisted()
    {
      darkMode := !darkMode;
      store.darkMode := Json(darkMode);
    }

    /** Toggles the id in the list; the persistence effect writes the new list. */
    method ToggleBookmark(subjectId: string)
      modifies this`bookmarkedSubjects, store`bookmarkedSubjects
      ensures bookmarkedSubjects == Toggle(old(bookmarkedSubjects), subjectId)
      ensures store.bookmarkedSubjects == Json(bookmarkedSubjects)
      ensures old(Persisted()) ==> Persisted()
    {
      bookmarkedSubjects := Toggle(bookmarkedSubjects, subjectId);
      store.bookmarkedSubjects := Json(bookmarkedSubjects);
    }

    /**
     * The dashboard's bookmark button forwards the clicked subject's id to
     * `toggleBookmark`. The button is drawn only on the cards of the listed,
     * hence bookmarked, catalog subjects, so a click always removes the id.
     */
    method HandleDashboardBookmarkClick(subject: Subject)
      requires subject in Dashboard.BookmarkedSubjectsList(Catalog, bookmarkedSubjects)
      modifies this`bookmarkedSubjects, store`bookmarkedSubjects
      ensures bookmarkedSubjects == Toggle(old(bookmarkedSubjects), subject.id)
      ensures subject.id !in bookmarkedSubjects && subject.id in old(bookmarkedSubjects)
      ensures store.bookmarkedSubjects == Json(bookmarkedSubjects)
    {
      ToggleBookmark(subject.id);
    }

    /**
     * The catalog page's bookmark button as it evidently should work: handed
     * the session's `toggleBookmark`, as the dashboard is, instead of keeping
     * a list of its own. The session's list and the store stay in step.
     */
    method HandleSubjectsBookmarkClick(subjectId: string)
      modifies this`bookmarkedSubjects, store`bookmarkedSubjects
      ensures bookmarkedSubjects == Toggle(old(bookmarkedSubjects), subjectId)
      ensures subjectId in bookmarkedSubjects <==> subjectId !in old(bookmarkedSubjects)
      ensures old(Persisted()) ==> Persisted()
    {
      ToggleBookmark(subjectId);
    }
  }

  /**
   * A first session: toggle dark mode, bookmark `math`; the store then holds
   * `true` and `["math"]` and the view is still the dashboard.
   */
  method FirstSession() returns (dark: Saved<bool>, bookmarks: Saved<seq<string>>, view: View)
    ensures dark == Json(true) && bookmarks == Json(["math"]) && view == DashboardView
  {
    var store := new PreferenceStore(Missing, Missing);
    var app := new AppContent(store);
    app.ToggleDarkMode();
    app.ToggleBookmark("math");
    assert app.bookmarkedSubjects == [] + ["math"] == ["math"];
    dark, bookmarks, view := store.darkMode, store.bookmarkedSubjects, app.currentView;
  }

  /**
   * A session that toggles dark mode `n` times, starting from a store that
   * holds no flag: the stored flag is on exactly when `n` is odd.
   */
  method ToggleDarkModeRepeatedly(n: nat) returns (stored: Saved<bool>)
    ensures stored == Json(n % 2 == 1)
  {
    var store := new PreferenceStore(Missing, Missing);
    var app := new AppContent(store);
    var i := 0;
    while i < n
      invariant 0 <= i <= n
      invariant app.darkMode == DarkModeAfter(false, i)
      invariant store.darkMode == Json(app.darkMode)
    {
      app.ToggleDarkMode();
      i := i + 1;
    }
    DarkModeParity(n);
    stored := store.darkMode;
  }

  /**
   * The catalog page as written keeps its own copy of the bookmark list, read
   * from the store when it mounts, while the session keeps the copy it read
   * at start. With `physics` stored, bookmark `math` on the catalog page and
   * go back: the dashboard lists `physics` only. Un-bookmarking `physics`
   * there writes the session's list, which never had `math`, so the store
   * ends empty instead of holding `["math"]`.
   */
  method StaleBookmarksScenario() returns (storedAfterCatalog: Saved<seq<string>>,
                                           dashboardList: seq<Subject>,
                                           storedAtEnd: Saved<seq<string>>)
    ensures storedAfterCatalog == Json(["physics", "math"])
    ensures forall s :: s in dashboardList ==> s.id != "math"
    ensures storedAtEnd == Json([])
  {
    var store := new PreferenceStore(Missing, Json(["physics"]));
    var app := new AppContent(store);
    assert app.bookmarkedSubjects == ["physics"];
    app.HandleNavigation(SubjectsView);
    VisitCatalogAndClick(store, "math");
    BookmarkMath();
    storedAfterCatalog := store.bookmarkedSubjects;
    app.HandleBackToDashboard();
    assert app.bookmarkedSubjects == ["physics"];
    ListedWithPhysicsOnly();
    dashboardList := Dashboard.BookmarkedSubjectsList(Catalog, app.bookmarkedSubjects);
    app.HandleDashboardBookmarkClick(Catalog[1]);
    RemoveOnlyPhysics();
    storedAtEnd := store.bookmarkedSubjects;
  }

  /** The same visits with the shared list: `math` is listed and survives. */
  method SharedBookmarksScenario() returns (dashboardList: seq<Subject>, storedAtEnd: Saved<seq<string>>)
    ensures exists s :: s in dashboardList && s.id == "math"
    ensures storedAtEnd == Json(["math"])
  {
    var store := new PreferenceStore(Missing, Json(["physics"]));
    var app := new AppContent(store);
    app.HandleNavigation(SubjectsView);
    BookmarkMath();
    app.HandleSubjectsBookmarkClick("math");
    app.HandleBackToDashboard();
    ListedAfterBothBookmarks();
    dashboardList := Dashboard.BookmarkedSubjectsList(Catalog, app.bookmarkedSubjects);
    app.HandleDashboardBookmarkClick(Catalog[1]);
    RemovePhysicsKeepsMath();
    storedAtEnd := store.bookmarkedSubjects;
  }

  /** The catalog page mounts over the store and its bookmark button is clicked once. */
  method VisitCatalogAndClick(store: PreferenceStore, subjectId: string)
    modifies store`bookmarkedSubjects
    ensures store.bookmarkedSubjects == Json(Toggle(LoadOr(old(store.bookmarkedSubjects), []), subjectId))
  {
    var page := new SubjectDashboard.SubjectCatalogPage(store);
    page.HandleBookmarkClick(subjectId);
  }

  lemma BookmarkMath()
    ensures Toggle(["physics"], "math") == ["physics", "math"]
  {
    assert ["physics"] + ["math"] == ["physics", "math"];
  }

  lemma ListedWithPhysicsOnly()
    ensures Catalog[1] in Dashboard.BookmarkedSubjectsList(Catalog, ["physics"])
    ensures forall s :: s in Dashboard.BookmarkedSubjectsList(Catalog, ["physics"]) ==> s.id != "math"
  {
    assert Catalog[1] in Catalog && Catalog[1].id == "physics";
  }

  lemma RemoveOnlyPhysics()
    ensures Toggle(["physics"], "physics") == []
  {
    var r := Toggle(["physics"], "physics");
    assert "physics" in ["physics"];
    assert multiset(r) == multiset{};
  }

  lemma ListedAfterBothBookmarks()
    ensures Catalog[0].id == "math" && Catalog[0] in Dashboard.BookmarkedSubjectsList(Catalog, ["physics", "math"])
    ensures Catalog[1] in Dashboard.BookmarkedSubjectsList(Catalog, ["physics", "math"])
  {
    assert Catalog[0] in Catalog && Catalog[1] in Catalog;
  }

  lemma RemovePhysicsKeepsMath()
    ensures Toggle(["physics", "math"], "physics") == ["math"]
  {
    var r := Toggle(["physics", "math"], "physics");
    assert "physics" in ["physics", "math"];
    assert multiset(r) == multiset{"math"};
    assert |r| == 1 && r[0] in multiset(r);
  }
}
