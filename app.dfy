/** The application shell (src/App.tsx): which paths hide the public header and footer, and
    when the shell shows its loading screen while the site settings are fetched. */
module App {
  import opened Text

  // ---------------------------------------------------------------------------
  // Header and footer
  // ---------------------------------------------------------------------------

  predicate IsAdminRoute(path: string) { StartsWith(path, "/admin") }
  predicate IsCounselorRoute(path: string) { StartsWith(path, "/counselor") }
  predicate IsStudentUploadRoute(path: string) { StartsWith(path, "/upload/") }

  /** `hideHeaderFooter`: the admin, counselor and student-upload areas have no public header
      or footer. */
  predicate HideHeaderFooter(path: string) {
    IsAdminRoute(path) || IsCounselorRoute(path) || IsStudentUploadRoute(path)
  }

  /** The three areas without the public header and footer, as path prefixes. */
  const HiddenAreas: set<string> := {"/admin", "/counselor", "/upload/"}

  /** The three `startsWith` tests together: some prefix of the path is one of the areas. */
  lemma HiddenIffAreaPrefix(path: string)
    ensures HideHeaderFooter(path) <==> exists k :: 0 <= k <= |path| && path[..k] in HiddenAreas
  {
    if IsAdminRoute(path) {
      assert path[..|"/admin"|] in HiddenAreas;
    } else if IsCounselorRoute(path) {
      assert path[..|"/counselor"|] in HiddenAreas;
    } else if IsStudentUploadRoute(path) {
      assert path[..|"/upload/"|] in HiddenAreas;
    }
    forall k | 0 <= k <= |path| && path[..k] in HiddenAreas ensures HideHeaderFooter(path) {
      assert |path[..k]| == k;
    }
  }

  /** The header is shown exactly when no prefix of the path is one of the hidden areas. */
  function ShowsHeader(path: string): (r: bool)
    ensures r <==> forall k :: 0 <= k <= |path| ==> path[..k] !in HiddenAreas
  {
    HiddenIffAreaPrefix(path);
    !HideHeaderFooter(path)
  }

  function ShowsFooter(path: string): (r: bool)
    ensures r == ShowsHeader(path)
  {
    !HideHeaderFooter(path)
  }

  lemma StartsWithExtended(path: string, p: string, more: string)
    requires StartsWith(path, p)
    ensures StartsWith(path + more, p)
  {
    assert (path + more)[..|p|] == path[..|p|];
  }

  /** Hiding is decided by a prefix: every path below a hidden one is hidden too. */
  lemma HiddenBelowHidden(path: string, more: string)
    requires HideHeaderFooter(path)
    ensures HideHeaderFooter(path + more)
  {
    if IsAdminRoute(path) {
      StartsWithExtended(path, "/admin", more);
    } else if IsCounselorRoute(path) {
      StartsWithExtended(path, "/counselor", more);
    } else {
      StartsWithExtended(path, "/upload/", more);
    }
  }

  /** The prefix test is textual: "/administrator" is hidden like "/admin", while "/upload",
      without its trailing slash, keeps the header and footer. */
  lemma PrefixTestIsTextual()
    ensures HideHeaderFooter("/administrator")
    ensures !HideHeaderFooter("/upload")
    ensures HideHeaderFooter("/upload/abc")
  {
    assert "/administrator"[..6] == "/admin";
    assert "/upload/abc"[..8] == "/upload/";
    assert !StartsWith("/upload", "/admin") by { assert "/upload"[1] != "/admin"[1]; }
  }

  /** The public pages keep the header and footer. */
  lemma PublicPagesShowChrome(page: string)
    requires page in ["/", "/about", "/study-abroad-process", "/contact", "/study-materials", "/blog"]
    ensures ShowsHeader(page) && ShowsFooter(page)
  {
    if page == "/contact" {
      assert page[3] != "/counselor"[3];
    } else if page == "/about" {
      assert page[2] != "/admin"[2];
    } else if page != "/" {
      assert page[1] == 's' || page[1] == 'b';
    }
  }

  // ---------------------------------------------------------------------------
  // Loading screen
  // ---------------------------------------------------------------------------

  /** The site settings held by the shell: an array (initially empty), or null when the
      backend answered with null. */
  datatype AdminData = Records(items: seq<string>) | Null

  /** What the shell renders. */
  datatype Render = Loading | Page | TypeError

  /** `if (isAdmin && !adminData && adminData[0])` as written: the test short-circuits on an
      array, and indexes null otherwise, which throws. The fetch stores its answer and clears
      the flag in one batched update (App.tsx:67-69), so the flag is never set while null is
      held; a null answer throws later, at the title lookup, which is not part of this model. */
  function LoadingCheckAsWritten(isAdmin: bool, data: AdminData): Render {
    if !isAdmin then Page
    else match data
      case Records(_) => Page
      case Null => TypeError
  }

  /** As written, the loading screen is never shown, whatever the flag and the data; the
      expression itself throws only on null with the flag set. */
  lemma LoadingUnreachableAsWritten(isAdmin: bool, data: AdminData)
    ensures LoadingCheckAsWritten(isAdmin, data) != Loading
    ensures LoadingCheckAsWritten(true, Null) == TypeError
    ensures LoadingCheckAsWritten(true, Records([])) == Page
  {
  }

  /** The loading screen as evidently intended: shown while the fetch is in flight and no
      settings record is available yet. The check itself never throws. */
  function LoadingCheck(isAdmin: bool, data: AdminData): (r: Render)
    ensures r != TypeError
    ensures r == Loading <==> isAdmin && (data.Null? || data.items == [])
    ensures data.Records? && data.items != [] ==> r == Page
  {
    if isAdmin && (data.Null? || data.items == []) then Loading else Page
  }

  /** The shell's fetch: the flag is set when it starts and cleared when the answer arrives. */
  datatype FetchState = FetchState(isAdmin: bool, data: AdminData)

  const Mounted := FetchState(false, Records([]))

  function StartFetch(s: FetchState): FetchState { s.(isAdmin := true) }

  function Answered(s: FetchState, answer: AdminData): FetchState { FetchState(false, answer) }

  /** With the intended check, the shell shows the loading screen from the start of the fetch
      until the answer arrives, and the page afterwards. */
  lemma LoadingCoversTheFetch(answer: AdminData)
    ensures LoadingCheck(StartFetch(Mounted).isAdmin, StartFetch(Mounted).data) == Loading
    ensures LoadingCheck(Answered(StartFetch(Mounted), answer).isAdmin, Answered(StartFetch(Mounted), answer).data) == Page
  {
  }
}
