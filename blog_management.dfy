/** The admin blog list (src/pages/admin/BlogManagement.tsx): the title/status filter, the
    status labels and colours, and whether saving the editor creates or updates a post. */
module BlogManagement {
  import opened Common
  import opened Text
  import Seqs
  import opened BlogPostModal

  // ---------------------------------------------------------------------------
  // Filter
  // ---------------------------------------------------------------------------

  predicate TitleMatches(term: string, post: BlogPost) {
    Includes(ToLower(post.title), ToLower(term))
  }

  predicate StatusMatches(statusFilter: string, post: BlogPost) {
    statusFilter == "all" || post.status == statusFilter
  }

  /** `filteredPosts`. */
  function FilteredPosts(posts: seq<BlogPost>, term: string, statusFilter: string): (r: seq<BlogPost>)
    ensures |r| <= |posts|
    ensures forall k :: 0 <= k < |r| ==> TitleMatches(term, r[k]) && StatusMatches(statusFilter, r[k])
  {
    Seqs.Filter(posts, (p: BlogPost) => TitleMatches(term, p) && StatusMatches(statusFilter, p))
  }

  /** A post is listed exactly when its lower-cased title contains the lower-cased term and the
      status filter admits it; the listed posts keep their order. */
  lemma FilteredPostsExact(posts: seq<BlogPost>, term: string, statusFilter: string)
    ensures forall p :: p in FilteredPosts(posts, term, statusFilter) <==>
      p in posts && (exists i :: OccursAt(ToLower(p.title), ToLower(term), i)) && StatusMatches(statusFilter, p)
    ensures Seqs.IsSubsequence(FilteredPosts(posts, term, statusFilter), posts)
  {
    var keep := (p: BlogPost) => TitleMatches(term, p) && StatusMatches(statusFilter, p);
    forall p ensures p in FilteredPosts(posts, term, statusFilter) <==>
      p in posts && (exists i :: OccursAt(ToLower(p.title), ToLower(term), i)) && StatusMatches(statusFilter, p)
    {
      Seqs.FilterMembership(posts, keep, p);
      IncludesIff(ToLower(p.title), ToLower(term));
    }
    Seqs.FilterIsSubsequence(posts, keep);
  }

  /** An empty search with status "all" lists every post. */
  lemma {:induction false} OpenFilterListsAll(posts: seq<BlogPost>)
    ensures FilteredPosts(posts, "", "all") == posts
  {
    forall k | 0 <= k < |posts| ensures TitleMatches("", posts[k]) {
      IncludesEmpty(ToLower(posts[k].title));
    }
    Seqs.FilterKeepsAll(posts, (p: BlogPost) => TitleMatches("", p) && StatusMatches("all", p));
  }

  // ---------------------------------------------------------------------------
  // Status labels and colours
  // ---------------------------------------------------------------------------

  const PublishedLabel := "প্রকাশিত"
  const DraftLabel := "খসড়া"
  const ArchivedLabel := "সংরক্ষিত"

  const GreenBadge := "bg-green-100 text-green-800"
  const YellowBadge := "bg-yellow-100 text-yellow-800"
  const GrayBadge := "bg-gray-100 text-gray-800"

  /** `getStatusText`: the three known statuses get their Bengali labels; any other status is
      shown as it is. */
  function StatusText(status: string): (r: string)
    ensures status == "published" ==> r == PublishedLabel
    ensures status == "draft" ==> r == DraftLabel
    ensures status == "archived" ==> r == ArchivedLabel
    ensures status !in {"published", "draft", "archived"} ==> r == status
  {
    if status == "published" then PublishedLabel
    else if status == "draft" then DraftLabel
    else if status == "archived" then ArchivedLabel
    else status
  }

  /** The three known statuses keep distinct labels, so a label names its known status. */
  lemma StatusTextInjectiveOnKnown(a: string, b: string)
    requires a in {"published", "draft", "archived"} && b in {"published", "draft", "archived"}
    requires StatusText(a) == StatusText(b)
    ensures a == b
  {
    assert PublishedLabel[0] != DraftLabel[0];
    assert PublishedLabel[0] != ArchivedLabel[0];
    assert DraftLabel[0] != ArchivedLabel[0];
  }

  /** `getStatusColor`: green for published, yellow for draft, gray for archived and for every
      other status. */
  function StatusColor(status: string): (r: string)
    ensures r == GreenBadge <==> status == "published"
    ensures r == YellowBadge <==> status == "draft"
    ensures status != "published" && status != "draft" ==> r == GrayBadge
  {
    if status == "published" then GreenBadge
    else if status == "draft" then YellowBadge
    else if status == "archived" then GrayBadge
    else GrayBadge
  }

  // ---------------------------------------------------------------------------
  // Saving
  // ---------------------------------------------------------------------------

  /** Which post the editor is open on, if any, and whether it is open. */
  datatype EditorState = EditorState(editingPost: Option<BlogPost>, isModalOpen: bool)

  /** `handleCreatePost`. */
  function OpenForCreate(s: EditorState): (t: EditorState)
    ensures t.editingPost.None? && t.isModalOpen
  {
    EditorState(None, true)
  }

  /** `handleEditPost`. */
  function OpenForEdit(s: EditorState, post: BlogPost): (t: EditorState)
    ensures t.editingPost == Some(post) && t.isModalOpen
  {
    EditorState(Some(post), true)
  }

  /** The request `handleSavePost` sends. */
  datatype SaveRequest = UpdatePost(id: string, data: PostPayload) | CreatePost(data: PostPayload)

  /** An update of the edited post's id when a post is being edited, a create otherwise; the
      payload is passed through unchanged. */
  function SaveRequestFor(s: EditorState, data: PostPayload): (r: SaveRequest)
    ensures r.UpdatePost? <==> s.editingPost.Some?
    ensures r.UpdatePost? ==> r.id == s.editingPost.value.id
    ensures r.data == data
  {
    if s.editingPost.Some? then UpdatePost(s.editingPost.value.id, data) else CreatePost(data)
  }

  /** Opening the editor for a new post always leads to a create, even right after editing
      another post; opening it on a post always leads to an update of that post. */
  lemma SaveDispatch(s: EditorState, post: BlogPost, data: PostPayload)
    ensures SaveRequestFor(OpenForCreate(s), data) == CreatePost(data)
    ensures SaveRequestFor(OpenForEdit(s, post), data) == UpdatePost(post.id, data)
  {
  }

  /** The state after a save: the editor closes only when the request succeeded. */
  function AfterSave(s: EditorState, succeeded: bool): (t: EditorState)
    ensures t.editingPost == s.editingPost
    ensures t.isModalOpen == (s.isModalOpen && !succeeded)
  {
    if succeeded then s.(isModalOpen := false) else s
  }
}
