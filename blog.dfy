/** The public blog page (src/pages/Blog.tsx): the category buttons, "সব" (all) followed by
    each post category once in order of first appearance, and the posts of the chosen one. */
module Blog {
  import Seqs
  import opened BlogPostModal

  /** The "all" category, selected initially. */
  const AllCategories := "সব"

  // ---------------------------------------------------------------------------
  // Distinct values in order of first occurrence: `[...new Set(values)]`
  // ---------------------------------------------------------------------------

  predicate Distinct(s: seq<string>) {
    forall i, j :: 0 <= i < j < |s| ==> s[i] != s[j]
  }

  /** The position of the first occurrence of `x`. */
  function FirstIndex(s: seq<string>, x: string): (i: nat)
    requires x in s
    ensures i < |s| && s[i] == x
    ensures forall j :: 0 <= j < i ==> s[j] != x
  {
    if s[0] == x then 0 else 1 + FirstIndex(s[1..], x)
  }

  /** A `Set` spread back into an array: each value once, where it first appears. */
  function Dedup(s: seq<string>): (r: seq<string>)
    ensures |r| <= |s|
  {
    if s == [] then []
    else
      var d := Dedup(s[..|s| - 1]);
      if s[|s| - 1] in d then d else d + [s[|s| - 1]]
  }

  lemma FirstIndexInPrefix(s: seq<string>, n: nat, x: string)
    requires n <= |s| && x in s[..n]
    ensures FirstIndex(s, x) == FirstIndex(s[..n], x)
  {
    var i := FirstIndex(s[..n], x);
    assert s[i] == x;
  }

  /** `Dedup` keeps exactly the values of `s`, each once, in order of first occurrence. */
  lemma {:induction false} DedupSpec(s: seq<string>)
    ensures forall x :: x in Dedup(s) <==> x in s
    ensures Distinct(Dedup(s))
    ensures forall i, j :: 0 <= i < j < |Dedup(s)| ==> FirstIndex(s, Dedup(s)[i]) < FirstIndex(s, Dedup(s)[j])
  {
    if s != [] {
      var init := s[..|s| - 1];
      var last := s[|s| - 1];
      DedupSpec(init);
      assert s == init + [last];
      var d := Dedup(s);
      forall x | x in init ensures FirstIndex(s, x) == FirstIndex(init, x) {
        FirstIndexInPrefix(s, |s| - 1, x);
      }
      if last !in Dedup(init) {
        assert last !in init;
        assert FirstIndex(s, last) == |s| - 1;
        forall i, j | 0 <= i < j < |d| ensures FirstIndex(s, d[i]) < FirstIndex(s, d[j]) {
          assert d[i] in init;
          if j == |d| - 1 {
            assert FirstIndex(init, d[i]) < |init|;
          } else {
            assert d[j] in init;
          }
        }
      } else {
        forall i, j | 0 <= i < j < |d| ensures FirstIndex(s, d[i]) < FirstIndex(s, d[j]) {
          assert d[i] in init && d[j] in init;
        }
      }
    }
  }

  // ---------------------------------------------------------------------------
  // The page
  // ---------------------------------------------------------------------------

  function PostCategories(posts: seq<BlogPost>): (r: seq<string>)
    ensures |r| == |posts|
    ensures forall k :: 0 <= k < |posts| ==> r[k] == posts[k].category
  {
    seq(|posts|, k requires 0 <= k < |posts| => posts[k].category)
  }

  /** `categories`. */
  function Categories(posts: seq<BlogPost>): (r: seq<string>)
    ensures |r| >= 1 && r[0] == AllCategories
  {
    [AllCategories] + Dedup(PostCategories(posts))
  }

  /** After "সব" come the post categories, each exactly once, in order of first appearance. */
  lemma CategoriesSpec(posts: seq<BlogPost>)
    ensures forall c :: c in Categories(posts)[1..] <==> c in PostCategories(posts)
    ensures forall c :: c in Categories(posts)[1..] <==> exists k :: 0 <= k < |posts| && posts[k].category == c
    ensures Distinct(Categories(posts)[1..])
    ensures var cs := Categories(posts)[1..]; var all := PostCategories(posts);
      forall i, j :: 0 <= i < j < |cs| ==> FirstIndex(all, cs[i]) < FirstIndex(all, cs[j])
  {
    var all := PostCategories(posts);
    DedupSpec(all);
    assert Categories(posts)[1..] == Dedup(all);
    forall c ensures c in all <==> exists k :: 0 <= k < |posts| && posts[k].category == c {
      if c in all {
        var k :| 0 <= k < |all| && all[k] == c;
        assert posts[k].category == c;
      }
    }
  }

  /** `filteredPosts`: all posts for "সব", otherwise those of the chosen category. */
  function PostsInCategory(posts: seq<BlogPost>, selected: string): (r: seq<BlogPost>)
    ensures |r| <= |posts|
    ensures selected != AllCategories ==> forall k :: 0 <= k < |r| ==> r[k].category == selected
  {
    if selected == AllCategories then posts
    else Seqs.Filter(posts, (p: BlogPost) => p.category == selected)
  }

  /** "সব" shows every post as it is; any other choice shows exactly the posts of that category,
      in their order. */
  lemma PostsInCategorySpec(posts: seq<BlogPost>, selected: string)
    ensures selected == AllCategories ==> PostsInCategory(posts, selected) == posts
    ensures selected != AllCategories ==>
      (forall p :: p in PostsInCategory(posts, selected) <==> p in posts && p.category == selected)
      && Seqs.IsSubsequence(PostsInCategory(posts, selected), posts)
  {
    if selected != AllCategories {
      var keep := (p: BlogPost) => p.category == selected;
      forall p ensures p in PostsInCategory(posts, selected) <==> p in posts && p.category == selected {
        Seqs.FilterMembership(posts, keep, p);
      }
      Seqs.FilterIsSubsequence(posts, keep);
    }
  }

  /** Every category button other than "সব" shows at least one post. */
  lemma EveryCategoryHasPosts(posts: seq<BlogPost>, c: string)
    requires c in Categories(posts)[1..] && c != AllCategories
    ensures PostsInCategory(posts, c) != []
  {
    CategoriesSpec(posts);
    var k :| 0 <= k < |posts| && posts[k].category == c;
    PostsInCategorySpec(posts, c);
    assert posts[k] in PostsInCategory(posts, c);
  }
}
