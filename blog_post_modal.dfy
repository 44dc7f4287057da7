/** The admin's blog post editor (src/components/admin/BlogPostModal.tsx): the form filled from
    a post, field edits, the 24-character random id, and the submitted post with its tag
    string parsed into a list. The editor state is the class `PostEditor`. */
module BlogPostModal {
  import opened Common
  import opened Text
  import Seqs
  import opened Hosting

  /** A post as the backend returns it. Absent text fields are empty; absent tags are None. */
  datatype BlogPost = BlogPost(
    id: string, title: string, excerpt: string, content: string, category: string,
    tags: Option<seq<string>>, metaTitle: string, metaDescription: string, metaKeywords: string,
    featured: bool, status: string, featuredImage: string)

  /** The editor's form; the tags are one comma-separated string. */
  datatype PostForm = PostForm(
    title: string, excerpt: string, content: string, category: string, tags: string,
    metaTitle: string, metaDescription: string, metaKeywords: string, featured: bool,
    status: string, featuredImage: string)

  /** What is handed to the save callback: the form with the tags as a list. */
  datatype PostPayload = PostPayload(
    title: string, excerpt: string, content: string, category: string, tags: seq<string>,
    metaTitle: string, metaDescription: string, metaKeywords: string, featured: bool,
    status: string, featuredImage: string)

  const BlankForm := PostForm("", "", "", "", "", "", "", "", false, "draft", "")

  /** The separator tags are shown with. */
  const TagSeparator := ", "

  // ---------------------------------------------------------------------------
  // Tags
  // ---------------------------------------------------------------------------

  /** `post.tags?.join(", ") || ""`. */
  function JoinTags(tags: Option<seq<string>>): string {
    if tags.Some? then Join(tags.value, TagSeparator) else ""
  }

  function TrimAll(parts: seq<string>): (r: seq<string>)
    ensures |r| == |parts|
    ensures forall k :: 0 <= k < |parts| ==> r[k] == Trim(parts[k])
  {
    seq(|parts|, k requires 0 <= k < |parts| => Trim(parts[k]))
  }

  /** A well-formed tag: non-empty, without surrounding white space, without a comma. */
  predicate IsTag(t: string) {
    t != "" && IsTrimmed(t) && ',' !in t
  }

  predicate NonEmpty(t: string) { t != "" }

  /** The tag string as submitted: split on commas, each piece trimmed, empty pieces
      dropped; the empty string gives no tags. */
  function ParseTags(s: string): (r: seq<string>)
    ensures forall k :: 0 <= k < |r| ==> IsTag(r[k])
    ensures s == "" ==> r == []
    ensures |r| <= |Split(s, ',')|
  {
    if s == "" then []
    else
      var pieces := Split(s, ',');
      var trimmed := TrimAll(pieces);
      var r := Seqs.Filter(trimmed, NonEmpty);
      assert forall k :: 0 <= k < |r| ==> IsTag(r[k]) by {
        forall k | 0 <= k < |r| ensures IsTag(r[k]) {
          Seqs.FilterMembership(trimmed, NonEmpty, r[k]);
          var j :| 0 <= j < |trimmed| && trimmed[j] == r[k];
          assert ',' !in pieces[j];
        }
      }
      r
  }

  /** Which tags are parsed: exactly the non-empty trimmed comma-separated pieces, each as
      often as it occurs among the pieces (duplicates are kept), in the order of the pieces. */
  lemma ParseTagsSpec(s: string)
    ensures forall t :: t in ParseTags(s) <==>
      t != "" && exists k :: 0 <= k < |Split(s, ',')| && Trim(Split(s, ',')[k]) == t
    ensures forall t ::
      multiset(ParseTags(s))[t] == (if t == "" then 0 else multiset(TrimAll(Split(s, ',')))[t])
    ensures Seqs.IsSubsequence(ParseTags(s), TrimAll(Split(s, ',')))
  {
    var pieces := Split(s, ',');
    var trimmed := TrimAll(pieces);
    if s == "" {
      assert pieces == [""];
    } else {
      forall t ensures t in ParseTags(s) <==> t != "" && exists k :: 0 <= k < |pieces| && Trim(pieces[k]) == t {
        Seqs.FilterMembership(trimmed, NonEmpty, t);
        if t in trimmed {
          var k :| 0 <= k < |trimmed| && trimmed[k] == t;
          assert Trim(pieces[k]) == t;
        }
        if exists k :: 0 <= k < |pieces| && Trim(pieces[k]) == t {
          var k :| 0 <= k < |pieces| && Trim(pieces[k]) == t;
          assert trimmed[k] == t;
        }
      }
      forall t ensures multiset(ParseTags(s))[t] == if t == "" then 0 else multiset(trimmed)[t] {
        Seqs.FilterCount(trimmed, NonEmpty, t);
      }
      Seqs.FilterIsSubsequence(trimmed, NonEmpty);
    }
  }

  /** Showing a post's tags in the form and submitting the form gives the tags back, when each
      is non-empty, trimmed and free of commas. */
  lemma TagsRoundTrip(tags: seq<string>)
    requires forall k :: 0 <= k < |tags| ==> IsTag(tags[k])
    ensures ParseTags(JoinTags(Some(tags))) == tags
  {
    if tags != [] {
      SplitShownTags(tags);
      TrimShownTags(tags);
      Seqs.FilterKeepsAll(tags, NonEmpty);
    }
  }

  /** The tags shown with ", " split on commas into the first tag and the others each behind
      one space. */
  lemma SplitShownTags(tags: seq<string>)
    requires |tags| >= 1 && forall k :: 0 <= k < |tags| ==> IsTag(tags[k])
    ensures Split(JoinTags(Some(tags)), ',') == [tags[0]] + PrefixTail(tags[1..], " ")
  {
    var pieces := [tags[0]] + PrefixTail(tags[1..], " ");
    JoinLongSeparator(tags, ',', " ");
    assert [','] + " " == TagSeparator;
    assert forall k :: 1 <= k < |pieces| ==> pieces[k] == " " + tags[k];
    SplitJoin(pieces, ',');
  }

  /** Trimming those pieces gives the tags. */
  lemma TrimShownTags(tags: seq<string>)
    requires |tags| >= 1 && forall k :: 0 <= k < |tags| ==> IsTag(tags[k])
    ensures TrimAll([tags[0]] + PrefixTail(tags[1..], " ")) == tags
  {
    var pieces := [tags[0]] + PrefixTail(tags[1..], " ");
    forall k | 0 <= k < |pieces| ensures Trim(pieces[k]) == tags[k] {
      if k == 0 {
        TrimOfTrimmed(tags[0]);
      } else {
        assert pieces[k] == [' '] + tags[k];
        TrimAfterSpace(' ', tags[k]);
        TrimOfTrimmed(tags[k]);
      }
    }
  }

  /** Parsing is idempotent through the form: parsed tags shown again parse to themselves. */
  lemma ParseTagsStable(s: string)
    ensures ParseTags(JoinTags(Some(ParseTags(s)))) == ParseTags(s)
  {
    TagsRoundTrip(ParseTags(s));
  }

  // ---------------------------------------------------------------------------
  // Filling the form
  // ---------------------------------------------------------------------------

  /** The form for a post: every field copied, an absent one empty, the tags joined with ", ",
      the status "draft" when absent; with no post, the blank form. */
  function PostToForm(post: Option<BlogPost>): (f: PostForm)
    ensures post.None? ==> f == BlankForm
    ensures post.Some? ==>
      var p := post.value;
      && f.title == p.title && f.excerpt == p.excerpt && f.content == p.content
      && f.category == p.category && f.metaTitle == p.metaTitle
      && f.metaDescription == p.metaDescription && f.metaKeywords == p.metaKeywords
      && f.featured == p.featured && f.featuredImage == p.featuredImage
      && f.status == (if p.status == "" then "draft" else p.status)
      && (p.tags.None? ==> f.tags == "")
      && (p.tags.Some? ==> f.tags == Join(p.tags.value, TagSeparator))
    ensures f.status != ""
  {
    match post
    case None => BlankForm
    case Some(p) =>
      PostForm(p.title, p.excerpt, p.content, p.category, OrElse(JoinTags(p.tags), ""),
               p.metaTitle, p.metaDescription, p.metaKeywords, p.featured,
               OrElse(p.status, "draft"), p.featuredImage)
  }

  // ---------------------------------------------------------------------------
  // Field edits
  // ---------------------------------------------------------------------------

  /** The named text inputs and selects of the form. */
  datatype TextField = Title | Excerpt | Content | Category | Tags | MetaTitle | MetaDescription | MetaKeywords | Status

  /** A change event: a text input or select, or the "featured" checkbox. */
  datatype InputEvent = TextChanged(field: TextField, value: string) | FeaturedChanged(checked: bool)

  function FieldValue(f: PostForm, field: TextField): string {
    match field
    case Title => f.title
    case Excerpt => f.excerpt
    case Content => f.content
    case Category => f.category
    case Tags => f.tags
    case MetaTitle => f.metaTitle
    case MetaDescription => f.metaDescription
    case MetaKeywords => f.metaKeywords
    case Status => f.status
  }

  /** `{ ...prev, [name]: type === "checkbox" ? checked : value }`. */
  function ApplyInput(f: PostForm, e: InputEvent): (g: PostForm)
    ensures e.TextChanged? ==>
      && FieldValue(g, e.field) == e.value && g.featured == f.featured
      && forall other :: other != e.field ==> FieldValue(g, other) == FieldValue(f, other)
    ensures e.FeaturedChanged? ==> g == f.(featured := e.checked)
    ensures g.featuredImage == f.featuredImage
  {
    match e
    case FeaturedChanged(checked) => f.(featured := checked)
    case TextChanged(field, value) =>
      match field
      case Title => f.(title := value)
      case Excerpt => f.(excerpt := value)
      case Content => f.(content := value)
      case Category => f.(category := value)
      case Tags => f.(tags := value)
      case MetaTitle => f.(metaTitle := value)
      case MetaDescription => f.(metaDescription := value)
      case MetaKeywords => f.(metaKeywords := value)
      case Status => f.(status := value)
  }

  /** Two inputs to the same field leave the later one's value: the form holds what was typed
      last. */
  lemma LaterInputWins(f: PostForm, a: InputEvent, b: InputEvent)
    requires (a.TextChanged? && b.TextChanged? && a.field == b.field) || (a.FeaturedChanged? && b.FeaturedChanged?)
    ensures ApplyInput(ApplyInput(f, a), b) == ApplyInput(f, b)
  {
  }

  /** Inputs to different fields do not interfere: their order does not matter. */
  lemma InputsOnDifferentFieldsCommute(f: PostForm, a: InputEvent, b: InputEvent)
    requires !(a.TextChanged? && b.TextChanged? && a.field == b.field)
    requires !(a.FeaturedChanged? && b.FeaturedChanged?)
    ensures ApplyInput(ApplyInput(f, a), b) == ApplyInput(ApplyInput(f, b), a)
  {
    var x, y := ApplyInput(ApplyInput(f, a), b), ApplyInput(ApplyInput(f, b), a);
    forall field ensures FieldValue(x, field) == FieldValue(y, field) {
    }
    SameFieldsSameForm(x, y);
  }

  /** A form is determined by its text fields, its checkbox and its image. */
  lemma SameFieldsSameForm(g: PostForm, h: PostForm)
    requires forall field :: FieldValue(g, field) == FieldValue(h, field)
    requires g.featured == h.featured && g.featuredImage == h.featuredImage
    ensures g == h
  {
    assert FieldValue(g, Title) == FieldValue(h, Title) && FieldValue(g, Excerpt) == FieldValue(h, Excerpt);
    assert FieldValue(g, Content) == FieldValue(h, Content) && FieldValue(g, Category) == FieldValue(h, Category);
    assert FieldValue(g, Tags) == FieldValue(h, Tags) && FieldValue(g, MetaTitle) == FieldValue(h, MetaTitle);
    assert FieldValue(g, MetaDescription) == FieldValue(h, MetaDescription);
    assert FieldValue(g, MetaKeywords) == FieldValue(h, MetaKeywords) && FieldValue(g, Status) == FieldValue(h, Status);
  }

  // ---------------------------------------------------------------------------
  // Submitting
  // ---------------------------------------------------------------------------

  /** `handleSubmit`: with a new image, its upload must succeed and its URL replaces the
      featured image, or nothing is saved; the tags are parsed; everything else is the form. */
  function SubmitPayload(f: PostForm, imageUpload: Option<TransferOutcome>): (r: Option<PostPayload>)
    ensures r.None? <==> imageUpload.Some? && imageUpload.value.Refused?
    ensures r.Some? ==>
      var p := r.value;
      && p.tags == ParseTags(f.tags)
      && p.featuredImage == (if imageUpload.Some? then imageUpload.value.url else f.featuredImage)
      && p.title == f.title && p.excerpt == f.excerpt && p.content == f.content
      && p.category == f.category && p.metaTitle == f.metaTitle
      && p.metaDescription == f.metaDescription && p.metaKeywords == f.metaKeywords
      && p.featured == f.featured && p.status == f.status
  {
    if imageUpload.Some? && imageUpload.value.Refused? then None
    else
      var image := if imageUpload.Some? then imageUpload.value.url else f.featuredImage;
      Some(PostPayload(f.title, f.excerpt, f.content, f.category, ParseTags(f.tags), f.metaTitle,
                       f.metaDescription, f.metaKeywords, f.featured, f.status, image))
  }

  /** Opening a post and saving it unchanged, with no new image, saves its tags unchanged when
      they are well formed. */
  lemma UnchangedPostKeepsTags(p: BlogPost)
    requires p.tags.Some? && forall k :: 0 <= k < |p.tags.value| ==> IsTag(p.tags.value[k])
    ensures SubmitPayload(PostToForm(Some(p)), None).Some?
    ensures SubmitPayload(PostToForm(Some(p)), None).value.tags == p.tags.value
  {
    TagsRoundTrip(p.tags.value);
  }

  // ---------------------------------------------------------------------------
  // The random id
  // ---------------------------------------------------------------------------

  /** `n` consecutive characters from `first`. */
  function CharRun(first: char, n: nat): (r: string)
    requires first as int + n <= 0xD800
    ensures |r| == n
  {
    seq(n, i requires 0 <= i < n => (first as int + i) as char)
  }

  /** "A" to "Z", "a" to "z", then "0" to "9". */
  const Alphabet := CharRun('A', 26) + CharRun('a', 26) + CharRun('0', 10)
  const IdLength: nat := 24

  predicate IsAlphanumeric(c: char) {
    'A' <= c <= 'Z' || 'a' <= c <= 'z' || '0' <= c <= '9'
  }

  /** Every character the id can draw is an ASCII letter or digit. */
  lemma AlphabetIsAlphanumeric()
    ensures |Alphabet| == 62
    ensures forall i :: 0 <= i < |Alphabet| ==> IsAlphanumeric(Alphabet[i])
  {
  }

  class PostEditor {
    var formData: PostForm
    var imageFile: Option<SelectedFile>
    var preview: Option<string>
    var randomId: string

    constructor ()
      ensures formData == BlankForm && imageFile.None? && preview.None? && randomId == ""
    {
      formData := BlankForm;
      imageFile := None;
      preview := None;
      randomId := "";
    }

    /** The effect run when the edited post changes: refill the form, show the post's image,
        forget any picked file. */
    method LoadPost(post: Option<BlogPost>)
      modifies this`formData, this`preview, this`imageFile
      ensures formData == PostToForm(post)
      ensures preview == (if post.Some? && post.value.featuredImage != "" then Some(post.value.featuredImage) else None)
      ensures imageFile.None?
    {
      formData := PostToForm(post);
      preview := if post.Some? && post.value.featuredImage != "" then Some(post.value.featuredImage) else None;
      imageFile := None;
    }

    method HandleInputChange(e: InputEvent)
      modifies this`formData
      ensures formData == ApplyInput(old(formData), e)
    {
      formData := ApplyInput(formData, e);
    }

    /** `handleImageChange`: a picked file is kept and previewed through its object URL. */
    method HandleImageChange(file: Option<SelectedFile>, objectUrl: string)
      modifies this`imageFile, this`preview
      ensures file.Some? ==> imageFile == file && preview == Some(objectUrl)
      ensures file.None? ==> imageFile == old(imageFile) && preview == old(preview)
    {
      if file.Some? {
        imageFile := file;
        preview := Some(objectUrl);
      }
    }

    /** The mount effect: 24 characters, each drawn from the alphabet at the position the
        random source chose (`Math.floor(Math.random() * 62)`, so below 62). */
    method GenerateId(choices: seq<nat>)
      requires |choices| == IdLength
      requires forall i :: 0 <= i < |choices| ==> choices[i] < |Alphabet|
      modifies this`randomId
      ensures |randomId| == IdLength
      ensures forall i :: 0 <= i < IdLength ==> randomId[i] == Alphabet[choices[i]]
      ensures forall i :: 0 <= i < IdLength ==> IsAlphanumeric(randomId[i])
    {
      AlphabetIsAlphanumeric();
      var result := "";
      for i := 0 to IdLength
        invariant |result| == i
        invariant forall j :: 0 <= j < i ==> result[j] == Alphabet[choices[j]]
      {
        result := result + [Alphabet[choices[i]]];
      }
      randomId := result;
    }

    /** `handleSubmit`: the payload handed to the save callback, if any. The form is left as
        it is. */
    method HandleSubmit(imageUpload: Option<TransferOutcome>) returns (saved: Option<PostPayload>)
      requires imageFile.Some? <==> imageUpload.Some?
      ensures saved == SubmitPayload(formData, imageUpload)
    {
      saved := SubmitPayload(formData, imageUpload);
    }
  }
}
