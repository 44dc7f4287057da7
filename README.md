# Study-abroad site: a Dafny model of its client-side logic

This project models the logic of a study-abroad consultancy's React web client and proves
properties of it. The modelled parts are:

- **Student document-upload portal.** Phone verification against the lead list, the file
  checks made before a transfer (size limit, extension, host choice), batch uploads into
  document slots, removal, and the submission guard on the three required slots.
- **Admin study-material page.** Upload and create, edit (optionally replacing the file),
  delete, and the download total.
- **Counselor document list.** Per-lead document counts, the search/status/date filter, and
  pagination ten rows at a time.
- **Blog administration.** The post editor (form filling, field edits, tag parsing, the
  random id), the category dialog's add guard, and the admin post list's filter, labels and
  save dispatch.
- **Public pages.** The blog's category list and category filter, the study-material
  active filter and download naming.
- **Application shell.** Which paths hide the header and footer, and the loading check.

Network answers (the image and PDF hosts, the backend), random choices, the clock and date
parsing are inputs to the model. State the pages change in place is modelled as classes
whose methods state the new state: `DocumentUpload.UploadPage`,
`MaterialManagement.MaterialPage`, `BlogPostModal.PostEditor` and
`CategoryModal.CategoryInput`. Everything else is a set of functions and lemmas.

Modules and files:

| file | module | models |
|---|---|---|
| common.dfy | Common | `Option`, `Result`, JavaScript's `a \|\| b` on strings |
| text.dfy | Text | `trim`, `split`/`join` on one character, `includes`, `startsWith`, ASCII `toLowerCase`, removal of `\s` |
| seqs.dfy | Seqs | `Array.prototype.filter` and its facts |
| hosting.dfy | Hosting | the 10 MiB limit, the two hosts, refusal messages |
| document_upload.dfy | DocumentUpload | src/pages/student/DocumentUpload.tsx |
| material_management.dfy | MaterialManagement | src/pages/admin/MaterialManagement.tsx |
| counselor_documents.dfy | CounselorDocuments | src/pages/counselor/Documents.tsx |
| blog_post_modal.dfy | BlogPostModal | src/components/admin/BlogPostModal.tsx |
| category_modal.dfy | CategoryModal | src/components/admin/CategoryModal.tsx |
| blog_management.dfy | BlogManagement | src/pages/admin/BlogManagement.tsx |
| blog.dfy | Blog | src/pages/Blog.tsx |
| study_materials.dfy | StudyMaterials | src/pages/StudyMaterials.tsx |
| app.dfy | App | src/App.tsx |

How JavaScript values are represented:

- An absent or `undefined` string field is the empty string, which is what `||` treats
  it as. Where the site calls a string method on such a field, the model differs (see
  "Left out").
- Strings are sequences of code points; `toLowerCase` lower-cases ASCII letters only.
- `\s` and `trim` use the ECMAScript white-space and line-terminator set.

## Model

| member | source | states |
|---|---|---|
| Text.Trim | src/components/admin/BlogPostModal.tsx:135 | the result is the slice of the input left when all white space before and after it is removed: it stands in the input at some position with only white space around it, neither starts nor ends with white space, and is empty exactly when the input is all white space |
| Text.TrimAfterSpace | src/components/admin/BlogPostModal.tsx:135 | a leading white-space character never survives `trim` |
| Text.TrimOfTrimmed | src/components/admin/CategoryModal.tsx:32-35 | trimming already trimmed text changes nothing |
| Text.IncludesEmpty | src/pages/admin/BlogManagement.tsx:149 | every text includes the empty string |
| Text.SplitWithoutSeparator | src/components/admin/BlogPostModal.tsx:134 | text without the separator splits into itself alone |
| Text.SplitAtSeparator | src/pages/StudyMaterials.tsx:64 | splitting `a + d + b`, where `a` has no `d`, gives `a` followed by the pieces of `b` |
| Text.StripSpaces | src/pages/student/DocumentUpload.tsx:57 | the result has no white space, and a character occurs in it exactly when it occurs in the input and is not white space |
| Text.StripSpacesIsFilter | src/pages/student/DocumentUpload.tsx:57 | removing white space is filtering it out: the other characters stay, in their order |
| Text.StripSpacesIdempotent | src/pages/student/DocumentUpload.tsx:57 | removing white space twice is removing it once |
| Text.IncludesIff | src/pages/counselor/Documents.tsx:89-91 | `includes` holds exactly when the needle occurs at some position |
| Text.Split | src/components/admin/BlogPostModal.tsx:134 | `split` on one character yields at least one piece, and no piece holds the separator |
| Text.JoinSplit | src/components/admin/BlogPostModal.tsx:134 | joining the pieces of a split with the separator restores the string |
| Text.SplitJoin | src/components/admin/BlogPostModal.tsx:61 | splitting separator-free pieces joined with the separator gives the pieces back |
| Text.JoinLongSeparator | src/components/admin/BlogPostModal.tsx:61 | joining with ", " is joining with "," after putting " " before every piece but the first |
| Text.LastPiece | src/pages/student/DocumentUpload.tsx:79 | `split(d).pop()` is the suffix after the last separator, free of it |
| Text.LastPieceAfterSeparator | src/pages/student/DocumentUpload.tsx:79 | the last piece of `p + d + rest`, where `rest` has no `d`, is `rest` |
| Seqs.Filter | src/pages/counselor/Documents.tsx:87 | `filter` keeps only elements satisfying the predicate and never lengthens the list |
| Seqs.FilterMembership | src/pages/counselor/Documents.tsx:87-97 | an element is kept exactly when it occurs and satisfies the predicate |
| Seqs.FilterCount | src/components/admin/BlogPostModal.tsx:132-137 | a kept element occurs as often as in the input, any other not at all |
| Seqs.FilterIsSubsequence | src/pages/counselor/Documents.tsx:87-97 | filtering keeps the order of the kept elements |
| Seqs.FilterAppend | src/pages/student/DocumentUpload.tsx:187-188 | filtering a concatenation filters each part |
| Seqs.FilterKeepsAll | src/pages/StudyMaterials.tsx:19-21 | when every element satisfies the predicate, the filter is the identity |
| Seqs.FilterPartition | src/pages/student/DocumentUpload.tsx:169 | the filters by a predicate and by its negation split the list's length between them |
| Hosting.RefusalMessage | src/pages/student/DocumentUpload.tsx:98-123 | a refused transfer raises the host's own message when it gave one, else "Failed to upload image to ImgBB" for the image host and "Failed to upload PDF to PDF.co" for the PDF host |
| Hosting.Transfer | src/pages/admin/MaterialManagement.tsx:107-141 | a host's returned URL is the result; a refusal raises the host's message, else its fallback |
| DocumentUpload.SomeLeadMatches | src/pages/student/DocumentUpload.tsx:55-58 | true exactly when some lead has a phone equal to the input once white space is removed from both |
| DocumentUpload.IsRegistered | src/pages/student/DocumentUpload.tsx:55-58 | no lead list means not registered; otherwise `SomeLeadMatches`, stated there |
| DocumentUpload.SpacesNeverDecideMatch | src/pages/student/DocumentUpload.tsx:57 | inputs differing only in white space match the same leads |
| DocumentUpload.Preflight | src/pages/student/DocumentUpload.tsx:71-87 | over 10 MiB fails with the size message first; otherwise png/jpg/jpeg go to the image host, pdf to the PDF host, anything else fails with the unsupported-type message |
| DocumentUpload.PreflightComesFirst | src/pages/student/DocumentUpload.tsx:72-87 | a file refused by the checks is never transferred: the host's answer makes no difference |
| DocumentUpload.SizeLimitBoundary | src/pages/student/DocumentUpload.tsx:75 | exactly 10 MiB passes, one byte more is refused |
| DocumentUpload.ExtensionAfterLastDot | src/pages/student/DocumentUpload.tsx:79-81 | the extension is the lower-cased text after the last dot, or the whole name when there is no dot |
| DocumentUpload.Extension | src/pages/student/DocumentUpload.tsx:79 | computes the lower-cased last dot-separated piece; specified by `ExtensionAfterLastDot` |
| DocumentUpload.UploadOne | src/pages/student/DocumentUpload.tsx:71-125 | one file's upload: `Preflight`'s verdict followed by the chosen host's answer; specified by `Preflight` and `PreflightComesFirst` |
| DocumentUpload.Failure | src/pages/student/DocumentUpload.tsx:144-148 | a failed attempt writes a non-empty message and never also adds a record |
| DocumentUpload.FailureMessage | src/pages/student/DocumentUpload.tsx:144-148 | an attempt fails exactly when the checks or the host raised an error, and writes that error's message, or "Failed to upload file" when it is empty |
| DocumentUpload.BatchRecords | src/pages/student/DocumentUpload.tsx:130-143 | every record added by a batch has a non-empty URL that is also its thumbnail |
| DocumentUpload.BatchRecordsAreSuccesses | src/pages/student/DocumentUpload.tsx:131-143 | the added records are exactly the successful attempts' records, in batch order |
| DocumentUpload.LastFailureNone | src/pages/student/DocumentUpload.tsx:144-149 | the slot's error is untouched by a batch exactly when no attempt failed |
| DocumentUpload.LastFailureIsLatest | src/pages/student/DocumentUpload.tsx:144-149 | the slot's error after a batch is the message of its last failing attempt |
| DocumentUpload.LastFailure | src/pages/student/DocumentUpload.tsx:144-149 | the message a batch leaves in its slot's error is never empty |
| DocumentUpload.DocumentsAfterBatch | src/pages/student/DocumentUpload.tsx:152-158 | a batch changes no slot but its own |
| DocumentUpload.ErrorsAfterBatch | src/pages/student/DocumentUpload.tsx:144-162 | a batch changes no slot's error but its own |
| DocumentUpload.BatchEffect | src/pages/student/DocumentUpload.tsx:152-163 | the slot's list grows by the successes in order, other slots are unchanged, and the slot's error is cleared on any success or else holds the last failure |
| DocumentUpload.RemovalEffect | src/pages/student/DocumentUpload.tsx:166-170 | removal drops exactly the records with that id, keeps the others in order, and changes nothing when the id is absent |
| DocumentUpload.WithoutId | src/pages/student/DocumentUpload.tsx:169 | no record with the removed id is left, and the list never grows |
| DocumentUpload.SomeSlotEmpty | src/pages/student/DocumentUpload.tsx:189 | true exactly when some listed slot is absent or empty |
| DocumentUpload.RequiredSlotsAreFirstThree | src/pages/student/DocumentUpload.tsx:33-42 | the required slots are the transcript, IELTS and passport slots, in that order |
| DocumentUpload.MissingRequiredIff | src/pages/student/DocumentUpload.tsx:187-189 | submission is blocked exactly when the transcript, IELTS or passport slot is absent or empty |
| DocumentUpload.MissingRequired | src/pages/student/DocumentUpload.tsx:187-189 | some required slot is absent or empty; stated slot by slot in `MissingRequiredIff` |
| DocumentUpload.OptionalSlotsNeverBlock | src/pages/student/DocumentUpload.tsx:187-189 | changing an optional slot never changes whether submission is blocked |
| DocumentUpload.UploadPage.constructor | src/pages/student/DocumentUpload.tsx:21-29 | the page starts on the phone form with no documents and no errors |
| DocumentUpload.UploadPage.EditPhone | src/pages/student/DocumentUpload.tsx:247-250 | typing stores the text and clears the verification error |
| DocumentUpload.UploadPage.VerifyPhone | src/pages/student/DocumentUpload.tsx:44-68 | under 10 characters is refused without a lookup; otherwise the page is verified exactly when a lead matches, else it shows the unregistered message |
| DocumentUpload.UploadPage.HandleFileUpload | src/pages/student/DocumentUpload.tsx:127-164 | no files change nothing; otherwise the documents and errors become the batch's effect, and every stored record keeps a URL equal to its thumbnail |
| DocumentUpload.UploadPage.RemoveFile | src/pages/student/DocumentUpload.tsx:166-175 | the slot loses the records with that id and its error is cleared; nothing else changes |
| DocumentUpload.UploadPage.SubmitDocuments | src/pages/student/DocumentUpload.tsx:185-211 | no request and the missing-documents alert while a required slot is empty; otherwise one request with the phone and all slots, whose success alone shows the thank-you page and whose failure shows the retry alert |
| MaterialManagement.UploadMaterialFile | src/pages/admin/MaterialManagement.tsx:98-144 | no file, then too large, then the declared type picks the host: "image" gives the image host's answer, "pdf" the PDF host's, any other type is unsupported; a URL only comes from a host that returned it |
| MaterialManagement.CaughtMessage | src/pages/admin/MaterialManagement.tsx:191-195 | the response's message, else the error's own message, else the fallback; never empty when the fallback is not |
| MaterialManagement.TotalDownloadsAppend | src/pages/admin/MaterialManagement.tsx:301-303 | the download total of two lists together is the sum of their totals |
| MaterialManagement.TotalDownloads | src/pages/admin/MaterialManagement.tsx:301-303 | the total is 0 for no materials and at least each material's own count |
| MaterialManagement.CreateAddsToTotal | src/pages/admin/MaterialManagement.tsx:301-303 | prepending a created material adds its downloads to the total, nothing when it starts at 0 |
| MaterialManagement.DeletionEffect | src/pages/admin/MaterialManagement.tsx:234 | deletion removes exactly the materials with that id, keeps the rest in order, and never raises the download total |
| MaterialManagement.WithoutId | src/pages/admin/MaterialManagement.tsx:234 | no material with the deleted id is left, and the list never grows |
| MaterialManagement.MergeEffect | src/pages/admin/MaterialManagement.tsx:277-281 | an edit keeps the length and every other material; matching ones take the edited fields and keep id, type, date and downloads, so the total is unchanged |
| MaterialManagement.Merge | src/pages/admin/MaterialManagement.tsx:279 | the edited fields come from the update; id, type, upload date and downloads stay |
| MaterialManagement.MergeById | src/pages/admin/MaterialManagement.tsx:277-281 | the list keeps its length and every position keeps its id |
| MaterialManagement.MaterialPage.constructor | src/pages/admin/MaterialManagement.tsx:53-85 | the page starts with the fetched list, or an empty list and an error when the fetch failed, blank forms, nothing selected and the upload, edit and delete dialogs closed |
| MaterialManagement.MaterialPage.HandleUpload | src/pages/admin/MaterialManagement.tsx:146-199 | missing title or description, or a missing file, stop with their messages; with a complete form a body is posted exactly when the file upload succeeded, and a failed upload shows its caught message; the posted body has downloads 0 and thumbnail equal to the file URL; a created material goes first, the form resets and the upload dialog closes; failures leave the list, the form and the dialog as they were |
| MaterialManagement.MaterialPage.HandleEdit | src/pages/admin/MaterialManagement.tsx:206-215 | the material is selected, the edit form takes its title, description and status, with no file, and the edit dialog opens |
| MaterialManagement.MaterialPage.HandleDelete | src/pages/admin/MaterialManagement.tsx:217-220 | the material is selected and the confirmation opens |
| MaterialManagement.MaterialPage.ConfirmDelete | src/pages/admin/MaterialManagement.tsx:222-242 | no selected id means no request and an error; a selected id is always the one requested, and a successful delete removes that id's materials, clears the selection and closes the dialog; without a request or after a failure the list, the selection and the dialog stay as they were, and a failure shows the message |
| MaterialManagement.MaterialPage.SaveEdit | src/pages/admin/MaterialManagement.tsx:244-299 | with title and description an update is sent exactly when no new file was given or its upload succeeded, and a failed upload shows its caught message; the old URL, thumbnail and size are kept unless a new file was uploaded; a successful update merges into the materials with the selected id, resets the form and closes the dialog; a validation stop or a failure leaves the list, the selection, the form and the dialog as they were |
| CounselorDocuments.FileCountAppend | src/pages/counselor/Documents.tsx:50-53 | the uploaded count of two slot lists together is the sum of their counts |
| CounselorDocuments.FileCountBounds | src/pages/counselor/Documents.tsx:50-53 | the count is zero exactly when every slot is empty, and no slot holds more than the count |
| CounselorDocuments.FileCount | src/pages/counselor/Documents.tsx:51-54 | sums the slots' list lengths; specified by `FileCountAppend` and `FileCountBounds` |
| CounselorDocuments.RowOf | src/pages/counselor/Documents.tsx:46-58 | a row copies the lead's id, name, phone, email, status and documents, counts its uploaded files (zero exactly when every slot is empty, at least each slot's size) out of 8, and dates itself by the submission date, else the last contact, else "N/A" |
| CounselorDocuments.HasDocuments | src/pages/counselor/Documents.tsx:45 | a lead has a documents object with at least one slot; used by `RowsFromLeadsWithDocuments` |
| CounselorDocuments.RowsFromLeadsWithDocuments | src/pages/counselor/Documents.tsx:44-59 | every lead with at least one document slot has its row, and every row comes from such a lead |
| CounselorDocuments.Rows | src/pages/counselor/Documents.tsx:44-59 | at most one row per lead, each measured against 8 documents |
| CounselorDocuments.FilteredRowsExact | src/pages/counselor/Documents.tsx:87-97 | a row is listed exactly when the search, status and date conditions all hold; order is kept |
| CounselorDocuments.FilteredRows | src/pages/counselor/Documents.tsx:87-97 | every listed row matches the query, and the list never grows |
| CounselorDocuments.OpenQueryListsAll | src/pages/counselor/Documents.tsx:87-97 | an empty search with status "all" and no dates lists every row |
| CounselorDocuments.SearchIgnoresNameCase | src/pages/counselor/Documents.tsx:89 | a name containing the term matches every ASCII capitalisation of the term |
| CounselorDocuments.TotalPages | src/pages/counselor/Documents.tsx:99 | `ceil(n / 10)`: enough pages for every row, no empty last page, and none for no rows |
| CounselorDocuments.SliceIndex | src/pages/counselor/Documents.tsx:101-104 | a `slice` index is clamped to the length and kept as is when in range |
| CounselorDocuments.PageIsWindow | src/pages/counselor/Documents.tsx:100-104 | page p shows the rows from (p-1)*10 up to p*10, at most ten |
| CounselorDocuments.Page | src/pages/counselor/Documents.tsx:100-104 | the `slice` of the filtered rows for a page; specified by `PageIsWindow` and `PageOccupancy` |
| CounselorDocuments.PageOccupancy | src/pages/counselor/Documents.tsx:99-104 | every page up to the last holds a row, and pages past it hold none |
| CounselorDocuments.PagesUpToPrefix | src/pages/counselor/Documents.tsx:100-104 | the first k pages together are the first 10k rows |
| CounselorDocuments.PagesCoverAll | src/pages/counselor/Documents.tsx:99-104 | paging through every page shows each row once, in order |
| CounselorDocuments.ShowingMatchesPage | src/pages/counselor/Documents.tsx:349-354 | "Showing a to b" names the positions of the first and last rows of the page |
| CounselorDocuments.Previous | src/pages/counselor/Documents.tsx:358-359 | Previous steps back by one above page 1 and gives page 1 otherwise |
| CounselorDocuments.NextAsWritten | src/pages/counselor/Documents.tsx:369-371 | Next as written steps forward by one below the page count and gives the page count otherwise, 0 included |
| CounselorDocuments.NextAsWrittenLeavesPageRange | src/pages/counselor/Documents.tsx:368-371 | with no matching rows, Next is enabled on page 1 and leads to page 0, which shows nothing |
| CounselorDocuments.Next | src/pages/counselor/Documents.tsx:369 | corrected Next: steps forward below the last page, otherwise gives the last page, or 1 when there are no pages; never leaves the page range |
| CounselorDocuments.StepKeepsInRange | src/pages/counselor/Documents.tsx:358-371 | with the corrected Next and the result count fixed, Previous, Next and a date search keep the pager on a real page |
| CounselorDocuments.Step | src/pages/counselor/Documents.tsx:358-371 | one pager event with the corrected Next: an enabled Previous or Next moves, a disabled one does nothing, a date search returns to page 1; specified by `StepKeepsInRange` |
| BlogPostModal.TrimAll | src/components/admin/BlogPostModal.tsx:135 | every piece is trimmed, one for one |
| BlogPostModal.JoinTags | src/components/admin/BlogPostModal.tsx:61 | tags joined with ", ", or "" when absent; related to parsing by `TagsRoundTrip` |
| BlogPostModal.ParseTags | src/components/admin/BlogPostModal.tsx:132-137 | parsed tags are non-empty, trimmed and comma-free; the empty string gives none; never more tags than pieces |
| BlogPostModal.ParseTagsSpec | src/components/admin/BlogPostModal.tsx:132-137 | a tag is parsed exactly when it is a non-empty trimmed comma-separated piece, as many times as such pieces occur, and the tags keep the pieces' order |
| BlogPostModal.TagsRoundTrip | src/components/admin/BlogPostModal.tsx:132-137 | showing well-formed tags joined with ", " and parsing them back gives the same tags |
| BlogPostModal.ParseTagsStable | src/components/admin/BlogPostModal.tsx:132-137 | parsed tags shown again parse to themselves |
| BlogPostModal.PostToForm | src/components/admin/BlogPostModal.tsx:54-87 | a post fills every field, empty when absent, status "draft" when absent, tags joined with ", "; no post gives the blank form |
| BlogPostModal.ApplyInput | src/components/admin/BlogPostModal.tsx:89-99 | a text input sets exactly its own field, the checkbox sets `featured`, and nothing else changes |
| BlogPostModal.LaterInputWins | src/components/admin/BlogPostModal.tsx:89-99 | of two inputs to the same field, the later one's value stays |
| BlogPostModal.InputsOnDifferentFieldsCommute | src/components/admin/BlogPostModal.tsx:89-99 | inputs to different fields give the same form in either order |
| BlogPostModal.SubmitPayload | src/components/admin/BlogPostModal.tsx:119-137 | nothing is saved when the image upload fails; otherwise the saved post is the form with parsed tags and, with a new image, its URL |
| BlogPostModal.UnchangedPostKeepsTags | src/components/admin/BlogPostModal.tsx:119-137 | saving an opened post unchanged keeps well-formed tags as they were |
| BlogPostModal.CharRun | src/components/admin/BlogPostModal.tsx:46 | a run of consecutive characters has the requested length |
| BlogPostModal.AlphabetIsAlphanumeric | src/components/admin/BlogPostModal.tsx:45-46 | the alphabet has 62 characters, all ASCII letters or digits |
| BlogPostModal.PostEditor.constructor | src/components/admin/BlogPostModal.tsx:27-43 | the editor starts with the blank form, no image and no id |
| BlogPostModal.PostEditor.LoadPost | src/components/admin/BlogPostModal.tsx:54-87 | opening a post fills the form from it, previews its image, and forgets a picked file |
| BlogPostModal.PostEditor.HandleInputChange | src/components/admin/BlogPostModal.tsx:89-99 | the form becomes the input applied to it |
| BlogPostModal.PostEditor.HandleImageChange | src/components/admin/BlogPostModal.tsx:101-107 | a picked file is kept and previewed; no file changes nothing |
| BlogPostModal.PostEditor.GenerateId | src/components/admin/BlogPostModal.tsx:44-52 | the id has 24 characters, each the alphabet's character at the chosen position, all alphanumeric |
| BlogPostModal.PostEditor.HandleSubmit | src/components/admin/BlogPostModal.tsx:119-144 | the saved post is the submission payload of the current form |
| CategoryModal.NameTaken | src/components/admin/CategoryModal.tsx:33 | true exactly when some category has that exact, case-sensitive name |
| CategoryModal.AddAttempt | src/components/admin/CategoryModal.tsx:30-38 | a name is handed on exactly when the trimmed input is non-empty and not taken; the trimmed text is handed on and the input cleared; a refusal keeps the input |
| CategoryModal.CanAdd | src/components/admin/CategoryModal.tsx:31-34 | the trimmed input is non-empty and not taken; used by `AddAttempt` |
| CategoryModal.BlankNeverAdded | src/components/admin/CategoryModal.tsx:32 | input of only white space is never added |
| CategoryModal.AddedNameIsRefusedNext | src/components/admin/CategoryModal.tsx:31-35 | once a name is added, the same name with any padding is refused |
| CategoryModal.CategoryInput.constructor | src/components/admin/CategoryModal.tsx:26 | the input starts empty |
| CategoryModal.CategoryInput.HandleChange | src/components/admin/CategoryModal.tsx:71 | typing stores the text |
| CategoryModal.CategoryInput.HandleAddCategory | src/components/admin/CategoryModal.tsx:30-38 | the add button does what `AddAttempt` states |
| CategoryModal.CategoryInput.HandleKeyPress | src/components/admin/CategoryModal.tsx:40-44 | Enter does exactly what the add button does; other keys do nothing |
| BlogManagement.FilteredPostsExact | src/pages/admin/BlogManagement.tsx:147-154 | a post is listed exactly when its lower-cased title contains the lower-cased term and the status filter admits it; order is kept |
| BlogManagement.FilteredPosts | src/pages/admin/BlogManagement.tsx:147-154 | every listed post matches the title search and the status filter, and the list never grows |
| BlogManagement.OpenFilterListsAll | src/pages/admin/BlogManagement.tsx:147-154 | an empty search with status "all" lists every post |
| BlogManagement.StatusText | src/pages/admin/BlogManagement.tsx:134-145 | published, draft and archived get their Bengali labels; any other status is shown as is |
| BlogManagement.StatusTextInjectiveOnKnown | src/pages/admin/BlogManagement.tsx:134-145 | two known statuses with the same label are the same status |
| BlogManagement.StatusColor | src/pages/admin/BlogManagement.tsx:121-132 | green exactly for published, yellow exactly for draft, gray for archived and every other status |
| BlogManagement.OpenForCreate | src/pages/admin/BlogManagement.tsx:52-55 | creating clears the edited post and opens the editor |
| BlogManagement.OpenForEdit | src/pages/admin/BlogManagement.tsx:57-60 | editing records the post and opens the editor |
| BlogManagement.SaveRequestFor | src/pages/admin/BlogManagement.tsx:75-89 | an update of the edited post's id exactly when a post is being edited, else a create; the data passes unchanged |
| BlogManagement.SaveDispatch | src/pages/admin/BlogManagement.tsx:52-60 | after "create" a save always creates, after "edit" it always updates that post |
| BlogManagement.AfterSave | src/pages/admin/BlogManagement.tsx:90-94 | the editor closes only after a successful save |
| Blog.FirstIndex | src/pages/Blog.tsx:37 | the first position holding a value |
| Blog.FirstIndexInPrefix | src/pages/Blog.tsx:37 | a value's first position is the same in a list and in any prefix holding it |
| Blog.DedupSpec | src/pages/Blog.tsx:37 | spreading a `Set` keeps every value exactly once, in order of first occurrence |
| Blog.Dedup | src/pages/Blog.tsx:37 | never more values than the input; specified by `DedupSpec` |
| Blog.PostCategories | src/pages/Blog.tsx:37 | one category per post, in post order |
| Blog.Categories | src/pages/Blog.tsx:37 | the first category is "সব" |
| Blog.CategoriesSpec | src/pages/Blog.tsx:37 | after "সব" come the post categories, each once, in order of first appearance |
| Blog.PostsInCategorySpec | src/pages/Blog.tsx:38-41 | "সব" shows every post unchanged; any other choice shows exactly its posts, in order |
| Blog.PostsInCategory | src/pages/Blog.tsx:38-41 | never more posts than there are, all of the chosen category unless it is "সব" |
| Blog.EveryCategoryHasPosts | src/pages/Blog.tsx:37-41 | every category button other than "সব" shows at least one post |
| StudyMaterials.ActiveOnlySpec | src/pages/StudyMaterials.tsx:19-22 | exactly the materials whose status is exactly "Active" are listed, in order |
| StudyMaterials.ActiveOnly | src/pages/StudyMaterials.tsx:19-21 | every listed material has status "Active", and the list never grows |
| StudyMaterials.MimeType | src/pages/StudyMaterials.tsx:49-50 | the content type when present, "application/octet-stream" when missing |
| StudyMaterials.SubtypeOrFile | src/pages/StudyMaterials.tsx:64 | the fallback extension is non-empty and holds no "/", and is "file" for a type without "/" |
| StudyMaterials.SubtypeFallsBackToFile | src/pages/StudyMaterials.tsx:64 | a type ending in its first "/", or with nothing between its first and second "/", falls back to "file" |
| StudyMaterials.Extension | src/pages/StudyMaterials.tsx:57-64 | the first keyword test that passes (pdf, jpeg, png, msword, spreadsheet or excel) decides the extension, else the subtype or "file" |
| StudyMaterials.ExtensionFromSubtype | src/pages/StudyMaterials.tsx:64 | a "major/minor" type matching no keyword gets its minor part as extension |
| StudyMaterials.DownloadNameEndsWithExtension | src/pages/StudyMaterials.tsx:57-69 | when the chosen extension holds no dot, the download name's text after its last dot is that extension |
| StudyMaterials.DownloadName | src/pages/StudyMaterials.tsx:69 | the download name starts with the title followed by a dot |
| App.ShowsHeader | src/App.tsx:77-81 | the header shows exactly when no prefix of the path is "/admin", "/counselor" or "/upload/" |
| App.HiddenIffAreaPrefix | src/App.tsx:77-81 | the three `startsWith` tests together hold exactly when some prefix of the path is one of the three areas |
| App.HideHeaderFooter | src/App.tsx:80-81 | the admin, counselor or student-upload prefix test; specified by `HiddenIffAreaPrefix` |
| App.ShowsFooter | src/App.tsx:167 | the footer shows under the same condition as the header |
| App.StartsWithExtended | src/App.tsx:77-79 | a prefix of a path is a prefix of every extension of it |
| App.HiddenBelowHidden | src/App.tsx:77-81 | every path below a hidden path is hidden too |
| App.PrefixTestIsTextual | src/App.tsx:77-79 | "/administrator" is hidden, "/upload" without its slash is not, "/upload/abc" is |
| App.PublicPagesShowChrome | src/App.tsx:125 | the public pages show the header and footer |
| App.LoadingUnreachableAsWritten | src/App.tsx:84 | as written the loading screen is never shown; the expression itself throws only on null with the flag set |
| App.LoadingCheckAsWritten | src/App.tsx:84 | the loading condition as written; specified by `LoadingUnreachableAsWritten` |
| App.LoadingCheck | src/App.tsx:84 | corrected: loading exactly while fetching with no settings record; the check itself never throws |
| App.LoadingCoversTheFetch | src/App.tsx:62-74 | with the corrected check, loading shows from the fetch's start until its answer, then the page |

## Left out

- Network calls are not modelled: no HTTP, FormData, headers or API keys. The answers of the image host, the PDF host and the backend are inputs (`TransferOutcome`, `Backend`, booleans).
- Refetching after a save or delete (`fetchBlogs`, `fetchCategories`) is not modelled. The category delete and post delete confirmations, which are only a request and a refetch, are left out too.
- Timers, React effects and spinner flags are not modelled (`setTimeout`, `isChecking`, `isSearching`, `loadingUpload`). The 500 ms phone check and the 1 s date search are modelled as immediate.
- Floating-point formatting is left out: `formatFileSize`, the `toFixed` megabyte strings and the progress-bar percentage. The megabyte string and the upload date are inputs to `MaterialPage.HandleUpload` and `SaveEdit`.
- Date parsing is abstracted. `new Date(...)` is a parse function into ordered integers, and None stands for an invalid date.
- Random values are inputs: the upload record ids and the positions `GenerateId` draws.
- The download flow is left out: the blob, the object URL and the DOM anchor. Only the file name is modelled.
- `toLowerCase` is modelled on ASCII letters only. String lengths count code points, not UTF-16 units. Object key order is left out: documents are a map, except that the counselor rows keep the fetched slot order as a list.
- DocumentUpload.UploadPage.RemoveFile: requires the slot to exist. The page only offers removal for listed files, and the source reads the slot unguarded.
- MaterialManagement.MaterialPage.SaveEdit: requires a selected material. The edit dialog is only reachable through `HandleEdit`.
- BlogPostModal.PostEditor.HandleSubmit: the `setIsOpen` call after saving is not modelled. It names no variable in scope, so it throws and is caught and logged; the editor is left as it was.
- BlogPostModal.ApplyInput: an input whose name is not a form field would add a new key to the form object. The form has no such input, so this is not modelled.
- The material type icon, the counselor status colours and the page title and meta tags are presentation only and are not modelled.
- CounselorDocuments.StepKeepsInRange: is stated for the pager with the corrected Next; as written, Next can reach page 0 (see "Findings"). It holds while the number of matching rows stays fixed. Typing a new search does not reset the page, so a shrinking result set can leave the pager past the last page, which then shows nothing (`PageOccupancy`).
- CounselorDocuments.MatchesSearch: a lead without a name, email or phone makes `toLowerCase` or `includes` throw while the list is filtered; the model treats the missing field as "" and the row takes part in the search.
- BlogManagement.TitleMatches: a post without a title makes `toLowerCase` throw while the list is filtered; the model treats the missing title as "" and the post takes part in the search.
- StudyMaterials.DownloadNameEndsWithExtension: holds only for an extension without a dot. A subtype fallback can hold dots: the Word type `application/vnd.openxmlformats-officedocument.wordprocessingml.document` matches no keyword, so its extension is that whole subtype and the name's text after its last dot reads "document".
- DocumentUpload.UploadPage.HandleFileUpload: the batch is one atomic step. The site awaits each transfer, so a removal, a submission or a second batch can run between its transfers; that interleaving is not modelled.
- App.LoadingCheck: with a `null` answer from the settings fetch the page is rendered and its title lookup `adminData[0]?.websiteTitle` (src/App.tsx:94) throws; the title and meta tags are not modelled, so this crash is not either.
- App.LoadingCheck: if the settings fetch fails, the flag stays set, and the corrected check would then keep showing the loading screen while no settings are held.

## Findings

| source | as written | input that shows it | evidently intended | confidence | as-written member | corrected member |
|---|---|---|---|---|---|---|
| src/pages/counselor/Documents.tsx:369-371 | Next sets `Math.min(totalPages, currentPage + 1)` and is disabled only when `currentPage === totalPages` | no row matches (`totalPages` is 0) and the counselor clicks Next on page 1: the page becomes 0, whose slice `slice(-10, 0)` is empty even after rows match again | the page stays at 1 or above | medium, not executed | CounselorDocuments.NextAsWrittenLeavesPageRange | CounselorDocuments.Next |
| src/App.tsx:84 | the loading screen shows when `isAdmin && !adminData && adminData[0]` | `adminData` starts as `[]` and the fetch sets it to the array the backend returns, in the same batched update that clears the flag (src/App.tsx:67-69), so whenever the flag is set `!adminData` is false and the screen never shows | show the loading screen while the settings fetch is in flight and no record is held | medium, not executed | App.LoadingUnreachableAsWritten | App.LoadingCheck |
