/** The student document-upload page (src/pages/student/DocumentUpload.tsx):
    a phone-number gate, per-slot multi-file uploads to the image or PDF host,
    and one finalize call once every required slot holds a file.
    The page state is the class `UploadPage`; network answers are inputs. */
module DocumentUpload {
  import opened Common
  import opened Text
  import Seqs
  import opened Hosting

  // ---------------------------------------------------------------------------
  // Entities
  // ---------------------------------------------------------------------------

  /** A lead fetched from the backend; only its phone matters here, and it may be missing. */
  datatype Lead = Lead(phone: Option<string>)

  /** One uploaded file as stored in its slot. */
  datatype FileRecord = FileRecord(id: string, name: string, size: nat, url: string, thumbnail: string)

  /** One document slot of the page. */
  datatype SlotDefinition = SlotDefinition(id: string, caption: string, required: bool)

  /** The eight slots, in display order; the first three are required. */
  const DocumentTypes: seq<SlotDefinition> := [
    SlotDefinition("transcript", "Academic Transcript", true),
    SlotDefinition("ielts", "IELTS Score Report", true),
    SlotDefinition("passport", "Passport Copy", true),
    SlotDefinition("cv", "Curriculum Vitae (CV)", false),
    SlotDefinition("sop", "Statement of Purpose", false),
    SlotDefinition("recommendation", "Recommendation Letters", false),
    SlotDefinition("financial", "Financial Documents", false),
    SlotDefinition("other", "Other Documents", false)
  ]

  // ---------------------------------------------------------------------------
  // Phone verification
  // ---------------------------------------------------------------------------

  const MinPhoneLength := 10
  const InvalidPhoneMessage := "Please enter a valid phone number"
  const UnregisteredPhoneMessage := "Please try with registered phone number"

  /** A lead matches when it has a phone equal to the input once white space is removed from both. */
  predicate PhoneMatches(lead: Lead, phone: string) {
    lead.phone.Some? && StripSpaces(lead.phone.value) == StripSpaces(phone)
  }

  /** `leads.some(lead => ...)`: true exactly when some lead matches. */
  function SomeLeadMatches(leads: seq<Lead>, phone: string): (r: bool)
    ensures r <==> exists i :: 0 <= i < |leads| && PhoneMatches(leads[i], phone)
  {
    if leads == [] then false
    else
      assert forall i :: 1 <= i < |leads| ==> leads[i] == leads[1..][i - 1];
      PhoneMatches(leads[0], phone) || SomeLeadMatches(leads[1..], phone)
  }

  /** `data?.some(...)`: no lead list (the fetch gave nothing) means not registered. */
  predicate IsRegistered(data: Option<seq<Lead>>, phone: string) {
    data.Some? && SomeLeadMatches(data.value, phone)
  }

  /** White space never decides a match: "017 1234 5678" matches a lead stored as "01712345678". */
  lemma SpacesNeverDecideMatch(lead: Lead, a: string, b: string)
    requires StripSpaces(a) == StripSpaces(b)
    ensures PhoneMatches(lead, a) <==> PhoneMatches(lead, b)
  {
  }

  // ---------------------------------------------------------------------------
  // Pre-flight checks and one file's upload
  // ---------------------------------------------------------------------------

  const UnsupportedTypeMessage := "Unsupported file type. Only PDF, PNG, JPG, JPEG allowed."
  const GenericUploadFailure := "Failed to upload file"

  /** `name.split(".").pop().toLowerCase()`: the text after the last dot (the whole name
      when there is no dot), lower-cased. */
  function Extension(name: string): string {
    ToLower(LastPiece(name, '.'))
  }

  predicate IsImageExtension(ext: string) {
    ext == "png" || ext == "jpg" || ext == "jpeg"
  }

  /** The checks made before any transfer: the size limit first, then the extension,
      which selects the host. */
  function Preflight(file: SelectedFile): (r: Result<Host>)
    ensures file.size > MaxUploadBytes ==> r == Err(TooLargeMessage)
    ensures r.Ok? <==> file.size <= MaxUploadBytes && (IsImageExtension(Extension(file.name)) || Extension(file.name) == "pdf")
    ensures r == Ok(ImageHost) <==> file.size <= MaxUploadBytes && IsImageExtension(Extension(file.name))
    ensures r.Err? && file.size <= MaxUploadBytes ==> r.message == UnsupportedTypeMessage
  {
    if file.size > MaxUploadBytes then Err(TooLargeMessage)
    else
      var ext := Extension(file.name);
      if IsImageExtension(ext) then Ok(ImageHost)
      else if ext == "pdf" then Ok(PdfHost)
      else Err(UnsupportedTypeMessage)
  }

  /** `uploadFile(file)`: the URL the host returned, or the message raised. */
  function UploadOne(file: SelectedFile, outcome: TransferOutcome): Result<string> {
    match Preflight(file)
    case Err(m) => Err(m)
    case Ok(host) => Transfer(host, outcome)
  }

  /** A file rejected by the pre-flight checks is never transferred: what the host would have
      answered makes no difference. */
  lemma PreflightComesFirst(file: SelectedFile, o1: TransferOutcome, o2: TransferOutcome)
    requires Preflight(file).Err?
    ensures UploadOne(file, o1) == UploadOne(file, o2) == Err(Preflight(file).message)
  {
  }

  /** The limit is inclusive: exactly 10 MiB passes, one byte more does not. */
  lemma SizeLimitBoundary(name: string)
    requires Extension(name) == "pdf"
    ensures Preflight(SelectedFile(name, 10 * 1024 * 1024)) == Ok(PdfHost)
    ensures Preflight(SelectedFile(name, 10 * 1024 * 1024 + 1)) == Err(TooLargeMessage)
  {
  }

  /** The extension is the text after the last dot, compared without regard to ASCII case:
      "scan.PDF" goes to the PDF host, and a name with no dot is its own extension. */
  lemma ExtensionAfterLastDot(base: string, ext: string)
    requires '.' !in ext
    ensures Extension(base + ['.'] + ext) == ToLower(ext)
    ensures '.' !in base ==> Extension(base) == ToLower(base)
  {
    Text.LastPieceAfterSeparator(base, ext, '.');
    if '.' !in base {
      Text.SplitWithoutSeparator(base, '.');
    }
  }

  // ---------------------------------------------------------------------------
  // A batch of files for one slot
  // ---------------------------------------------------------------------------

  /** One file of a batch: the file, the random id its record would get, and what the host
      would answer if the file reached it. */
  datatype Attempt = Attempt(file: SelectedFile, id: string, outcome: TransferOutcome)

  /** The record an attempt adds: only a transfer that returned a non-empty URL adds one. */
  function Added(a: Attempt): Option<FileRecord> {
    match UploadOne(a.file, a.outcome)
    case Ok(url) => if url != "" then Some(FileRecord(a.id, a.file.name, a.file.size, url, url)) else None
    case Err(_) => None
  }

  predicate Succeeds(a: Attempt) {
    Added(a).Some?
  }

  /** The message an attempt writes into its slot's error entry, if it failed. */
  function Failure(a: Attempt): (r: Option<string>)
    ensures r.Some? ==> r.value != ""
    ensures r.Some? ==> !Succeeds(a)
  {
    match UploadOne(a.file, a.outcome)
    case Ok(_) => None
    case Err(m) => Some(OrElse(m, GenericUploadFailure))
  }

  /** An attempt fails exactly when the checks or the host raised an error, and it writes
      that error's message, or "Failed to upload file" when the message is empty. */
  lemma FailureMessage(a: Attempt)
    ensures Failure(a).Some? <==> UploadOne(a.file, a.outcome).Err?
    ensures var u := UploadOne(a.file, a.outcome);
      u.Err? && u.message != "" ==> Failure(a) == Some(u.message)
    ensures var u := UploadOne(a.file, a.outcome);
      u.Err? && u.message == "" ==> Failure(a) == Some(GenericUploadFailure)
  {
  }

  /** The records a batch collects, in the batch's order. */
  function BatchRecords(batch: seq<Attempt>): (r: seq<FileRecord>)
    ensures |r| <= |batch|
    ensures forall k :: 0 <= k < |r| ==> r[k].url != "" && r[k].thumbnail == r[k].url
  {
    if batch == [] then []
    else
      var last := batch[|batch| - 1];
      BatchRecords(batch[..|batch| - 1]) + (if Succeeds(last) then [Added(last).value] else [])
  }

  /** The message of the last failing attempt of a batch, if any failed. */
  function LastFailure(batch: seq<Attempt>): (r: Option<string>)
    ensures r.Some? ==> r.value != ""
  {
    if batch == [] then None
    else
      var last := batch[|batch| - 1];
      if Failure(last).Some? then Failure(last) else LastFailure(batch[..|batch| - 1])
  }

  /** A batch collects one record per succeeding file, in file order: exactly the succeeding
      attempts, each turned into its record. */
  lemma {:induction false} BatchRecordsAreSuccesses(batch: seq<Attempt>)
    ensures var ok := Seqs.Filter(batch, Succeeds);
      |BatchRecords(batch)| == |ok| &&
      forall k :: 0 <= k < |ok| ==> BatchRecords(batch)[k] == Added(ok[k]).value
  {
    if batch != [] {
      var init, last := batch[..|batch| - 1], batch[|batch| - 1];
      BatchRecordsAreSuccesses(init);
      assert batch == init + [last];
      Seqs.FilterAppend(init, [last], Succeeds);
    }
  }

  /** No failure message is left exactly when no file of the batch failed. */
  lemma {:induction false} LastFailureNone(batch: seq<Attempt>)
    ensures LastFailure(batch).None? <==> forall i :: 0 <= i < |batch| ==> Failure(batch[i]).None?
  {
    if batch != [] {
      var init := batch[..|batch| - 1];
      LastFailureNone(init);
      assert forall i :: 0 <= i < |init| ==> init[i] == batch[i];
    }
  }

  /** Attempt `i` failed with the batch's last failure and no later attempt failed. */
  predicate LatestFailureAt(batch: seq<Attempt>, i: int) {
    && 0 <= i < |batch| && Failure(batch[i]) == LastFailure(batch)
    && forall j :: i < j < |batch| ==> Failure(batch[j]).None?
  }

  /** The error a batch leaves is the message of its last failing file. */
  lemma {:induction false} LastFailureIsLatest(batch: seq<Attempt>)
    requires LastFailure(batch).Some?
    ensures exists i :: LatestFailureAt(batch, i)
  {
    var n := |batch|;
    if Failure(batch[n - 1]).None? {
      var init := batch[..n - 1];
      assert LastFailure(batch) == LastFailure(init);
      LastFailureIsLatest(init);
      var i :| LatestFailureAt(init, i);
      assert init[i] == batch[i];
      forall j | i < j < n ensures Failure(batch[j]).None? {
        if j < n - 1 {
          assert init[j] == batch[j];
        }
      }
      assert LatestFailureAt(batch, i);
    } else {
      assert LatestFailureAt(batch, n - 1);
    }
  }

  /** One more file of a batch: its record, if any, goes last and its failure, if any, becomes
      the latest. */
  lemma BatchStep(batch: seq<Attempt>, i: nat)
    requires i < |batch|
    ensures BatchRecords(batch[..i + 1]) ==
      BatchRecords(batch[..i]) + (if Succeeds(batch[i]) then [Added(batch[i]).value] else [])
    ensures LastFailure(batch[..i + 1]) ==
      (if Failure(batch[i]).Some? then Failure(batch[i]) else LastFailure(batch[..i]))
  {
    assert batch[..i + 1][..i] == batch[..i];
  }

  /** The files a slot holds: none when the slot has no entry. */
  function SlotFiles(docs: map<string, seq<FileRecord>>, slot: string): seq<FileRecord> {
    if slot in docs then docs[slot] else []
  }

  /** The document map after a batch for `slot`. */
  function DocumentsAfterBatch(docs: map<string, seq<FileRecord>>, slot: string, batch: seq<Attempt>): (r: map<string, seq<FileRecord>>)
    ensures forall s :: s != slot ==> (s in r <==> s in docs)
    ensures forall s :: s != slot && s in docs ==> r[s] == docs[s]
  {
    var added := BatchRecords(batch);
    if |added| > 0 then docs[slot := SlotFiles(docs, slot) + added] else docs
  }

  /** The error map while a batch runs: every failure overwrites the slot's entry. */
  function ErrorsDuringBatch(errors: map<string, string>, slot: string, batch: seq<Attempt>): map<string, string> {
    match LastFailure(batch)
    case Some(m) => errors[slot := m]
    case None => errors
  }

  /** The error map after a batch: cleared for the slot when anything succeeded. */
  function ErrorsAfterBatch(errors: map<string, string>, slot: string, batch: seq<Attempt>): (r: map<string, string>)
    ensures forall s :: s != slot ==> (s in r <==> s in errors)
    ensures forall s :: s != slot && s in errors ==> r[s] == errors[s]
  {
    if |BatchRecords(batch)| > 0 then errors[slot := ""] else ErrorsDuringBatch(errors, slot, batch)
  }

  /** What one batch does to the two maps: the slot's list grows by the succeeding files in
      order, nothing else moves, and the slot's error is cleared on any success or else
      becomes the last failure's message. */
  lemma BatchEffect(docs: map<string, seq<FileRecord>>, errors: map<string, string>, slot: string, batch: seq<Attempt>)
    ensures var docs', ok := DocumentsAfterBatch(docs, slot, batch), Seqs.Filter(batch, Succeeds);
      && (forall s :: s != slot ==> (s in docs' <==> s in docs) && (s in docs ==> docs'[s] == docs[s]))
      && (|ok| == 0 ==> docs' == docs)
      && (|ok| > 0 ==>
            && slot in docs'
            && |docs'[slot]| == |SlotFiles(docs, slot)| + |ok|
            && docs'[slot][..|SlotFiles(docs, slot)|] == SlotFiles(docs, slot)
            && forall k :: 0 <= k < |ok| ==> docs'[slot][|SlotFiles(docs, slot)| + k] == Added(ok[k]).value)
    ensures var errors', ok := ErrorsAfterBatch(errors, slot, batch), Seqs.Filter(batch, Succeeds);
      && (forall s :: s != slot ==> (s in errors' <==> s in errors) && (s in errors ==> errors'[s] == errors[s]))
      && (|ok| > 0 ==> slot in errors' && errors'[slot] == "")
      && (|ok| == 0 && LastFailure(batch).Some? ==> slot in errors' && errors'[slot] == LastFailure(batch).value)
      && (|ok| == 0 && LastFailure(batch).None? ==> errors' == errors)
  {
    BatchRecordsAreSuccesses(batch);
  }

  /** `files.filter(file => file.id !== fileId)`. */
  function WithoutId(files: seq<FileRecord>, id: string): (r: seq<FileRecord>)
    ensures |r| <= |files|
    ensures forall k :: 0 <= k < |r| ==> r[k].id != id
  {
    Seqs.Filter(files, (f: FileRecord) => f.id != id)
  }

  /** Removal drops exactly the records with that id, keeps the others in order, and shortens
      the list by the number of records that had it. */
  lemma RemovalEffect(files: seq<FileRecord>, id: string)
    ensures forall f :: f in WithoutId(files, id) <==> f in files && f.id != id
    ensures Seqs.IsSubsequence(WithoutId(files, id), files)
    ensures |WithoutId(files, id)| == |files| - |Seqs.Filter(files, (f: FileRecord) => f.id == id)|
    ensures (forall k :: 0 <= k < |files| ==> files[k].id != id) ==> WithoutId(files, id) == files
  {
    var keep := (f: FileRecord) => f.id != id;
    forall f ensures f in WithoutId(files, id) <==> f in files && f.id != id {
      Seqs.FilterMembership(files, keep, f);
    }
    Seqs.FilterIsSubsequence(files, keep);
    Seqs.FilterPartition(files, keep, (f: FileRecord) => f.id == id);
    if forall k :: 0 <= k < |files| ==> files[k].id != id {
      Seqs.FilterKeepsAll(files, keep);
    }
  }

  // ---------------------------------------------------------------------------
  // Submission guard
  // ---------------------------------------------------------------------------

  /** The alert shown when a required slot is empty, and the one shown when the request fails. */
  const MissingDocumentsMessage := "Please upload all required documents before submitting."
  const SubmitFailedMessage := "Something went wrong. Try again later."

  predicate SlotEmpty(docs: map<string, seq<FileRecord>>, id: string) {
    id !in docs || |docs[id]| == 0
  }

  /** `defs.some(doc => !documents[doc.id] || documents[doc.id].length === 0)`. */
  function SomeSlotEmpty(defs: seq<SlotDefinition>, docs: map<string, seq<FileRecord>>): (r: bool)
    ensures r <==> exists k :: 0 <= k < |defs| && SlotEmpty(docs, defs[k].id)
  {
    if defs == [] then false
    else
      assert forall k :: 1 <= k < |defs| ==> defs[k] == defs[1..][k - 1];
      SlotEmpty(docs, defs[0].id) || SomeSlotEmpty(defs[1..], docs)
  }

  /** `documentTypes.filter(doc => doc.required)`. */
  function RequiredSlots(): seq<SlotDefinition> {
    Seqs.Filter(DocumentTypes, (d: SlotDefinition) => d.required)
  }

  predicate MissingRequired(docs: map<string, seq<FileRecord>>) {
    SomeSlotEmpty(RequiredSlots(), docs)
  }

  /** The required slots are the first three, in display order. */
  lemma RequiredSlotsAreFirstThree()
    ensures RequiredSlots() == DocumentTypes[..3]
  {
    var req := (d: SlotDefinition) => d.required;
    var tail := DocumentTypes[3..];
    assert DocumentTypes == DocumentTypes[..3] + tail;
    Seqs.FilterAppend(DocumentTypes[..3], tail, req);
    Seqs.FilterKeepsAll(DocumentTypes[..3], req);
    Seqs.FilterPartition(tail, (d: SlotDefinition) => !d.required, req);
    Seqs.FilterKeepsAll(tail, (d: SlotDefinition) => !d.required);
  }

  /** Submission is blocked exactly when the transcript, IELTS or passport slot is absent or empty. */
  lemma MissingRequiredIff(docs: map<string, seq<FileRecord>>)
    ensures MissingRequired(docs) <==>
      SlotEmpty(docs, "transcript") || SlotEmpty(docs, "ielts") || SlotEmpty(docs, "passport")
  {
    RequiredSlotsAreFirstThree();
    var req := DocumentTypes[..3];
    assert req[0].id == "transcript" && req[1].id == "ielts" && req[2].id == "passport";
  }

  /** The optional slots never decide whether submission may go ahead. */
  lemma OptionalSlotsNeverBlock(docs: map<string, seq<FileRecord>>, slot: string, files: seq<FileRecord>)
    requires slot != "transcript" && slot != "ielts" && slot != "passport"
    ensures MissingRequired(docs[slot := files]) == MissingRequired(docs)
  {
    MissingRequiredIff(docs);
    MissingRequiredIff(docs[slot := files]);
  }

  /** The single finalize request: the verified phone and every slot's records. */
  datatype FinalizeCall = FinalizeCall(phone: string, documents: map<string, seq<FileRecord>>)

  /** Which of the page's three views is shown. */
  datatype Screen = PhoneForm | UploadForm | ThankYou

  // ---------------------------------------------------------------------------
  // The page state
  // ---------------------------------------------------------------------------

  class UploadPage {
    var phoneNumber: string
    var verificationError: string
    var isVerified: bool
    var isSubmitted: bool
    var documents: map<string, seq<FileRecord>>
    var uploadErrors: map<string, string>

    /** Every stored record came from a transfer that returned a URL, which is also its thumbnail. */
    ghost predicate Valid()
      reads this
    {
      forall s, k :: s in documents && 0 <= k < |documents[s]| ==>
        documents[s][k].url != "" && documents[s][k].thumbnail == documents[s][k].url
    }

    /** The view the page renders: the thank-you page after submission, else the phone form
        until verified, else the upload slots. */
    function Screen(): Screen
      reads this
    {
      if isSubmitted then ThankYou else if !isVerified then PhoneForm else UploadForm
    }

    constructor ()
      ensures Valid() && Screen() == PhoneForm
      ensures phoneNumber == "" && verificationError == ""
      ensures documents == map[] && uploadErrors == map[]
    {
      phoneNumber, verificationError := "", "";
      isVerified, isSubmitted := false, false;
      documents, uploadErrors := map[], map[];
    }

    /** Typing in the phone field stores the text and clears the verification error. */
    method EditPhone(value: string)
      modifies this`phoneNumber, this`verificationError
      ensures phoneNumber == value && verificationError == ""
    {
      phoneNumber := value;
      verificationError := "";
    }

    /** `handlePhoneVerification`: a raw input shorter than 10 characters is refused without a
        lookup; otherwise the page is verified exactly when some lead's phone matches. */
    method VerifyPhone(data: Option<seq<Lead>>) returns (lookedUp: bool)
      modifies this`isVerified, this`verificationError
      ensures lookedUp <==> |phoneNumber| >= MinPhoneLength
      ensures !lookedUp ==> verificationError == InvalidPhoneMessage && isVerified == old(isVerified)
      ensures lookedUp && IsRegistered(data, phoneNumber) ==> isVerified && verificationError == ""
      ensures lookedUp && !IsRegistered(data, phoneNumber) ==>
        isVerified == old(isVerified) && verificationError == UnregisteredPhoneMessage
    {
      if |phoneNumber| < MinPhoneLength {
        verificationError := InvalidPhoneMessage;
        return false;
      }
      verificationError := "";
      if IsRegistered(data, phoneNumber) {
        isVerified := true;
        verificationError := "";
      } else {
        verificationError := UnregisteredPhoneMessage;
      }
      return true;
    }

    /** `handleFileUpload`: every file of the batch is checked and sent on its own; each failure
        overwrites the slot's error; afterwards the successes are appended to the slot and, if
        there was any, the slot's error is cleared. */
    method HandleFileUpload(slot: string, files: Option<seq<Attempt>>)
      requires Valid()
      modifies this`documents, this`uploadErrors
      ensures Valid()
      ensures files.None? ==> documents == old(documents) && uploadErrors == old(uploadErrors)
      ensures files.Some? ==> documents == DocumentsAfterBatch(old(documents), slot, files.value)
      ensures files.Some? ==> uploadErrors == ErrorsAfterBatch(old(uploadErrors), slot, files.value)
    {
      if files.None? {
        return;
      }
      var batch := files.value;
      var uploaded: seq<FileRecord> := [];
      var i := 0;
      while i < |batch|
        invariant 0 <= i <= |batch|
        invariant uploaded == BatchRecords(batch[..i])
        invariant documents == old(documents)
        invariant uploadErrors == ErrorsDuringBatch(old(uploadErrors), slot, batch[..i])
      {
        var a := batch[i];
        BatchStep(batch, i);
        match UploadOne(a.file, a.outcome) {
          case Ok(url) =>
            if url != "" {
              uploaded := uploaded + [FileRecord(a.id, a.file.name, a.file.size, url, url)];
            }
          case Err(m) =>
            uploadErrors := uploadErrors[slot := OrElse(m, GenericUploadFailure)];
        }
        i := i + 1;
      }
      assert batch[..i] == batch;
      if |uploaded| > 0 {
        documents := documents[slot := SlotFiles(documents, slot) + uploaded];
        uploadErrors := uploadErrors[slot := ""];
      }
    }

    /** `removeFile`: the slot loses every record with that id and its error is cleared.
        The slot must exist, as the source reads `prev[documentType]` unguarded. */
    method RemoveFile(slot: string, fileId: string)
      requires Valid()
      requires slot in documents
      modifies this`documents, this`uploadErrors
      ensures Valid()
      ensures documents == old(documents)[slot := WithoutId(old(documents)[slot], fileId)]
      ensures uploadErrors == old(uploadErrors)[slot := ""]
    {
      var kept := WithoutId(documents[slot], fileId);
      forall k | 0 <= k < |kept| ensures kept[k] in documents[slot] {
        Seqs.FilterMembership(documents[slot], (f: FileRecord) => f.id != fileId, kept[k]);
      }
      documents := documents[slot := kept];
      uploadErrors := uploadErrors[slot := ""];
    }

    /** `handleSubmitDocuments`: no request while a required slot is empty; otherwise exactly one
        finalize request carrying the phone and all slots, and only its success ends the flow. */
    method SubmitDocuments(finalizeSucceeds: bool) returns (call: Option<FinalizeCall>, alert: Option<string>)
      modifies this`isSubmitted
      ensures call.None? <==> MissingRequired(documents)
      ensures call.None? ==> alert == Some(MissingDocumentsMessage)
      ensures call.Some? ==> call.value == FinalizeCall(phoneNumber, documents)
      ensures call.Some? ==> alert == (if finalizeSucceeds then None else Some(SubmitFailedMessage))
      ensures isSubmitted <==> old(isSubmitted) || (call.Some? && finalizeSucceeds)
      ensures call.Some? && finalizeSucceeds ==> Screen() == ThankYou
    {
      if MissingRequired(documents) {
        return None, Some(MissingDocumentsMessage);
      }
      call := Some(FinalizeCall(phoneNumber, documents));
      alert := None;
      if finalizeSucceeds {
        isSubmitted := true;
      } else {
        alert := Some(SubmitFailedMessage);
      }
    }
  }
}
