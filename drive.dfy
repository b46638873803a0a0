/**
  * The Google Drive ingestion service: recognising Drive folder and file
  * links, classifying a file by name and MIME type, turning the extractor's
  * outcome into the text that is stored, and the two sync procedures that
  * write resources into the database and documents into the vector store.
  *
  * The Drive API, OAuth, downloading and the format extractors are not
  * modelled: what they return (the folder listing, whether a download
  * raised, what an extractor produced, whether a database save failed) is
  * an input.
  */
module Drive {
  import opened Text
  import opened Store
  import VectorIndex

  // ---------------------------------------------------------------------
  // Link recognition: re.search(marker + "([a-zA-Z0-9_-]+)", url)
  // ---------------------------------------------------------------------

  const FolderMarker := "/folders/"
  const FileMarker := "/file/d/"

  /** The class `[a-zA-Z0-9_-]`. */
  predicate IdChar(c: char) {
    IsLetter(c) || IsDigit(c) || c == '_' || c == '-'
  }

  /** End of the longest run of id characters starting at `i` (the greedy `+`). */
  function IdRunEnd(s: string, i: nat): (e: nat)
    requires i <= |s|
    ensures i <= e <= |s|
    ensures forall k :: i <= k < e ==> IdChar(s[k])
    ensures e == |s| || !IdChar(s[e])
    decreases |s| - i
  {
    if i < |s| && IdChar(s[i]) then IdRunEnd(s, i + 1) else i
  }

  /** A run that ends at a non-id character (or the end) is the greedy run. */
  lemma {:induction false} IdRunEndAt(s: string, i: nat, j: nat)
    requires i <= j <= |s|
    requires forall k :: i <= k < j ==> IdChar(s[k])
    requires j == |s| || !IdChar(s[j])
    ensures IdRunEnd(s, i) == j
    decreases j - i
  {
    if i < j {
      IdRunEndAt(s, i + 1, j);
    }
  }

  /** The pattern matches at `p`: the marker, then at least one id character. */
  predicate MatchAt(s: string, marker: string, p: int) {
    OccursAt(s, marker, p) && p + |marker| < |s| && IdChar(s[p + |marker|])
  }

  /** The leftmost match at or after `from`. */
  function FirstMatch(s: string, marker: string, from: nat): (r: Option<nat>)
    ensures r.Some? ==> from <= r.value && MatchAt(s, marker, r.value)
    ensures r.Some? ==> forall q :: from <= q < r.value ==> !MatchAt(s, marker, q)
    ensures r.None? ==> forall q :: from <= q ==> !MatchAt(s, marker, q)
    decreases |s| - from
  {
    if from >= |s| then None
    else if MatchAt(s, marker, from) then Some(from)
    else FirstMatch(s, marker, from + 1)
  }

  /** `match.group(1)` of the search, or None when nothing matches. */
  function SearchId(s: string, marker: string): (r: Option<string>)
    ensures r.None? <==> forall q :: !MatchAt(s, marker, q)
    ensures r.Some? ==> r.value != [] && forall k :: 0 <= k < |r.value| ==> IdChar(r.value[k])
  {
    match FirstMatch(s, marker, 0)
    case None => None
    case Some(p) => Some(s[p + |marker|..IdRunEnd(s, p + |marker|)])
  }

  datatype IdResult = Found(id: string) | Invalid(message: string)

  /** `is_gdrive_folder`: `bool(re.search(...))`. */
  predicate IsGdriveFolder(url: string) {
    SearchId(url, FolderMarker).Some?
  }

  /** `is_gdrive_file` */
  predicate IsGdriveFile(url: string) {
    SearchId(url, FileMarker).Some?
  }

  /** `extract_folder_id`: the id after the leftmost "/folders/", or the ValueError's message. */
  function ExtractFolderId(url: string): (r: IdResult)
    ensures r.Found? <==> IsGdriveFolder(url)
    ensures r.Found? <==> exists q :: MatchAt(url, FolderMarker, q)
    ensures r.Found? ==> r.id != [] && forall k :: 0 <= k < |r.id| ==> IdChar(r.id[k])
    ensures r.Invalid? ==> r.message == "Invalid Google Drive folder URL: " + url
  {
    match SearchId(url, FolderMarker)
    case Some(id) => Found(id)
    case None => Invalid("Invalid Google Drive folder URL: " + url)
  }

  /** `extract_file_id`: the id after the leftmost "/file/d/", or the ValueError's message. */
  function ExtractFileId(url: string): (r: IdResult)
    ensures r.Found? <==> IsGdriveFile(url)
    ensures r.Found? <==> exists q :: MatchAt(url, FileMarker, q)
    ensures r.Found? ==> r.id != [] && forall k :: 0 <= k < |r.id| ==> IdChar(r.id[k])
    ensures r.Invalid? ==> r.message == "Invalid Google Drive file URL: " + url
  {
    match SearchId(url, FileMarker)
    case Some(id) => Found(id)
    case None => Invalid("Invalid Google Drive file URL: " + url)
  }

  const DriveHost := "https://drive.google.com"

  /** The sharing link the folder sync stores for a file. */
  function FileUrl(id: string): string {
    DriveHost + FileMarker + id + "/view?usp=sharing"
  }

  /** The only slashes in the host part are the two after "https:". */
  lemma HostSlashes()
    ensures |DriveHost| == 24 && DriveHost[7] == '/' && DriveHost[8] == 'd'
    ensures forall p :: 0 <= p < |DriveHost| && DriveHost[p] == '/' ==> p == 6 || p == 7
  {
  }

  /**
    * The link built for a Drive file id is recognised as a file link and
    * gives back exactly that id.
    */
  lemma FileUrlRoundTrip(id: string)
    requires id != [] && forall k :: 0 <= k < |id| ==> IdChar(id[k])
    ensures IsGdriveFile(FileUrl(id))
    ensures ExtractFileId(FileUrl(id)) == Found(id)
  {
    var u := FileUrl(id);
    var m := |FileMarker|;
    HostSlashes();
    assert u[24..24 + m] == FileMarker;
    assert u[24 + m] == id[0];
    assert MatchAt(u, FileMarker, 24);
    forall q | 0 <= q < 24 ensures !MatchAt(u, FileMarker, q) {
      assert u[q] == DriveHost[q];
      if q == 6 || q == 7 {
        assert u[q + 1] == DriveHost[q + 1];
        assert u[q..q + m][1] == u[q + 1];
      } else {
        assert u[q..q + m][0] == u[q];
      }
    }
    var p := FirstMatch(u, FileMarker, 0);
    assert p == Some(24);
    assert forall k :: 24 + m <= k < 24 + m + |id| ==> u[k] == id[k - (24 + m)];
    assert u[24 + m + |id|] == '/';
    IdRunEndAt(u, 24 + m, 24 + m + |id|);
    assert u[24 + m..24 + m + |id|] == id;
  }

  // ---------------------------------------------------------------------
  // File classification and text extraction
  // ---------------------------------------------------------------------

  const PdfMime := "application/pdf"
  const DocxMime := "application/vnd.openxmlformats-officedocument.wordprocessingml.document"
  const PptxMime := "application/vnd.openxmlformats-officedocument.presentationml.presentation"
  const XlsxMime := "application/vnd.openxmlformats-officedocument.spreadsheetml.sheet"
  const GoogleAppsPrefix := "application/vnd.google-apps."
  const GoogleDocMime := GoogleAppsPrefix + "document"
  const GoogleSheetMime := GoogleAppsPrefix + "spreadsheet"
  const GoogleSlidesMime := GoogleAppsPrefix + "presentation"

  /** The types `guess_file_type` can answer. */
  const FileTypes := {"pdf", "docx", "pptx", "txt", "xlsx", "csv"}

  /** The types `extract_text_from_bytes` has an extractor for (no "pptx"). */
  const ExtractableTypes := {"pdf", "docx", "txt", "xlsx", "csv"}

  /** `name.lower()` ends with one of the six extensions. */
  predicate KnownExtension(name: string) {
    var n := Lower(name);
    EndsWith(n, ".pdf") || EndsWith(n, ".docx") || EndsWith(n, ".pptx")
    || EndsWith(n, ".txt") || EndsWith(n, ".xlsx") || EndsWith(n, ".csv")
  }

  /** The MIME types `guess_file_type` compares against. */
  predicate KnownMime(mime: string) {
    mime == PdfMime || mime == DocxMime || mime == PptxMime || mime == "text/plain"
    || mime == XlsxMime || mime == "text/csv"
    || mime == GoogleDocMime || mime == GoogleSheetMime || mime == GoogleSlidesMime
  }

  /** `guess_file_type`: the first matching branch decides, testing MIME type or extension in turn. */
  function GuessFileType(name: string, mime: string): (r: Option<string>)
    ensures r.Some? ==> r.value in FileTypes
    ensures !KnownExtension(name) && !KnownMime(mime) ==> r.None?
    ensures KnownExtension(name) || KnownMime(mime) ==> r.Some?
  {
    GoogleDocWords();
    GoogleSheetWords();
    GoogleSlidesWords();
    var n := Lower(name);
    if mime == PdfMime || EndsWith(n, ".pdf") then Some("pdf")
    else if mime == DocxMime || EndsWith(n, ".docx") then Some("docx")
    else if mime == PptxMime || EndsWith(n, ".pptx") then Some("pptx")
    else if mime == "text/plain" || EndsWith(n, ".txt") then Some("txt")
    else if mime == XlsxMime || EndsWith(n, ".xlsx") then Some("xlsx")
    else if mime == "text/csv" || EndsWith(n, ".csv") then Some("csv")
    else if mime == GoogleDocMime || mime == GoogleSheetMime || mime == GoogleSlidesMime then
      if Contains(mime, "document") then Some("docx")
      else if Contains(mime, "spreadsheet") then Some("xlsx")
      else if Contains(mime, "presentation") then Some("pptx")
      else None
    else None
  }

  /** Neither "m" (in "document") nor "h" (in "spreadsheet") occurs in the shared prefix. */
  lemma GoogleAppsPrefixLetters()
    ensures forall i :: 0 <= i < |GoogleAppsPrefix| ==> GoogleAppsPrefix[i] != 'm' && GoogleAppsPrefix[i] != 'h'
  {
  }

  lemma GoogleDocWords()
    ensures Contains(GoogleDocMime, "document")
  {
    assert OccursAt(GoogleDocMime, "document", |GoogleAppsPrefix|);
    ContainsIff(GoogleDocMime, "document");
  }

  lemma GoogleSheetWords()
    ensures !Contains(GoogleSheetMime, "document") && Contains(GoogleSheetMime, "spreadsheet")
  {
    GoogleAppsPrefixLetters();
    assert "document"[4] == 'm';
    forall i | 0 <= i < |GoogleSheetMime| ensures GoogleSheetMime[i] != 'm' {
      if i < |GoogleAppsPrefix| {
        assert GoogleSheetMime[i] == GoogleAppsPrefix[i];
      } else {
        assert GoogleSheetMime[i] == "spreadsheet"[i - |GoogleAppsPrefix|];
      }
    }
    NotContainsChar(GoogleSheetMime, "document", 4);
    assert OccursAt(GoogleSheetMime, "spreadsheet", |GoogleAppsPrefix|);
    ContainsIff(GoogleSheetMime, "spreadsheet");
  }

  lemma GoogleSlidesWords()
    ensures !Contains(GoogleSlidesMime, "document") && !Contains(GoogleSlidesMime, "spreadsheet")
    ensures Contains(GoogleSlidesMime, "presentation")
  {
    GoogleAppsPrefixLetters();
    assert "document"[4] == 'm' && "spreadsheet"[7] == 'h';
    forall i | 0 <= i < |GoogleSlidesMime| ensures GoogleSlidesMime[i] != 'm' && GoogleSlidesMime[i] != 'h' {
      if i < |GoogleAppsPrefix| {
        assert GoogleSlidesMime[i] == GoogleAppsPrefix[i];
      } else {
        assert GoogleSlidesMime[i] == "presentation"[i - |GoogleAppsPrefix|];
      }
    }
    NotContainsChar(GoogleSlidesMime, "document", 4);
    NotContainsChar(GoogleSlidesMime, "spreadsheet", 7);
    assert OccursAt(GoogleSlidesMime, "presentation", |GoogleAppsPrefix|);
    ContainsIff(GoogleSlidesMime, "presentation");
  }

  /** The three Google-native MIME types map to the Office formats they are exported as. */
  lemma GoogleNativeTypes(name: string)
    requires !KnownExtension(name)
    ensures GuessFileType(name, GoogleDocMime) == Some("docx")
    ensures GuessFileType(name, GoogleSheetMime) == Some("xlsx")
    ensures GuessFileType(name, GoogleSlidesMime) == Some("pptx")
  {
    GoogleDocWords();
    GoogleSheetWords();
    GoogleSlidesWords();
  }

  /** The six extension branches of `guess_file_type`, in the order they are tried, with the MIME type each also accepts. */
  const TypeOrder := ["pdf", "docx", "pptx", "txt", "xlsx", "csv"]
  const TypeMimes := [PdfMime, DocxMime, PptxMime, "text/plain", XlsxMime, "text/csv"]

  /** Branch `i` matches: its MIME type, or its extension at the end of the lowercased name. */
  predicate BranchMatches(name: string, mime: string, i: nat)
    requires i < |TypeOrder|
  {
    mime == TypeMimes[i] || EndsWith(Lower(name), "." + TypeOrder[i])
  }

  /** None of the branches before `i` matches. */
  predicate NoBranchBefore(name: string, mime: string, i: nat)
    requires i <= |TypeOrder|
  {
    forall j :: 0 <= j < i ==> !BranchMatches(name, mime, j)
  }

  /** The Office format a Google-native document is exported as. */
  function NativeType(mime: string): (r: Option<string>)
    ensures r.Some? <==> mime in {GoogleDocMime, GoogleSheetMime, GoogleSlidesMime}
  {
    if mime == GoogleDocMime then Some("docx")
    else if mime == GoogleSheetMime then Some("xlsx")
    else if mime == GoogleSlidesMime then Some("pptx")
    else None
  }

  /** `"." + TypeOrder[i]` is the literal extension the branch compares against. */
  lemma Extensions()
    ensures "." + TypeOrder[0] == ".pdf" && "." + TypeOrder[1] == ".docx" && "." + TypeOrder[2] == ".pptx"
    ensures "." + TypeOrder[3] == ".txt" && "." + TypeOrder[4] == ".xlsx" && "." + TypeOrder[5] == ".csv"
  {
  }

  /** The first matching branch decides: branch `i` gives its type exactly when none of the earlier ones matches. */
  lemma GuessFileTypeFirstMatch(name: string, mime: string, i: nat)
    requires i < |TypeOrder| && BranchMatches(name, mime, i) && NoBranchBefore(name, mime, i)
    ensures GuessFileType(name, mime) == Some(TypeOrder[i])
  {
    Extensions();
    if i == 0 {
    } else if i == 1 {
      assert !BranchMatches(name, mime, 0);
    } else if i == 2 {
      assert !BranchMatches(name, mime, 0) && !BranchMatches(name, mime, 1);
    } else if i == 3 {
      assert !BranchMatches(name, mime, 0) && !BranchMatches(name, mime, 1) && !BranchMatches(name, mime, 2);
    } else if i == 4 {
      assert !BranchMatches(name, mime, 0) && !BranchMatches(name, mime, 1) && !BranchMatches(name, mime, 2);
      assert !BranchMatches(name, mime, 3);
    } else {
      assert !BranchMatches(name, mime, 0) && !BranchMatches(name, mime, 1) && !BranchMatches(name, mime, 2);
      assert !BranchMatches(name, mime, 3) && !BranchMatches(name, mime, 4);
    }
  }

  /** Only when none of the six branches matches does the Google-native MIME type decide. */
  lemma GuessFileTypeNative(name: string, mime: string)
    requires NoBranchBefore(name, mime, |TypeOrder|)
    ensures GuessFileType(name, mime) == NativeType(mime)
  {
    Extensions();
    GoogleDocWords();
    GoogleSheetWords();
    GoogleSlidesWords();
    assert !BranchMatches(name, mime, 0) && !BranchMatches(name, mime, 1) && !BranchMatches(name, mime, 2);
    assert !BranchMatches(name, mime, 3) && !BranchMatches(name, mime, 4) && !BranchMatches(name, mime, 5);
  }

  /** A name with a known extension is classified by it whatever the MIME type says, except that an earlier branch's MIME type wins. */
  lemma ExtensionDecides(name: string)
    ensures EndsWith(Lower(name), ".pdf") ==> forall m :: GuessFileType(name, m) == Some("pdf")
    ensures !KnownExtension(name) ==> forall m :: !KnownMime(m) ==> GuessFileType(name, m).None?
  {
  }

  /** What the format extractor did with the downloaded bytes. */
  datatype Extraction = Extracted(text: string) | ExtractorRaised(error: string)

  const ErrorHead := "[ERROR extracting text: "

  /** `extract_text_from_bytes`: dispatch on the type; an exception becomes an ERROR-tagged text. */
  function ExtractTextFromBytes(fileType: string, outcome: Extraction): (r: string)
    ensures fileType !in ExtractableTypes ==> r == "[Unsupported file type: " + fileType + "]"
    ensures fileType in ExtractableTypes && outcome.Extracted? ==> r == outcome.text
    ensures fileType in ExtractableTypes && outcome.ExtractorRaised? ==> r == ErrorHead + outcome.error + "]"
  {
    if fileType in ExtractableTypes then
      match outcome
      case Extracted(t) => t
      case ExtractorRaised(e) => ErrorHead + e + "]"
    else "[Unsupported file type: " + fileType + "]"
  }

  /** The name each format extractor puts in its own error text. */
  function FormatLabel(fileType: string): string {
    if fileType == "pdf" then "PDF"
    else if fileType == "docx" then "DOCX"
    else if fileType == "txt" then "TXT"
    else if fileType == "xlsx" then "XLSX"
    else "CSV"
  }

  /**
    * The text a format extractor returns when its own parsing raises: the
    * exception stays inside the extractor, so the dispatch sees an
    * ordinary extracted text.
    */
  function ExtractorErrorText(fileType: string, e: string): string {
    "[" + FormatLabel(fileType) + " extraction error: " + e + "]"
  }

  /**
    * Only an exception that escapes the dispatch yields a text the
    * resource listings hide (it starts with "[ERROR"); the placeholder of
    * a PowerPoint file, which has no extractor, is listed. (A format
    * extractor's own error text is listed too: ExtractorErrorListed.)
    */
  lemma ExtractionVisibility(fileType: string, e: string, r: Resource)
    ensures fileType in ExtractableTypes ==> ErrorTagged(ExtractTextFromBytes(fileType, ExtractorRaised(e)))
    ensures r.extractedText == Some(ExtractTextFromBytes(fileType, ExtractorRaised(e))) && fileType in ExtractableTypes ==> !Listable(r)
    ensures r.extractedText == Some(ExtractTextFromBytes("pptx", ExtractorRaised(e))) ==> Listable(r)
  {
    var s := ErrorHead + e + "]";
    assert s[..6] == ErrorHead[..6];
    var t := ExtractTextFromBytes("pptx", ExtractorRaised(e));
    assert Lower(t)[1] == 'u';
  }

  /** A format extractor's error text passes the dispatch unchanged and is listed. */
  lemma ExtractorErrorListed(fileType: string, e: string, r: Resource)
    requires fileType in ExtractableTypes
    ensures ExtractTextFromBytes(fileType, Extracted(ExtractorErrorText(fileType, e))) == ExtractorErrorText(fileType, e)
    ensures r.extractedText == Some(ExtractorErrorText(fileType, e)) ==> Listable(r)
  {
    var x := ExtractorErrorText(fileType, e);
    assert x[1] == FormatLabel(fileType)[0];
    assert Lower(x)[1] != 'e';
  }

  /** The stored text: the extractor's output, or a placeholder when that output is blank. */
  function TextToStore(name: string, extracted: string): (r: string)
    ensures HasContent(r)
    ensures HasContent(extracted) ==> r == extracted
    ensures !HasContent(extracted) ==> r == "[No text content found in " + name + "]"
  {
    if !HasContent(extracted) then
      var p := "[No text content found in " + name + "]";
      assert !IsSpace(p[0]);
      p
    else extracted
  }

  // ---------------------------------------------------------------------
  // Folder and single-file sync
  // ---------------------------------------------------------------------

  const MaxSaveAttempts := 3

  /** One entry of the folder listing. */
  datatype DriveFile = DriveFile(id: string, name: string, mimeType: string)

  /** `files().list(...)`: the folder's files, or an exception. */
  datatype Listing = Listed(files: seq<DriveFile>) | ListRaised

  /**
    * The outcomes of the calls the sync makes, per file id or URL:
    * `raises` — downloading or extracting a classified file raised;
    * `extraction` — what the extractor produced;
    * `saveFails(url, a)` — the `a`-th `add_resource` call (from 0) for that URL failed;
    * `vectorFails` — the vector-store upsert for that URL failed.
    */
  datatype Faults = Faults(
    raises: string -> bool,
    extraction: string -> Extraction,
    saveFails: (string, nat) -> bool,
    vectorFails: string -> bool)

  /** Some attempt of the three saves the retry loop makes succeeds. */
  predicate SavesWithin(url: string, saveFails: (string, nat) -> bool) {
    exists a :: 0 <= a < MaxSaveAttempts && !saveFails(url, a)
  }

  datatype FileOutcome = Skipped | Processed | Failed

  /** How the folder sync treats one listed file. */
  function Outcome(f: DriveFile, faults: Faults): FileOutcome {
    if GuessFileType(f.name, f.mimeType).None? then Skipped
    else if faults.raises(f.id) then Failed
    else if SavesWithin(FileUrl(f.id), faults.saveFails) then Processed
    else Failed
  }

  /** The text the sync stores for a classified file whose download succeeded. */
  function StoredText(f: DriveFile, fileType: string, faults: Faults): (r: string)
    ensures HasContent(r)
  {
    TextToStore(f.name, ExtractTextFromBytes(fileType, faults.extraction(f.id)))
  }

  /** Number of files of the listing with the given outcome. */
  function CountOf(files: seq<DriveFile>, o: FileOutcome, faults: Faults): (n: nat)
    ensures n <= |files|
  {
    if files == [] then 0
    else CountOf(files[..|files| - 1], o, faults) + (if Outcome(files[|files| - 1], faults) == o then 1 else 0)
  }

  /** Every listed file is skipped, processed or failed: the three counts add up to the listing's length. */
  lemma {:induction false} CountsPartition(files: seq<DriveFile>, faults: Faults)
    ensures CountOf(files, Skipped, faults) + CountOf(files, Processed, faults) + CountOf(files, Failed, faults) == |files|
  {
    if files != [] {
      CountsPartition(files[..|files| - 1], faults);
    }
  }

  /** The processed count is positive exactly when some listed file is processed. */
  lemma {:induction false} CountPositiveIff(files: seq<DriveFile>, o: FileOutcome, faults: Faults)
    ensures CountOf(files, o, faults) > 0 <==> exists f :: f in files && Outcome(f, faults) == o
  {
    if files != [] {
      var init, last := files[..|files| - 1], files[|files| - 1];
      CountPositiveIff(init, o, faults);
      assert files == init + [last];
      if CountOf(files, o, faults) > 0 {
        if CountOf(init, o, faults) > 0 {
          var f :| f in init && Outcome(f, faults) == o;
          assert f in files;
        } else {
          assert last in files;
        }
      }
      if exists f :: f in files && Outcome(f, faults) == o {
        var f :| f in files && Outcome(f, faults) == o;
        if f != last {
          assert f in init;
        }
      }
    }
  }

  /**
    * The retry loop of the folder sync: up to three `add_resource` calls,
    * stopping at the first success.
    */
  method SaveWithRetry(db: Database, name: string, url: string, fileType: string, uploadedBy: string,
                       text: string, saveFails: (string, nat) -> bool) returns (success: bool, attempts: nat)
    requires db.Valid()
    modifies db
    ensures db.Valid()
    ensures 1 <= attempts <= MaxSaveAttempts
    ensures success <==> SavesWithin(url, saveFails)
    ensures success ==> !saveFails(url, attempts - 1) && forall a :: 0 <= a < attempts - 1 ==> saveFails(url, a)
    ensures !success ==> attempts == MaxSaveAttempts && unchanged(db)
    ensures success ==> db.resources == UpsertResource(old(db.resources), old(db.nextResourceId), old(db.clock), name, url, fileType, uploadedBy, Some(text))
    ensures success ==> IdOfUrl(db.resources, url).Some?
    ensures success ==> db.permissions == old(db.permissions) + AutoGrant(old(db.users), uploadedBy, UpsertedId(old(db.resources), old(db.nextResourceId), url), old(db.nextPermissionId))
    ensures db.users == old(db.users) && db.chats == old(db.chats)
  {
    success := false;
    attempts := 0;
    while attempts < MaxSaveAttempts
      invariant 0 <= attempts <= MaxSaveAttempts
      invariant !success && unchanged(db)
      invariant forall a :: 0 <= a < attempts ==> saveFails(url, a)
    {
      success := db.AddResource(name, url, fileType, uploadedBy, Some(text), saveFails(url, attempts));
      attempts := attempts + 1;
      if success {
        UpsertHasUrl(old(db.resources), old(db.nextResourceId), old(db.clock), name, url, fileType, uploadedBy, Some(text));
        return;
      }
    }
  }

  /**
    * Whether a listed file gets a row written: the saved text after a
    * successful retry loop, or the text-less row of the exception handler.
    */
  predicate SavesRow(f: DriveFile, faults: Faults) {
    && GuessFileType(f.name, f.mimeType).Some?
    && if faults.raises(f.id) then !faults.saveFails(FileUrl(f.id), 0) else SavesWithin(FileUrl(f.id), faults.saveFails)
  }

  /**
    * `ps'` extends `ps`, and every row added grants access to the account
    * carrying the uploader's name, on the uploader's authority; so no row
    * is added when no account has that name.
    */
  ghost predicate AppendsUploaderGrants(ps: seq<Permission>, ps': seq<Permission>, users: seq<User>, uploadedBy: string) {
    && ps <= ps'
    && forall k :: |ps| <= k < |ps'| ==>
         && ps'[k].canAccess && ps'[k].grantedBy == uploadedBy
         && FindUserByName(users, uploadedBy).Some? && ps'[k].userId == FindUserByName(users, uploadedBy).value.id
  }

  lemma AppendsUploaderGrantsTrans(ps: seq<Permission>, ps': seq<Permission>, ps'': seq<Permission>, users: seq<User>, uploadedBy: string)
    requires AppendsUploaderGrants(ps, ps', users, uploadedBy) && AppendsUploaderGrants(ps', ps'', users, uploadedBy)
    ensures AppendsUploaderGrants(ps, ps'', users, uploadedBy)
  {
    assert ps'' == ps' + ps''[|ps'|..];
    forall k | |ps| <= k < |ps'| ensures ps''[k] == ps'[k] {
    }
  }

  /**
    * When an account has the uploader's name, the resource stored under
    * `url` exists and some row grants that account access to it.
    */
  ghost predicate UploaderHolds(users: seq<User>, uploadedBy: string, rs: seq<Resource>, ps: seq<Permission>, url: string) {
    FindUserByName(users, uploadedBy).Some? ==>
      && IdOfUrl(rs, url).Some?
      && exists p :: p in ps && Grants(p, FindUserByName(users, uploadedBy).value.id, IdOfUrl(rs, url).value)
  }

  /**
    * After one successful `add_resource` the uploader holds a grant for the
    * stored URL, and the auto-grant is the only permission row added.
    */
  lemma AddResourceGrants(users: seq<User>, uploadedBy: string, rs: seq<Resource>, newId: nat, now: nat, name: string,
                          url: string, fileType: string, text: Option<string>, ps: seq<Permission>, pid: nat)
    ensures var rs' := UpsertResource(rs, newId, now, name, url, fileType, uploadedBy, text);
      var ps' := ps + AutoGrant(users, uploadedBy, UpsertedId(rs, newId, url), pid);
      UploaderHolds(users, uploadedBy, rs', ps', url) && AppendsUploaderGrants(ps, ps', users, uploadedBy)
  {
    UpsertResourceEffect(rs, newId, now, name, url, fileType, uploadedBy, text);
    var ps' := ps + AutoGrant(users, uploadedBy, UpsertedId(rs, newId, url), pid);
    match FindUserByName(users, uploadedBy)
    case Some(u) =>
      assert ps'[|ps|] == Permission(pid, u.id, UpsertedId(rs, newId, url), true, uploadedBy);
      assert ps'[|ps|] in ps';
    case None =>
      assert ps' == ps;
  }

  /** Every URL that had a resource row in `rs` still has one in `rs'`, under the same id. */
  ghost predicate KeepsUrls(rs: seq<Resource>, rs': seq<Resource>) {
    forall u :: IdOfUrl(rs, u).Some? ==> IdOfUrl(rs', u) == IdOfUrl(rs, u)
  }

  lemma KeepsUrlsTrans(rs: seq<Resource>, rs': seq<Resource>, rs'': seq<Resource>)
    requires KeepsUrls(rs, rs') && KeepsUrls(rs', rs'')
    ensures KeepsUrls(rs, rs'')
  {
  }

  /** The body of the folder sync's loop for one listed file. */
  method ProcessFile(db: Database, vs: VectorIndex.VectorStore, f: DriveFile, uploadedBy: string, faults: Faults)
    returns (outcome: FileOutcome)
    requires db.Valid() && vs.Valid()
    modifies db, vs
    ensures db.Valid() && vs.Valid()
    ensures outcome == Outcome(f, faults)
    ensures db.users == old(db.users) && db.chats == old(db.chats)
    ensures outcome == Skipped ==> unchanged(db) && unchanged(vs)
    ensures outcome == Processed ==>
      db.resources == UpsertResource(old(db.resources), old(db.nextResourceId), old(db.clock), f.name, FileUrl(f.id),
                                     GuessFileType(f.name, f.mimeType).value, uploadedBy,
                                     Some(StoredText(f, GuessFileType(f.name, f.mimeType).value, faults)))
    ensures outcome == Processed ==>
      TextOfUrl(db.resources, FileUrl(f.id)) == Some(StoredText(f, GuessFileType(f.name, f.mimeType).value, faults))
    ensures outcome == Processed && !faults.vectorFails(FileUrl(f.id)) ==>
      vs.entries == VectorIndex.UpsertEntry(old(vs.entries), f.name, FileUrl(f.id), StoredText(f, GuessFileType(f.name, f.mimeType).value, faults))
    ensures outcome != Processed || faults.vectorFails(FileUrl(f.id)) ==> vs.entries == old(vs.entries)
    ensures outcome == Failed && SavesRow(f, faults) ==>
      db.resources == UpsertResource(old(db.resources), old(db.nextResourceId), old(db.clock), f.name, FileUrl(f.id), "unknown", uploadedBy, None)
    ensures !SavesRow(f, faults) ==> db.resources == old(db.resources)
    ensures SavesRow(f, faults) ==>
      db.permissions == old(db.permissions)
        + AutoGrant(old(db.users), uploadedBy, UpsertedId(old(db.resources), old(db.nextResourceId), FileUrl(f.id)), old(db.nextPermissionId))
    ensures !SavesRow(f, faults) ==> db.permissions == old(db.permissions)
    ensures AppendsUploaderGrants(old(db.permissions), db.permissions, db.users, uploadedBy)
    ensures outcome == Processed ==> UploaderHolds(db.users, uploadedBy, db.resources, db.permissions, FileUrl(f.id))
    ensures TextsKeptExcept(old(db.resources), db.resources, FileUrl(f.id))
    ensures RowsKeptExcept(old(db.resources), db.resources, FileUrl(f.id))
    ensures EntriesKeptExcept(old(vs.entries), vs.entries, FileUrl(f.id))
    ensures !SavesRow(f, faults) ==> vs.entries == old(vs.entries)
    ensures KeepsUrls(old(db.resources), db.resources)
    ensures SavesRow(f, faults) ==> IdOfUrl(db.resources, FileUrl(f.id)).Some?
    ensures outcome == Processed ==> IdOfUrl(db.resources, FileUrl(f.id)).Some?
    ensures old(vs.entries).Keys <= vs.entries.Keys
    ensures outcome == Processed && !faults.vectorFails(FileUrl(f.id)) ==> FileUrl(f.id) in vs.entries
  {
    var ft := GuessFileType(f.name, f.mimeType);
    if ft.None? {
      return Skipped;
    }
    var url := FileUrl(f.id);
    if faults.raises(f.id) {
      // The exception handler saves a row without text, under type "unknown".
      UpsertKeepsUrls(db.resources, db.nextResourceId, db.clock, f.name, url, "unknown", uploadedBy, None);
      UpsertKeepsOtherUrls(db.resources, db.nextResourceId, db.clock, f.name, url, "unknown", uploadedBy, None);
      UpsertHasUrl(db.resources, db.nextResourceId, db.clock, f.name, url, "unknown", uploadedBy, None);
      AddResourceGrants(db.users, uploadedBy, db.resources, db.nextResourceId, db.clock, f.name, url, "unknown", None,
                        db.permissions, db.nextPermissionId);
      var _ := db.AddResource(f.name, url, "unknown", uploadedBy, None, faults.saveFails(url, 0));
      return Failed;
    }
    var text := StoredText(f, ft.value, faults);
    UpsertKeepsUrls(db.resources, db.nextResourceId, db.clock, f.name, url, ft.value, uploadedBy, Some(text));
    UpsertKeepsOtherUrls(db.resources, db.nextResourceId, db.clock, f.name, url, ft.value, uploadedBy, Some(text));
    UpsertResourceEffect(db.resources, db.nextResourceId, db.clock, f.name, url, ft.value, uploadedBy, Some(text));
    AddResourceGrants(db.users, uploadedBy, db.resources, db.nextResourceId, db.clock, f.name, url, ft.value, Some(text),
                      db.permissions, db.nextPermissionId);
    var success, _ := SaveWithRetry(db, f.name, url, ft.value, uploadedBy, text, faults.saveFails);
    if success {
      var _ := vs.UpsertDocument(f.name, url, text, faults.vectorFails(url));
      outcome := Processed;
    } else {
      outcome := Failed;
    }
  }

  /** Number of occurrences of `o` in a sequence of outcomes already computed. */
  ghost function Tally(outs: seq<FileOutcome>, o: FileOutcome): nat {
    if outs == [] then 0
    else Tally(outs[..|outs| - 1], o) + (if outs[|outs| - 1] == o then 1 else 0)
  }

  lemma TallySnoc(outs: seq<FileOutcome>, x: FileOutcome, o: FileOutcome)
    ensures Tally(outs + [x], o) == Tally(outs, o) + (if x == o then 1 else 0)
  {
    assert (outs + [x])[..|outs|] == outs;
  }

  /** `outs` holds the outcomes of the first `|outs|` listed files. */
  ghost predicate OutcomesUpTo(files: seq<DriveFile>, outs: seq<FileOutcome>, faults: Faults) {
    |outs| <= |files| && forall k :: 0 <= k < |outs| ==> outs[k] == Outcome(files[k], faults)
  }

  lemma OutcomesStep(files: seq<DriveFile>, outs: seq<FileOutcome>, faults: Faults)
    requires OutcomesUpTo(files, outs, faults) && |outs| < |files|
    ensures OutcomesUpTo(files, outs + [Outcome(files[|outs|], faults)], faults)
  {
  }

  /** Tallying the outcomes of the listed files gives their counts. */
  lemma {:induction false} TallyCounts(files: seq<DriveFile>, outs: seq<FileOutcome>, o: FileOutcome, faults: Faults)
    requires |outs| == |files|
    requires forall k :: 0 <= k < |files| ==> outs[k] == Outcome(files[k], faults)
    ensures Tally(outs, o) == CountOf(files, o, faults)
  {
    if files != [] {
      TallyCounts(files[..|files| - 1], outs[..|outs| - 1], o, faults);
    }
  }

  /** The first `n` listed files that were processed have a resource row, and a vector entry unless that upsert failed. */
  ghost predicate StoredUpTo(files: seq<DriveFile>, n: nat, faults: Faults, rs: seq<Resource>, entries: map<string, VectorIndex.Entry>)
    requires n <= |files|
  {
    && (forall k :: 0 <= k < n && Outcome(files[k], faults) == Processed ==> IdOfUrl(rs, FileUrl(files[k].id)).Some?)
    && (forall k :: 0 <= k < n && Outcome(files[k], faults) == Processed && !faults.vectorFails(FileUrl(files[k].id)) ==> FileUrl(files[k].id) in entries)
  }

  lemma StoredStep(files: seq<DriveFile>, i: nat, faults: Faults, rs: seq<Resource>, entries: map<string, VectorIndex.Entry>,
                   rs': seq<Resource>, entries': map<string, VectorIndex.Entry>)
    requires i < |files|
    requires StoredUpTo(files, i, faults, rs, entries)
    requires KeepsUrls(rs, rs')
    requires entries.Keys <= entries'.Keys
    requires Outcome(files[i], faults) == Processed ==> IdOfUrl(rs', FileUrl(files[i].id)).Some?
    requires Outcome(files[i], faults) == Processed && !faults.vectorFails(FileUrl(files[i].id)) ==> FileUrl(files[i].id) in entries'
    ensures StoredUpTo(files, i + 1, faults, rs', entries')
  {
  }

  /** The first `n` listed files that were processed are granted to the uploader's account, when it exists. */
  ghost predicate GrantedUpTo(files: seq<DriveFile>, n: nat, faults: Faults, users: seq<User>, uploadedBy: string,
                              rs: seq<Resource>, ps: seq<Permission>)
    requires n <= |files|
  {
    forall k :: 0 <= k < n && Outcome(files[k], faults) == Processed ==> UploaderHolds(users, uploadedBy, rs, ps, FileUrl(files[k].id))
  }

  lemma GrantedStep(files: seq<DriveFile>, i: nat, faults: Faults, users: seq<User>, uploadedBy: string,
                    rs: seq<Resource>, ps: seq<Permission>, rs': seq<Resource>, ps': seq<Permission>)
    requires i < |files|
    requires GrantedUpTo(files, i, faults, users, uploadedBy, rs, ps)
    requires KeepsUrls(rs, rs') && ps <= ps'
    requires Outcome(files[i], faults) == Processed ==> UploaderHolds(users, uploadedBy, rs', ps', FileUrl(files[i].id))
    ensures GrantedUpTo(files, i + 1, faults, users, uploadedBy, rs', ps')
  {
    forall k | 0 <= k < i && Outcome(files[k], faults) == Processed && FindUserByName(users, uploadedBy).Some?
      ensures UploaderHolds(users, uploadedBy, rs', ps', FileUrl(files[k].id))
    {
      var url := FileUrl(files[k].id);
      var p :| p in ps && Grants(p, FindUserByName(users, uploadedBy).value.id, IdOfUrl(rs, url).value);
      assert ps' == ps + ps'[|ps|..];
      assert p in ps';
    }
  }

  /** Distinct listing entries carry distinct Drive ids. */
  predicate DistinctIds(files: seq<DriveFile>) {
    forall i, j :: 0 <= i < j < |files| ==> files[i].id != files[j].id
  }

  /** Distinct ids give distinct sharing links. */
  lemma FileUrlInjective(a: string, b: string)
    requires FileUrl(a) == FileUrl(b)
    ensures a == b
  {
    var n := |DriveHost + FileMarker|;
    assert FileUrl(a)[n..n + |a|] == a;
    assert FileUrl(b)[n..n + |b|] == b;
  }

  /** The text the folder sync stores for a listed file, when it processes it. */
  function ExpectedText(f: DriveFile, faults: Faults): (r: Option<string>)
    ensures r.Some? <==> Outcome(f, faults) == Processed
  {
    if Outcome(f, faults) == Processed then Some(StoredText(f, GuessFileType(f.name, f.mimeType).value, faults)) else None
  }

  /**
    * Each of the first `n` listed files for which `want` gives a text has
    * that text stored under its link (`want` is `ExpectedText`, kept abstract
    * here so that the step below reasons about links only).
    */
  ghost predicate TextsUpTo(files: seq<DriveFile>, n: nat, want: DriveFile -> Option<string>, rs: seq<Resource>)
    requires n <= |files|
  {
    forall k :: 0 <= k < n && want(files[k]).Some? ==> TextOfUrl(rs, FileUrl(files[k].id)) == want(files[k])
  }

  /**
    * Each of the first `n` listed files for which `want` gives a text has
    * that text, under the file's name and link, as its vector entry, unless
    * the vector upsert for that link failed.
    */
  ghost predicate EntriesUpTo(files: seq<DriveFile>, n: nat, want: DriveFile -> Option<string>, faults: Faults,
                              entries: map<string, VectorIndex.Entry>)
    requires n <= |files|
  {
    forall k :: 0 <= k < n && want(files[k]).Some? && !faults.vectorFails(FileUrl(files[k].id)) ==>
      && FileUrl(files[k].id) in entries
      && entries[FileUrl(files[k].id)] == VectorIndex.Entry(want(files[k]).value, files[k].name, FileUrl(files[k].id))
  }

  /** Only the text stored under `url` may differ between `rs` and `rs'`. */
  ghost predicate TextsKeptExcept(rs: seq<Resource>, rs': seq<Resource>, url: string) {
    forall u :: u != url ==> TextOfUrl(rs', u) == TextOfUrl(rs, u)
  }

  /** Only the row stored under `url` may differ between `rs` and `rs'`. */
  ghost predicate RowsKeptExcept(rs: seq<Resource>, rs': seq<Resource>, url: string) {
    forall u :: u != url ==> ResourceOfUrl(rs', u) == ResourceOfUrl(rs, u)
  }

  /** `e'` holds the same entry as `e` for every URL but `url`, and no other URL is added or removed. */
  ghost predicate EntriesKeptExcept(e: map<string, VectorIndex.Entry>, e': map<string, VectorIndex.Entry>, url: string) {
    forall u :: u != url ==> (u in e' <==> u in e) && (u in e ==> e'[u] == e[u])
  }

  /** Some one of the first `n` listed files for which `saves` holds has the sharing link `u`. */
  ghost predicate SavedBefore(files: seq<DriveFile>, n: nat, saves: DriveFile -> bool, u: string)
    requires n <= |files|
  {
    exists k :: 0 <= k < n && saves(files[k]) && FileUrl(files[k].id) == u
  }

  /**
    * After the first `n` listed files, the row and the vector entry of
    * every URL that is not the link of a file written so far (`saves`,
    * kept abstract here, is `SavesRow`) are as they were in `rs0`, `e0`.
    */
  ghost predicate FramedUpTo(files: seq<DriveFile>, n: nat, saves: DriveFile -> bool,
                             rs0: seq<Resource>, rs: seq<Resource>,
                             e0: map<string, VectorIndex.Entry>, e: map<string, VectorIndex.Entry>)
    requires n <= |files|
  {
    && (forall u :: !SavedBefore(files, n, saves, u) ==> ResourceOfUrl(rs, u) == ResourceOfUrl(rs0, u))
    && (forall u :: !SavedBefore(files, n, saves, u) ==> (u in e <==> u in e0) && (u in e0 ==> e[u] == e0[u]))
    && (forall k :: 0 <= k < n && saves(files[k]) ==> IdOfUrl(rs, FileUrl(files[k].id)).Some?)
  }

  lemma FramedStep(files: seq<DriveFile>, i: nat, saves: DriveFile -> bool,
                   rs0: seq<Resource>, rs: seq<Resource>, rs': seq<Resource>,
                   e0: map<string, VectorIndex.Entry>, e: map<string, VectorIndex.Entry>, e': map<string, VectorIndex.Entry>)
    requires i < |files|
    requires FramedUpTo(files, i, saves, rs0, rs, e0, e)
    requires RowsKeptExcept(rs, rs', FileUrl(files[i].id)) && EntriesKeptExcept(e, e', FileUrl(files[i].id))
    requires KeepsUrls(rs, rs')
    requires !saves(files[i]) ==> rs' == rs && e' == e
    requires saves(files[i]) ==> IdOfUrl(rs', FileUrl(files[i].id)).Some?
    ensures FramedUpTo(files, i + 1, saves, rs0, rs', e0, e')
  {
    forall u | !SavedBefore(files, i + 1, saves, u)
      ensures ResourceOfUrl(rs', u) == ResourceOfUrl(rs0, u)
      ensures (u in e' <==> u in e0) && (u in e0 ==> e'[u] == e0[u])
    {
      SavedBeforeGrows(files, i, saves, u);
    }
  }

  /** A link saved among the first `i` files is saved among the first `i + 1`, and so is the `i`-th file's own. */
  lemma SavedBeforeGrows(files: seq<DriveFile>, i: nat, saves: DriveFile -> bool, u: string)
    requires i < |files|
    requires !SavedBefore(files, i + 1, saves, u)
    ensures !SavedBefore(files, i, saves, u)
    ensures saves(files[i]) ==> u != FileUrl(files[i].id)
  {
  }

  /** The links of the listed files the sync writes a row for. */
  function SavedUrls(files: seq<DriveFile>, faults: Faults): set<string> {
    set f | f in files && SavesRow(f, faults) :: FileUrl(f.id)
  }

  /**
    * After a sync of `files`: every URL that is not the link of a file the
    * sync wrote keeps its resource row and its vector entry unchanged, and
    * every file the sync wrote (processed or not) has a row.
    */
  ghost predicate SyncFrame(files: seq<DriveFile>, faults: Faults,
                            rs0: seq<Resource>, rs: seq<Resource>,
                            e0: map<string, VectorIndex.Entry>, e: map<string, VectorIndex.Entry>) {
    && (forall u :: u !in SavedUrls(files, faults) ==> ResourceOfUrl(rs, u) == ResourceOfUrl(rs0, u))
    && (forall u :: u !in SavedUrls(files, faults) ==> (u in e <==> u in e0) && (u in e0 ==> e[u] == e0[u]))
    && (forall f :: f in files && SavesRow(f, faults) ==> IdOfUrl(rs, FileUrl(f.id)).Some?)
  }

  lemma FramedAll(files: seq<DriveFile>, faults: Faults, saves: DriveFile -> bool,
                  rs0: seq<Resource>, rs: seq<Resource>,
                  e0: map<string, VectorIndex.Entry>, e: map<string, VectorIndex.Entry>)
    requires forall f :: saves(f) == SavesRow(f, faults)
    requires FramedUpTo(files, |files|, saves, rs0, rs, e0, e)
    ensures SyncFrame(files, faults, rs0, rs, e0, e)
  {
    forall u | u !in SavedUrls(files, faults)
      ensures !SavedBefore(files, |files|, saves, u)
    {
      forall k | 0 <= k < |files| && saves(files[k])
        ensures FileUrl(files[k].id) != u
      {
        assert files[k] in files && SavesRow(files[k], faults);
      }
    }
    forall f | f in files && SavesRow(f, faults)
      ensures IdOfUrl(rs, FileUrl(f.id)).Some?
    {
      var k :| 0 <= k < |files| && files[k] == f;
      assert saves(files[k]);
    }
  }

  lemma TextsStep(files: seq<DriveFile>, i: nat, want: DriveFile -> Option<string>, rs: seq<Resource>, rs': seq<Resource>)
    requires i < |files| && DistinctIds(files)
    requires TextsUpTo(files, i, want, rs)
    requires TextsKeptExcept(rs, rs', FileUrl(files[i].id))
    requires want(files[i]).Some? ==> TextOfUrl(rs', FileUrl(files[i].id)) == want(files[i])
    ensures TextsUpTo(files, i + 1, want, rs')
  {
    forall k | 0 <= k < i
      ensures TextOfUrl(rs', FileUrl(files[k].id)) == TextOfUrl(rs, FileUrl(files[k].id))
    {
      TextKept(files, k, i, rs, rs');
    }
  }

  lemma EntriesStep(files: seq<DriveFile>, i: nat, want: DriveFile -> Option<string>, faults: Faults,
                    e: map<string, VectorIndex.Entry>, e': map<string, VectorIndex.Entry>)
    requires i < |files| && DistinctIds(files)
    requires EntriesUpTo(files, i, want, faults, e)
    requires EntriesKeptExcept(e, e', FileUrl(files[i].id))
    requires want(files[i]).Some? && !faults.vectorFails(FileUrl(files[i].id)) ==>
      FileUrl(files[i].id) in e' && e'[FileUrl(files[i].id)] == VectorIndex.Entry(want(files[i]).value, files[i].name, FileUrl(files[i].id))
    ensures EntriesUpTo(files, i + 1, want, faults, e')
  {
    forall k | 0 <= k < i
      ensures FileUrl(files[k].id) != FileUrl(files[i].id)
    {
      UrlsDiffer(files, k, i);
    }
  }

  /** With distinct ids, two listed files have different links. */
  lemma UrlsDiffer(files: seq<DriveFile>, k: nat, i: nat)
    requires k < i < |files| && DistinctIds(files)
    ensures FileUrl(files[k].id) != FileUrl(files[i].id)
  {
    if FileUrl(files[k].id) == FileUrl(files[i].id) {
      FileUrlInjective(files[k].id, files[i].id);
    }
  }

  /** With distinct ids, saving the `i`-th file leaves an earlier file's text alone. */
  lemma TextKept(files: seq<DriveFile>, k: nat, i: nat, rs: seq<Resource>, rs': seq<Resource>)
    requires k < i < |files| && DistinctIds(files)
    requires TextsKeptExcept(rs, rs', FileUrl(files[i].id))
    ensures TextOfUrl(rs', FileUrl(files[k].id)) == TextOfUrl(rs, FileUrl(files[k].id))
  {
    if FileUrl(files[k].id) == FileUrl(files[i].id) {
      FileUrlInjective(files[k].id, files[i].id);
      assert false;
    }
  }

  /**
    * After a sync of `files`: every processed file has a resource row for
    * its URL, and its text is in the vector store unless that upsert failed.
    */
  ghost predicate AllStored(files: seq<DriveFile>, faults: Faults, rs: seq<Resource>, entries: map<string, VectorIndex.Entry>) {
    && (forall f :: f in files && Outcome(f, faults) == Processed ==> IdOfUrl(rs, FileUrl(f.id)).Some?)
    && (forall f :: f in files && Outcome(f, faults) == Processed && !faults.vectorFails(FileUrl(f.id)) ==> FileUrl(f.id) in entries)
  }

  /** After a sync of `files`: every processed file is granted to the uploader's account, when it exists. */
  ghost predicate AllGranted(files: seq<DriveFile>, faults: Faults, users: seq<User>, uploadedBy: string,
                             rs: seq<Resource>, ps: seq<Permission>) {
    forall f :: f in files && Outcome(f, faults) == Processed ==> UploaderHolds(users, uploadedBy, rs, ps, FileUrl(f.id))
  }

  /**
    * After a sync of `files`: every processed file has its extracted text
    * (or the placeholder) stored under its link, and, unless that upsert
    * failed, the same text with the file's name as its vector entry.
    */
  ghost predicate AllTexts(files: seq<DriveFile>, faults: Faults, rs: seq<Resource>, entries: map<string, VectorIndex.Entry>) {
    && (forall f :: f in files && Outcome(f, faults) == Processed ==>
          TextOfUrl(rs, FileUrl(f.id)) == Some(StoredText(f, GuessFileType(f.name, f.mimeType).value, faults)))
    && (forall f :: f in files && Outcome(f, faults) == Processed && !faults.vectorFails(FileUrl(f.id)) ==>
          && FileUrl(f.id) in entries
          && entries[FileUrl(f.id)] == VectorIndex.Entry(StoredText(f, GuessFileType(f.name, f.mimeType).value, faults), f.name, FileUrl(f.id)))
  }

  /** Once every file is covered, the facts hold of each listed file by membership. */
  lemma StoredAll(files: seq<DriveFile>, faults: Faults, rs: seq<Resource>, entries: map<string, VectorIndex.Entry>)
    requires StoredUpTo(files, |files|, faults, rs, entries)
    ensures AllStored(files, faults, rs, entries)
  {
    forall f | f in files && Outcome(f, faults) == Processed
      ensures IdOfUrl(rs, FileUrl(f.id)).Some?
      ensures !faults.vectorFails(FileUrl(f.id)) ==> FileUrl(f.id) in entries
    {
      var k :| 0 <= k < |files| && files[k] == f;
    }
  }

  lemma GrantedAll(files: seq<DriveFile>, faults: Faults, users: seq<User>, uploadedBy: string, rs: seq<Resource>, ps: seq<Permission>)
    requires GrantedUpTo(files, |files|, faults, users, uploadedBy, rs, ps)
    ensures AllGranted(files, faults, users, uploadedBy, rs, ps)
  {
    forall f | f in files && Outcome(f, faults) == Processed
      ensures UploaderHolds(users, uploadedBy, rs, ps, FileUrl(f.id))
    {
      var k :| 0 <= k < |files| && files[k] == f;
    }
  }

  lemma TextsAll(files: seq<DriveFile>, faults: Faults, want: DriveFile -> Option<string>, rs: seq<Resource>,
                 entries: map<string, VectorIndex.Entry>)
    requires forall f :: want(f) == ExpectedText(f, faults)
    requires TextsUpTo(files, |files|, want, rs)
    requires EntriesUpTo(files, |files|, want, faults, entries)
    ensures AllTexts(files, faults, rs, entries)
  {
    forall f | f in files && Outcome(f, faults) == Processed
      ensures TextOfUrl(rs, FileUrl(f.id)) == Some(StoredText(f, GuessFileType(f.name, f.mimeType).value, faults))
      ensures !faults.vectorFails(FileUrl(f.id)) ==>
        && FileUrl(f.id) in entries
        && entries[FileUrl(f.id)] == VectorIndex.Entry(StoredText(f, GuessFileType(f.name, f.mimeType).value, faults), f.name, FileUrl(f.id))
    {
      var k :| 0 <= k < |files| && files[k] == f;
      assert want(files[k]) == ExpectedText(f, faults);
    }
  }

  /**
    * The loop of `sync_folder` over a non-empty listing: each file is
    * processed in turn, a failure does not stop the loop, and the two
    * counters tally processed and failed files. Every processed file ends
    * up stored and granted to the uploader, and the only permission rows
    * added are such grants.
    */
  /**
    * What the folder sync has achieved after the first `i` listed files,
    * relative to the tables `rs0`, `ps0` and `entries0` it started from.
    */
  ghost predicate SyncedUpTo(files: seq<DriveFile>, i: nat, faults: Faults, want: DriveFile -> Option<string>,
                             saves: DriveFile -> bool, users: seq<User>, uploadedBy: string,
                             rs0: seq<Resource>, ps0: seq<Permission>, entries0: map<string, VectorIndex.Entry>,
                             rs: seq<Resource>, ps: seq<Permission>, entries: map<string, VectorIndex.Entry>)
    requires i <= |files|
  {
    && KeepsUrls(rs0, rs)
    && entries0.Keys <= entries.Keys
    && AppendsUploaderGrants(ps0, ps, users, uploadedBy)
    && StoredUpTo(files, i, faults, rs, entries)
    && GrantedUpTo(files, i, faults, users, uploadedBy, rs, ps)
    && (DistinctIds(files) ==> TextsUpTo(files, i, want, rs) && EntriesUpTo(files, i, want, faults, entries))
    && FramedUpTo(files, i, saves, rs0, rs, entries0, entries)
  }

  /** One turn of the folder sync's loop: processes the `i`-th listed file and extends what has been achieved by it. */
  method SyncStep(db: Database, vs: VectorIndex.VectorStore, files: seq<DriveFile>, i: nat, uploadedBy: string, faults: Faults,
                  ghost want: DriveFile -> Option<string>, ghost saves: DriveFile -> bool,
                  ghost rs0: seq<Resource>, ghost ps0: seq<Permission>, ghost entries0: map<string, VectorIndex.Entry>)
    returns (o: FileOutcome)
    requires i < |files| && db.Valid() && vs.Valid()
    requires want(files[i]) == ExpectedText(files[i], faults)
    requires saves(files[i]) == SavesRow(files[i], faults)
    requires SyncedUpTo(files, i, faults, want, saves, db.users, uploadedBy, rs0, ps0, entries0, db.resources, db.permissions, vs.entries)
    modifies db, vs
    ensures db.Valid() && vs.Valid()
    ensures o == Outcome(files[i], faults)
    ensures db.users == old(db.users) && db.chats == old(db.chats)
    ensures SyncedUpTo(files, i + 1, faults, want, saves, db.users, uploadedBy, rs0, ps0, entries0, db.resources, db.permissions, vs.entries)
  {
    ghost var rs, ps, entries := db.resources, db.permissions, vs.entries;
    o := ProcessFile(db, vs, files[i], uploadedBy, faults);
    StoredStep(files, i, faults, rs, entries, db.resources, vs.entries);
    GrantedStep(files, i, faults, db.users, uploadedBy, rs, ps, db.resources, db.permissions);
    if DistinctIds(files) {
      TextsStep(files, i, want, rs, db.resources);
      EntriesStep(files, i, want, faults, entries, vs.entries);
    }
    FramedStep(files, i, saves, rs0, rs, db.resources, entries0, entries, vs.entries);
    KeepsUrlsTrans(rs0, rs, db.resources);
    AppendsUploaderGrantsTrans(ps0, ps, db.permissions, db.users, uploadedBy);
  }

  method SyncFiles(db: Database, vs: VectorIndex.VectorStore, files: seq<DriveFile>, uploadedBy: string, faults: Faults)
    returns (processed: nat, errors: nat)
    requires db.Valid() && vs.Valid()
    modifies db, vs
    ensures db.Valid() && vs.Valid()
    ensures processed == CountOf(files, Processed, faults)
    ensures errors == CountOf(files, Failed, faults)
    ensures AllStored(files, faults, db.resources, vs.entries)
    ensures AllGranted(files, faults, db.users, uploadedBy, db.resources, db.permissions)
    ensures DistinctIds(files) ==> AllTexts(files, faults, db.resources, vs.entries)
    ensures SyncFrame(files, faults, old(db.resources), db.resources, old(vs.entries), vs.entries)
    ensures AppendsUploaderGrants(old(db.permissions), db.permissions, db.users, uploadedBy)
    ensures db.users == old(db.users) && db.chats == old(db.chats)
    ensures KeepsUrls(old(db.resources), db.resources)
    ensures old(vs.entries).Keys <= vs.entries.Keys
  {
    processed, errors := 0, 0;
    ghost var outs: seq<FileOutcome> := [];
    ghost var want := (f: DriveFile) => ExpectedText(f, faults);
    ghost var saves := (f: DriveFile) => SavesRow(f, faults);
    var i := 0;
    while i < |files|
      invariant 0 <= i <= |files|
      invariant db.Valid() && vs.Valid()
      invariant OutcomesUpTo(files, outs, faults) && |outs| == i
      invariant processed == Tally(outs, Processed) && errors == Tally(outs, Failed)
      invariant db.users == old(db.users) && db.chats == old(db.chats)
      invariant SyncedUpTo(files, i, faults, want, saves, db.users, uploadedBy, old(db.resources), old(db.permissions), old(vs.entries),
                           db.resources, db.permissions, vs.entries)
    {
      var o := SyncStep(db, vs, files, i, uploadedBy, faults, want, saves, old(db.resources), old(db.permissions), old(vs.entries));
      TallySnoc(outs, o, Processed);
      TallySnoc(outs, o, Failed);
      if o == Processed {
        processed := processed + 1;
      } else if o == Failed {
        errors := errors + 1;
      }
      OutcomesStep(files, outs, faults);
      outs := outs + [o];
      i := i + 1;
    }
    TallyCounts(files, outs, Processed, faults);
    TallyCounts(files, outs, Failed, faults);
    StoredAll(files, faults, db.resources, vs.entries);
    GrantedAll(files, faults, db.users, uploadedBy, db.resources, db.permissions);
    if DistinctIds(files) {
      TextsAll(files, faults, want, db.resources, vs.entries);
    }
    FramedAll(files, faults, saves, old(db.resources), db.resources, old(vs.entries), vs.entries);
  }

  /**
    * `sync_folder`: True exactly when at least one file was saved. The
    * counts of processed and failed files are returned alongside.
    */
  method SyncFolder(db: Database, vs: VectorIndex.VectorStore, folderUrl: string, uploadedBy: string,
                    authOk: bool, listing: Listing, faults: Faults)
    returns (ok: bool, processed: nat, errors: nat)
    requires db.Valid() && vs.Valid()
    modifies db, vs
    ensures db.Valid() && vs.Valid()
    ensures ok <==> processed > 0
    ensures db.users == old(db.users) && db.chats == old(db.chats)
    ensures !IsGdriveFolder(folderUrl) || !authOk || listing.ListRaised? ==>
      !ok && processed == 0 && errors == 0 && unchanged(db) && unchanged(vs)
    ensures IsGdriveFolder(folderUrl) && authOk && listing.Listed? ==>
      && processed == CountOf(listing.files, Processed, faults)
      && errors == CountOf(listing.files, Failed, faults)
      && AllStored(listing.files, faults, db.resources, vs.entries)
      && AllGranted(listing.files, faults, db.users, uploadedBy, db.resources, db.permissions)
      && (DistinctIds(listing.files) ==> AllTexts(listing.files, faults, db.resources, vs.entries))
      && SyncFrame(listing.files, faults, old(db.resources), db.resources, old(vs.entries), vs.entries)
    ensures AppendsUploaderGrants(old(db.permissions), db.permissions, db.users, uploadedBy)
    ensures KeepsUrls(old(db.resources), db.resources)
    ensures old(vs.entries).Keys <= vs.entries.Keys
  {
    ok, processed, errors := false, 0, 0;
    if ExtractFolderId(folderUrl).Invalid? || !authOk || listing.ListRaised? {
      return;
    }
    if listing.files == [] {
      return;
    }
    processed, errors := SyncFiles(db, vs, listing.files, uploadedBy, faults);
    ok := processed > 0;
  }

  /**
    * A re-sync whose download raised leaves the URL's stored text as it
    * was: the handler saves no text, and the upsert keeps the old one.
    */
  lemma FailedResyncKeepsText(rs: seq<Resource>, newId: nat, now: nat, name: string, url: string, uploadedBy: string)
    requires IndexOfUrl(rs, url).Some?
    ensures TextOfUrl(UpsertResource(rs, newId, now, name, url, "unknown", uploadedBy, None), url) == TextOfUrl(rs, url)
  {
    UpsertResourceEffect(rs, newId, now, name, url, "unknown", uploadedBy, None);
  }

  /** `files().get(fileId)`: the name and MIME type (defaults "Unknown" and "" already applied), or an exception. */
  datatype Metadata = Metadata(name: string, mimeType: string) | MetadataRaised

  /** The single-file sync gets as far as its one `add_resource` call, and that call succeeds. */
  predicate SingleFileSaves(fileUrl: string, authOk: bool, meta: Metadata, faults: Faults) {
    && IsGdriveFile(fileUrl) && authOk && meta.Metadata?
    && GuessFileType(meta.name, meta.mimeType).Some?
    && !faults.raises(ExtractFileId(fileUrl).id)
    && !faults.saveFails(fileUrl, 0)
  }

  /** The text the single-file sync stores, once it has got that far. */
  function SingleFileText(fileUrl: string, meta: Metadata, faults: Faults): (r: string)
    requires IsGdriveFile(fileUrl) && meta.Metadata? && GuessFileType(meta.name, meta.mimeType).Some?
    ensures HasContent(r)
  {
    StoredText(DriveFile(ExtractFileId(fileUrl).id, meta.name, meta.mimeType), GuessFileType(meta.name, meta.mimeType).value, faults)
  }

  /**
    * `sync_single_file`: a single save attempt, under the link exactly as
    * given; any exception before the save makes it False with nothing
    * written.
    */
  method SyncSingleFile(db: Database, vs: VectorIndex.VectorStore, fileUrl: string, uploadedBy: string,
                        authOk: bool, meta: Metadata, faults: Faults) returns (ok: bool)
    requires db.Valid() && vs.Valid()
    modifies db, vs
    ensures db.Valid() && vs.Valid()
    ensures db.users == old(db.users) && db.chats == old(db.chats)
    ensures ok <==> SingleFileSaves(fileUrl, authOk, meta, faults)
    ensures !ok ==> unchanged(db) && unchanged(vs)
    ensures ok ==>
      var text := SingleFileText(fileUrl, meta, faults);
      && db.resources == UpsertResource(old(db.resources), old(db.nextResourceId), old(db.clock), meta.name, fileUrl,
                                        GuessFileType(meta.name, meta.mimeType).value, uploadedBy, Some(text))
      && db.permissions == old(db.permissions)
           + AutoGrant(old(db.users), uploadedBy, UpsertedId(old(db.resources), old(db.nextResourceId), fileUrl), old(db.nextPermissionId))
      && TextOfUrl(db.resources, fileUrl) == Some(text)
      && UploaderHolds(db.users, uploadedBy, db.resources, db.permissions, fileUrl)
      && (faults.vectorFails(fileUrl) ==> vs.entries == old(vs.entries))
      && (!faults.vectorFails(fileUrl) ==> vs.entries == VectorIndex.UpsertEntry(old(vs.entries), meta.name, fileUrl, text))
    ensures AppendsUploaderGrants(old(db.permissions), db.permissions, db.users, uploadedBy)
  {
    var id := ExtractFileId(fileUrl);
    if id.Invalid? || !authOk || meta.MetadataRaised? {
      return false;
    }
    var ft := GuessFileType(meta.name, meta.mimeType);
    if ft.None? || faults.raises(id.id) {
      return false;
    }
    var text := SingleFileText(fileUrl, meta, faults);
    UpsertResourceEffect(db.resources, db.nextResourceId, db.clock, meta.name, fileUrl, ft.value, uploadedBy, Some(text));
    AddResourceGrants(db.users, uploadedBy, db.resources, db.nextResourceId, db.clock, meta.name, fileUrl, ft.value, Some(text),
                      db.permissions, db.nextPermissionId);
    ok := db.AddResource(meta.name, fileUrl, ft.value, uploadedBy, Some(text), faults.saveFails(fileUrl, 0));
    if ok {
      var _ := vs.UpsertDocument(meta.name, fileUrl, text, faults.vectorFails(fileUrl));
    }
  }

  /** The (success, message, details) triple the UI shows. */
  datatype SyncReport = SyncReport(success: bool, message: string, details: string)

  /** The mapping both Streamlit wrappers apply to a sync's result, with their own two messages. */
  function Report(ok: bool, okMessage: string, failMessage: string): (r: SyncReport)
    ensures r.success == ok
    ensures r.message == if ok then okMessage else failMessage
    ensures r.details == if ok then "Check sync.log for details" else "Check sync.log for error details"
  {
    if ok then SyncReport(true, okMessage, "Check sync.log for details")
    else SyncReport(false, failMessage, "Check sync.log for error details")
  }

  /** `sync_folder_from_streamlit`'s report. */
  function FolderReport(ok: bool): SyncReport {
    Report(ok, "Folder synced successfully!", "Sync failed")
  }

  /** `sync_single_file_from_streamlit`'s report. */
  function FileReport(ok: bool): SyncReport {
    Report(ok, "File synced successfully!", "File sync failed")
  }

  /**
    * `sync_folder_from_streamlit`: the uploader gets an admin account
    * (password "temp_password") when none exists, so that every saved file
    * is granted to them; then the folder is synced.
    */
  method SyncFolderFromStreamlit(db: Database, vs: VectorIndex.VectorStore, folderUrl: string, uploadedBy: string,
                                 authOk: bool, listing: Listing, faults: Faults) returns (r: SyncReport)
    requires db.Valid() && vs.Valid()
    modifies db, vs
    ensures db.Valid() && vs.Valid()
    ensures FindUserByName(db.users, uploadedBy).Some?
    ensures FindUserByName(old(db.users), uploadedBy).Some? ==> db.users == old(db.users)
    ensures FindUserByName(old(db.users), uploadedBy).None? ==>
      db.users == old(db.users) + [User(old(db.nextUserId), uploadedBy, db.hash("temp_password"), "admin")]
    ensures r.success <==> IsGdriveFolder(folderUrl) && authOk && listing.Listed?
                           && exists f :: f in listing.files && Outcome(f, faults) == Processed
    ensures r == FolderReport(r.success)
    ensures db.chats == old(db.chats)
    ensures !(IsGdriveFolder(folderUrl) && authOk && listing.Listed?) ==>
      db.resources == old(db.resources) && db.permissions == old(db.permissions) && vs.entries == old(vs.entries)
    ensures IsGdriveFolder(folderUrl) && authOk && listing.Listed? ==>
      && AllStored(listing.files, faults, db.resources, vs.entries)
      && AllGranted(listing.files, faults, db.users, uploadedBy, db.resources, db.permissions)
      && (DistinctIds(listing.files) ==> AllTexts(listing.files, faults, db.resources, vs.entries))
      && SyncFrame(listing.files, faults, old(db.resources), db.resources, old(vs.entries), vs.entries)
    ensures AppendsUploaderGrants(old(db.permissions), db.permissions, db.users, uploadedBy)
    ensures KeepsUrls(old(db.resources), db.resources)
    ensures old(vs.entries).Keys <= vs.entries.Keys
  {
    if FindUserByName(db.users, uploadedBy).None? {
      var _ := db.CreateUser(uploadedBy, "temp_password", "admin");
      assert db.users[|db.users| - 1].username == uploadedBy;
    }
    var ok, _, _ := SyncFolder(db, vs, folderUrl, uploadedBy, authOk, listing, faults);
    if listing.Listed? {
      CountPositiveIff(listing.files, Processed, faults);
    }
    r := FolderReport(ok);
  }

  /** `sync_single_file_from_streamlit`: the single-file sync, reported. */
  method SyncSingleFileFromStreamlit(db: Database, vs: VectorIndex.VectorStore, fileUrl: string, uploadedBy: string,
                                     authOk: bool, meta: Metadata, faults: Faults) returns (r: SyncReport)
    requires db.Valid() && vs.Valid()
    modifies db, vs
    ensures db.Valid() && vs.Valid()
    ensures r.success <==> SingleFileSaves(fileUrl, authOk, meta, faults)
    ensures r == FileReport(r.success)
    ensures db.users == old(db.users) && db.chats == old(db.chats)
    ensures !r.success ==> unchanged(db) && unchanged(vs)
    ensures r.success ==>
      var text := SingleFileText(fileUrl, meta, faults);
      && db.resources == UpsertResource(old(db.resources), old(db.nextResourceId), old(db.clock), meta.name, fileUrl,
                                        GuessFileType(meta.name, meta.mimeType).value, uploadedBy, Some(text))
      && db.permissions == old(db.permissions)
           + AutoGrant(old(db.users), uploadedBy, UpsertedId(old(db.resources), old(db.nextResourceId), fileUrl), old(db.nextPermissionId))
      && TextOfUrl(db.resources, fileUrl) == Some(text)
      && UploaderHolds(db.users, uploadedBy, db.resources, db.permissions, fileUrl)
      && (faults.vectorFails(fileUrl) ==> vs.entries == old(vs.entries))
      && (!faults.vectorFails(fileUrl) ==> vs.entries == VectorIndex.UpsertEntry(old(vs.entries), meta.name, fileUrl, text))
    ensures AppendsUploaderGrants(old(db.permissions), db.permissions, db.users, uploadedBy)
  {
    var ok := SyncSingleFile(db, vs, fileUrl, uploadedBy, authOk, meta, faults);
    r := FileReport(ok);
  }
}
