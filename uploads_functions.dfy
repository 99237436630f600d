/** Functions/UploadsFunctions.cs: the proof-of-payment upload. The file part "ProofOfPayment" is
    stored in the payment-proofs container under a fresh id and its sanitized name, with its
    Content-Type taken from the extension and the order id, customer name, upload time and
    original name as metadata. `Path.GetInvalidFileNameChars` and the directory separators
    `Path.GetExtension` stops at depend on the operating system, so they are a `Platform` input;
    the fresh id, the clock and its ISO 8601 text are inputs too. */
module UploadsFunctions {
  import opened Wrappers
  import opened Text
  import opened Models
  import opened Seqs
  import opened Http
  import opened Storage
  import opened Multipart

  datatype Platform = Platform(invalidFileNameChars: set<char>, directorySeparators: set<char>)

  /** Linux: only NUL and '/' are invalid in a file name, and '/' separates directories. */
  const Unix := Platform({'\0', '/'}, {'/'})

  /** Windows: the control characters, `"<>|:*?\/`, and both slashes as separators. */
  const Windows := Platform(set c: char | '\0' <= c <= '\U{1F}' || c in "\"<>|:*?\\/", {'\\', '/'})

  /** The JSON the upload answers with. */
  datatype ProofReceipt = ProofReceipt(
    fileName: string,
    url: string,
    orderId: string,
    customerName: string,
    fileSize: nat,
    uploadedAt: Time)

  const ProofField := "ProofOfPayment"
  const Unknown := "Unknown"
  const DefaultFileName := "file"
  const OctetStream := "application/octet-stream"
  const ExpectedMultipart := "Expected multipart/form-data"
  const ProofRequired := "ProofOfPayment file is required"
  const UploadFailed := "Failed to upload proof of payment"

  // ------------------------------------------------------------ file names

  /** `SanitizeFileName`: the name without its invalid characters; "file" when the name is null
      or empty, or when nothing is left. */
  function SanitizeFileName(fileName: Option<string>, invalid: set<char>): (r: string)
    ensures r != ""
    ensures IsNullOrEmpty(fileName) ==> r == DefaultFileName
    ensures r == DefaultFileName || forall i :: 0 <= i < |r| ==> r[i] !in invalid
    ensures fileName.Some? && r != DefaultFileName ==> |r| <= |fileName.value|
  {
    if IsNullOrEmpty(fileName) then DefaultFileName
    else
      var sanitized := Filter(fileName.value, (c: char) => c !in invalid);
      if sanitized == "" then DefaultFileName else sanitized
  }

  /** "file" itself is a valid name on both platforms. */
  predicate DefaultIsValid(invalid: set<char>) {
    forall i :: 0 <= i < |DefaultFileName| ==> DefaultFileName[i] !in invalid
  }

  lemma DefaultValidOnBothPlatforms()
    ensures DefaultIsValid(Unix.invalidFileNameChars) && DefaultIsValid(Windows.invalidFileNameChars)
  {
    assert forall i :: 0 <= i < |DefaultFileName| ==> 'a' <= DefaultFileName[i] <= 'z';
  }

  /** Where "file" is valid, the sanitized name never has an invalid character, a valid name is
      kept as it is, and sanitizing twice is sanitizing once. */
  lemma SanitizeRules(fileName: Option<string>, invalid: set<char>)
    requires DefaultIsValid(invalid)
    ensures var r := SanitizeFileName(fileName, invalid);
      && (forall i :: 0 <= i < |r| ==> r[i] !in invalid)
      && SanitizeFileName(Some(r), invalid) == r
    ensures fileName.Some? && fileName.value != "" && (forall i :: 0 <= i < |fileName.value| ==> fileName.value[i] !in invalid)
            ==> SanitizeFileName(fileName, invalid) == fileName.value
  {
    var keep := (c: char) => c !in invalid;
    var r := SanitizeFileName(fileName, invalid);
    FilterKeepsAll(r, keep);
    if fileName.Some? && (forall i :: 0 <= i < |fileName.value| ==> fileName.value[i] !in invalid) {
      FilterKeepsAll(fileName.value, keep);
    }
  }

  /** The name a proof is stored under: the fresh id and a '-', then a non-empty sanitized name,
      which has no invalid character wherever "file" itself is valid. */
  function ProofBlobName(blobId: string, fileName: string, invalid: set<char>): (r: string)
    ensures |r| > |blobId| + 1 && r[..|blobId|] == blobId && r[|blobId|] == '-'
    ensures r[|blobId| + 1..] == SanitizeFileName(Some(fileName), invalid)
    ensures DefaultIsValid(invalid) ==> forall i :: |blobId| + 1 <= i < |r| ==> r[i] !in invalid
  {
    var name := SanitizeFileName(Some(fileName), invalid);
    var r := blobId + "-" + name;
    assert r[..|blobId|] == blobId && r[|blobId| + 1..] == name;
    assert forall i :: |blobId| + 1 <= i < |r| ==> r[i] == name[i - |blobId| - 1];
    r
  }

  /** Ids of one length (the 32 hex digits of a GUID's "N" form) that differ give different blob
      names, whatever the file names: two uploads under different ids never overwrite each other. */
  lemma DistinctIdsDistinctBlobNames(a: string, b: string, fileA: string, fileB: string, invalid: set<char>)
    requires |a| == |b| && a != b
    ensures ProofBlobName(a, fileA, invalid) != ProofBlobName(b, fileB, invalid)
  {
    var ra, rb := ProofBlobName(a, fileA, invalid), ProofBlobName(b, fileB, invalid);
    assert ra[..|a|] == a && rb[..|b|] == b;
  }

  // ------------------------------------------------------------ content types

  /** Characters `Path.GetExtension` looks for from the end: a '.' or a directory separator. */
  predicate IsMarker(c: char, separators: set<char>) {
    c == '.' || c in separators
  }

  /** The index of the last '.' or separator, or -1. */
  function LastMarker(s: string, separators: set<char>): (i: int)
    ensures -1 <= i < |s|
    ensures i >= 0 ==> IsMarker(s[i], separators)
    ensures forall j :: i < j < |s| ==> !IsMarker(s[j], separators)
  {
    if s == [] then -1
    else if IsMarker(s[|s| - 1], separators) then |s| - 1
    else LastMarker(s[..|s| - 1], separators)
  }

  /** `Path.GetExtension`: from the last '.' to the end, when that '.' comes after every
      separator and is not the last character; otherwise "". */
  function Extension(path: string, separators: set<char>): (r: string)
    ensures r == "" || (2 <= |r| <= |path| && r[0] == '.' && r == path[|path| - |r|..])
    ensures forall j :: 1 <= j < |r| ==> !IsMarker(r[j], separators)
  {
    var i := LastMarker(path, separators);
    if 0 <= i < |path| - 1 && path[i] == '.' then path[i..] else ""
  }

  /** The fixed extension table. */
  function ContentTypeFor(extension: string): (r: string)
    ensures r == OctetStream <==> extension !in {".pdf", ".jpg", ".jpeg", ".png", ".gif", ".txt", ".doc", ".docx"}
  {
    match extension
    case ".pdf" => "application/pdf"
    case ".jpg" => "image/jpeg"
    case ".jpeg" => "image/jpeg"
    case ".png" => "image/png"
    case ".gif" => "image/gif"
    case ".txt" => "text/plain"
    case ".doc" => "application/msword"
    case ".docx" => "application/vnd.openxmlformats-officedocument.wordprocessingml.document"
    case _ => OctetStream
  }

  /** `GetContentType`: the table entry of the lower-cased extension. */
  function GetContentType(fileName: string, separators: set<char>): string {
    ContentTypeFor(ToLower(Extension(fileName, separators)))
  }

  lemma ToLowerTwice(s: string)
    ensures ToLower(ToLower(s)) == ToLower(s)
  {
    var l := ToLower(s);
    assert forall i :: 0 <= i < |s| ==> ToLower(l)[i] == l[i];
  }

  lemma ToLowerSuffix(s: string, i: nat)
    requires i <= |s|
    ensures ToLower(s)[i..] == ToLower(s[i..])
  {
    assert forall j :: 0 <= j < |s| - i ==> ToLower(s)[i..][j] == ToLower(s[i..])[j];
  }

  /** Lower-casing changes no marker when the separators are not letters. */
  lemma {:induction false} LastMarkerOfLower(s: string, separators: set<char>)
    requires forall c :: c in separators ==> !('A' <= c <= 'Z')
    requires forall c :: c in separators ==> !('a' <= c <= 'z')
    ensures LastMarker(ToLower(s), separators) == LastMarker(s, separators)
  {
    if s != [] {
      var l := ToLower(s);
      var c := s[|s| - 1];
      assert l[|l| - 1] == ToLowerChar(c);
      assert IsMarker(ToLowerChar(c), separators) <==> IsMarker(c, separators);
      var p := s[..|s| - 1];
      forall j | 0 <= j < |p| ensures l[..|l| - 1][j] == ToLower(p)[j] {
        assert p[j] == s[j];
      }
      assert l[..|l| - 1] == ToLower(p);
      LastMarkerOfLower(s[..|s| - 1], separators);
    }
  }

  /** The content type does not depend on the case of the file name. */
  lemma ContentTypeIgnoresCase(fileName: string, separators: set<char>)
    requires forall c :: c in separators ==> !('A' <= c <= 'Z')
    requires forall c :: c in separators ==> !('a' <= c <= 'z')
    ensures GetContentType(ToLower(fileName), separators) == GetContentType(fileName, separators)
  {
    var i := LastMarker(fileName, separators);
    LastMarkerOfLower(fileName, separators);
    if 0 <= i < |fileName| - 1 && fileName[i] == '.' {
      ToLowerSuffix(fileName, i);
      ToLowerTwice(fileName[i..]);
    }
  }

  /** Two readings of the table: an upper-case extension is found, and only the last extension
      counts. */
  lemma ContentTypeExamples()
    ensures GetContentType("Receipt.PDF", Unix.directorySeparators) == "application/pdf"
    ensures GetContentType("scan.png.exe", Unix.directorySeparators) == OctetStream
    ensures GetContentType("notes.", Unix.directorySeparators) == OctetStream
  {
    assert LastMarker("Receipt.PDF", {'/'}) == 7;
    assert "Receipt.PDF"[7..] == ".PDF";
    assert ToLower(".PDF") == ".pdf";
    assert LastMarker("scan.png.", {'/'}) == 8;
    assert LastMarker("scan.png.e", {'/'}) == 8;
    assert LastMarker("scan.png.ex", {'/'}) == 8;
    assert "scan.png.exe"[..11] == "scan.png.ex";
    assert LastMarker("scan.png.exe", {'/'}) == 8;
    assert "scan.png.exe"[8..] == ".exe";
    assert ToLower(".exe") == ".exe";
    assert LastMarker("notes.", {'/'}) == 5;
  }

  // ------------------------------------------------------------ the upload

  /** `form.Text.GetValueOrDefault(name)`: the form's text fields are keyed ignoring case. */
  method TextField(text: map<string, string>, name: string) returns (r: Option<string>)
    ensures r.None? <==> forall k :: k in text ==> ToLower(k) != ToLower(name)
    ensures r.Some? ==> exists k :: k in text && ToLower(k) == ToLower(name) && text[k] == r.value
  {
    if k :| k in text && ToLower(k) == ToLower(name) {
      r := Some(text[k]);
    } else {
      r := None;
    }
  }

  /** `GetValueOrDefault(name) ?? "Unknown"` may give `v`: the value of a field whose name
      matches ignoring case, or "Unknown" when no field matches. */
  ghost predicate ValueOrUnknown(text: map<string, string>, name: string, v: string) {
    || (v == Unknown && forall k :: k in text ==> ToLower(k) != ToLower(name))
    || exists k :: k in text && ToLower(k) == ToLower(name) && text[k] == v
  }

  /** The metadata stored with a proof. */
  function ProofMetadata(orderId: string, customerName: string, uploadedAtText: string, originalName: string)
    : (m: map<string, string>)
    ensures m.Keys == {"OrderId", "CustomerName", "UploadedAtUtc", "OriginalFileName"}
    ensures m["OrderId"] == orderId && m["CustomerName"] == customerName
    ensures m["UploadedAtUtc"] == uploadedAtText && m["OriginalFileName"] == originalName
  {
    map["OrderId" := orderId, "CustomerName" := customerName, "UploadedAtUtc" := uploadedAtText,
        "OriginalFileName" := originalName]
  }

  /** What the request turned into before the upload: the file to store with its metadata
      values and blob name, or the response that ends it early. */
  datatype ProofRequest =
    | Accepted(file: FilePart, orderId: string, customerName: string, blobName: string)
    | Refused(response: Response<ProofReceipt>)

  /** What the checks and defaults of the upload make of a request, in the handler's order: a
      Content-Type that is not multipart, a body that does not parse, and a missing or empty
      "ProofOfPayment" part are refused; otherwise the part is accepted under the fresh id and its
      sanitized name, with the OrderId and CustomerName fields or "Unknown". */
  ghost predicate ReadAs(contentType: string, form: Option<FormData>, platform: Platform, blobId: string,
                         q: ProofRequest)
  {
    && (!IsMultipart(contentType) ==> q == Refused(BadRequest(ExpectedMultipart)))
    && (IsMultipart(contentType) && form.None? ==> q == Refused(InternalServerError(UploadFailed)))
    && (IsMultipart(contentType) && form.Some?
        ==> var file := FirstFile(form.value.files, ProofField);
            && (file.None? || |file.value.data| == 0 ==> q == Refused(BadRequest(ProofRequired)))
            && (file.Some? && |file.value.data| > 0
                ==> && q.Accepted? && q.file == file.value
                    && q.blobName == ProofBlobName(blobId, file.value.fileName, platform.invalidFileNameChars)
                    && ValueOrUnknown(form.value.text, "OrderId", q.orderId)
                    && ValueOrUnknown(form.value.text, "CustomerName", q.customerName)))
  }

  /** The checks and defaults of the upload. */
  method ReadProofRequest(contentType: string, form: Option<FormData>, platform: Platform, blobId: string)
    returns (q: ProofRequest)
    ensures ReadAs(contentType, form, platform, blobId, q)
  {
    if !IsMultipart(contentType) {
      return Refused(BadRequest(ExpectedMultipart));
    }
    if form.None? {
      return Refused(InternalServerError(UploadFailed));
    }
    var file := FirstFile(form.value.files, ProofField);
    if file.None? || |file.value.data| == 0 {
      return Refused(BadRequest(ProofRequired));
    }
    var orderField := TextField(form.value.text, "OrderId");
    var nameField := TextField(form.value.text, "CustomerName");
    var blobName := ProofBlobName(blobId, file.value.fileName, platform.invalidFileNameChars);
    q := Accepted(file.value, orderField.GetOr(Unknown), nameField.GetOr(Unknown), blobName);
  }

  /** The blob a proof is stored as. */
  function ProofBlob(q: ProofRequest, platform: Platform, nowText: string): Blob
    requires q.Accepted?
  {
    Blob(q.file.data, GetContentType(q.file.fileName, platform.directorySeparators),
         ProofMetadata(q.orderId, q.customerName, nowText, q.file.fileName))
  }

  /** `Uploads_ProofOfPayment`. The request must be multipart with a non-empty "ProofOfPayment"
      file; OrderId and CustomerName default to "Unknown". The upload sets no access conditions,
      so it overwrites a blob already under the new name. */
  method Proof(st: StorageAccount, contentType: string, form: Option<FormData>, platform: Platform,
               blobId: string, containerUri: string, now: Time, nowText: string)
    returns (r: Response<ProofReceipt>, ghost q: ProofRequest)
    requires st.Valid()
    modifies st
    ensures st.Valid()
    ensures ReadAs(contentType, form, platform, blobId, q)
    ensures q.Refused? ==> r == q.response
    ensures q.Accepted?
            ==> && r == Ok(ProofReceipt(q.blobName, BlobUri(containerUri, q.blobName), q.orderId, q.customerName,
                                        |q.file.data|, now))
                && st.paymentProofs == old(st.paymentProofs)[q.blobName := ProofBlob(q, platform, nowText)]
    ensures !r.Ok? ==> st.paymentProofs == old(st.paymentProofs)
    ensures st.customers == old(st.customers) && st.products == old(st.products) && st.orders == old(st.orders)
    ensures st.orderNotifications == old(st.orderNotifications) && st.productImages == old(st.productImages)
  {
    var request := ReadProofRequest(contentType, form, platform, blobId);
    q := request;
    if request.Refused? {
      return request.response, q;
    }
    st.paymentProofs := st.paymentProofs[request.blobName := ProofBlob(request, platform, nowText)];
    r := Ok(ProofReceipt(request.blobName, BlobUri(containerUri, request.blobName), request.orderId,
                         request.customerName, |request.file.data|, now));
  }
}
