/** The pieces of a parsed multipart/form-data request body the functions read
    (Helpers/MultipartHelper.cs): the text fields by name and the file parts in order. The parsing
    itself is not part of this model. */
module Multipart {
  import opened Wrappers
  import opened Text
  import opened Base64

  datatype FilePart = FilePart(fieldName: string, fileName: string, data: seq<byte>)

  datatype FormData = FormData(text: map<string, string>, files: seq<FilePart>)

  const MultipartFormData := "multipart/form-data"

  /** `contentType.StartsWith("multipart/form-data", StringComparison.OrdinalIgnoreCase)`: its
      first characters, lower-cased, are that media type, which is lower-case already. */
  predicate IsMultipart(contentType: string) {
    |MultipartFormData| <= |contentType| && ToLower(contentType[..|MultipartFormData|]) == MultipartFormData
  }

  /** Anything after the media type (a boundary parameter, say) does not change the answer. */
  lemma IsMultipartIgnoresParameters(contentType: string, rest: string)
    requires IsMultipart(contentType)
    ensures IsMultipart(contentType + rest)
  {
    assert (contentType + rest)[..|MultipartFormData|] == contentType[..|MultipartFormData|];
  }

  /** The comparison ignores case: a Content-Type is multipart exactly when its lower-cased form is. */
  lemma IsMultipartIgnoresCase(contentType: string)
    ensures IsMultipart(ToLower(contentType)) == IsMultipart(contentType)
  {
    var n := |MultipartFormData|;
    if n <= |contentType| {
      var head, lower := contentType[..n], ToLower(contentType);
      assert lower[..n] == ToLower(head);
      assert ToLower(ToLower(head)) == ToLower(head) by {
        assert forall i :: 0 <= i < n ==> ToLower(ToLower(head))[i] == ToLower(head)[i];
      }
    }
  }

  /** `Files.FirstOrDefault(f => f.FieldName == fieldName)`. */
  function FirstFile(files: seq<FilePart>, fieldName: string): (r: Option<FilePart>)
    ensures r.None? <==> forall i :: 0 <= i < |files| ==> files[i].fieldName != fieldName
    ensures r.Some? ==> exists i :: 0 <= i < |files| && files[i] == r.value
                                    && forall j :: 0 <= j < i ==> files[j].fieldName != fieldName
    ensures r.Some? ==> r.value.fieldName == fieldName
  {
    if files == [] then None
    else if files[0].fieldName == fieldName then Some(files[0])
    else
      var rest := FirstFile(files[1..], fieldName);
      assert rest.Some? ==> exists i :: 0 <= i < |files[1..]| && files[1..][i] == rest.value
                                         && forall j :: 0 <= j < i ==> files[1..][j].fieldName != fieldName;
      rest
  }
}
