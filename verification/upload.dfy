/** The client's `uploadFile`: parameter and size guards before the request,
    and the error it throws on a failed response. */
module Upload {
  import opened Common

  /** 5 MiB. */
  const MaxFileSize: nat := 5 * 1024 * 1024

  const MissingParameters := "Missing required parameters"
  const TooLarge := "File size must be less than 5MB"

  datatype FileInfo = FileInfo(size: nat)

  /** The upload endpoint's answer: its status, the `error` field of an
      error body, and the body of a success. */
  datatype ServerResponse = ServerResponse(ok: bool, error: Option<string>, body: string)

  datatype UploadResult = Uploaded(body: string) | Thrown(message: string)

  /** The guards run before any request: first the falsy-parameter check,
      then the size bound. */
  function Precheck(file: Option<FileInfo>, groupId: Option<string>, idToken: Option<string>): (r: Option<string>)
    ensures r == Some(MissingParameters) <==> file.None? || !Truthy(groupId) || !Truthy(idToken)
    ensures r == Some(TooLarge) <==>
              file.Some? && Truthy(groupId) && Truthy(idToken) && file.value.size > MaxFileSize
    ensures r.None? <==> file.Some? && Truthy(groupId) && Truthy(idToken) && file.value.size <= MaxFileSize
  {
    if file.None? || !Truthy(groupId) || !Truthy(idToken) then Some(MissingParameters)
    else if file.value.size > MaxFileSize then Some(TooLarge)
    else None
  }

  /** `uploadFile` given the response the request would get. */
  function UploadFile(file: Option<FileInfo>, groupId: Option<string>, idToken: Option<string>,
                      response: ServerResponse): (r: UploadResult)
    ensures Precheck(file, groupId, idToken).Some? ==> r == Thrown(Precheck(file, groupId, idToken).value)
    ensures Precheck(file, groupId, idToken).None? && !response.ok ==>
              r == Thrown(if Truthy(response.error) then response.error.value else "Upload failed")
    ensures r.Uploaded? <==> Precheck(file, groupId, idToken).None? && response.ok
  {
    match Precheck(file, groupId, idToken)
    case Some(message) => Thrown(message)
    case None =>
      if !response.ok then Thrown(if Truthy(response.error) then response.error.value else "Upload failed")
      else Uploaded(response.body)
  }

  /** A rejected precheck sends nothing: the outcome is the same whatever
      the server would have answered. */
  lemma PrecheckSendsNothing(file: Option<FileInfo>, groupId: Option<string>, idToken: Option<string>,
                             a: ServerResponse, b: ServerResponse)
    requires Precheck(file, groupId, idToken).Some?
    ensures UploadFile(file, groupId, idToken, a) == UploadFile(file, groupId, idToken, b)
  {
  }
}
