/** getSignedURL of src/app/upload/actions.ts: three early-return guards
    (file type, then size, then session), a random object name, a presigned
    upload URL and one new post row. */
module UploadActions {
  import opened Common
  import opened Db
  import opened Hex
  import Session

  const AllowedFileTypes: seq<string> := ["image/jpeg", "image/png", "image/jpg", "image/webp"]
  /** Ten mebibytes. */
  const MaxFileSize: int := 1048576 * 10
  /** The default length of generateFileName, in random bytes. */
  const FileNameBytes: nat := 32

  const TypeNotAllowed := "File type not allowed"
  const TooLarge := "File size too large"
  const NotAuthenticated := "User is not authenticated"
  const ServiceFailed := "An error occurred while generating the signed URL"

  /** The first guard that fails, in the order the action checks them, or
      the id of the signed-in user when all pass. */
  datatype GuardOutcome = Refused(message: string) | Admitted(userId: string)

  function UploadGuard(fileType: string, fileSize: int, session: Option<Session.Claims>): (g: GuardOutcome)
    ensures fileType !in AllowedFileTypes ==> g == Refused(TypeNotAllowed)
    ensures fileType in AllowedFileTypes && fileSize > MaxFileSize ==> g == Refused(TooLarge)
    ensures fileType in AllowedFileTypes && fileSize <= MaxFileSize && session.None? ==> g == Refused(NotAuthenticated)
    ensures g.Admitted? <==> fileType in AllowedFileTypes && fileSize <= MaxFileSize && session.Some?
    ensures g.Admitted? ==> g.userId == session.value.userId
  {
    if fileType !in AllowedFileTypes then Refused(TypeNotAllowed)
    else if fileSize > MaxFileSize then Refused(TooLarge)
    else if session.None? then Refused(NotAuthenticated)
    else Admitted(session.value.userId)
  }

  /** A file of exactly the maximum size passes the size guard, one byte more does not. */
  lemma SizeLimitIsInclusive(fileType: string, session: Option<Session.Claims>)
    requires fileType in AllowedFileTypes
    ensures UploadGuard(fileType, MaxFileSize, session) != Refused(TooLarge)
    ensures UploadGuard(fileType, MaxFileSize + 1, session) == Refused(TooLarge)
  {
  }

  /** The bytes `crypto.getRandomValues` would write, by position. */
  function RandomBytes(entropy: nat -> Byte, n: nat): seq<Byte> {
    seq(n, i requires 0 <= i => entropy(i))
  }

  /** generateFileName(n): fill a byte buffer from the random source, then
      write each byte as two lowercase hex digits, high nibble first. */
  method GenerateFileName(n: nat, entropy: nat -> Byte) returns (name: string)
    ensures name == HexString(RandomBytes(entropy, n))
    ensures |name| == 2 * n
    ensures forall c :: c in name ==> IsHexDigit(c)
    ensures forall i :: 0 <= i < n ==> name[2 * i] == Digit(entropy(i) / 16) && name[2 * i + 1] == Digit(entropy(i) % 16)
    ensures HexDecode(name) == RandomBytes(entropy, n)
  {
    var buffer := new Byte[n];
    for i := 0 to n
      invariant buffer[..i] == RandomBytes(entropy, i)
    {
      buffer[i] := entropy(i);
    }
    assert buffer[..] == buffer[..n];
    name := HexString(buffer[..]);
    forall i | 0 <= i < n
      ensures name[2 * i] == Digit(entropy(i) / 16) && name[2 * i + 1] == Digit(entropy(i) % 16)
    {
      HexStringAt(buffer[..], i);
    }
    HexRoundTrip(buffer[..]);
  }

  /** The public URL of an object: `https://${r2pubUrl}/${fileName}`, where an
      unset variable prints as "undefined". */
  function PublicUrl(pubUrl: Option<string>, fileName: string): (u: string)
    ensures |u| > 8 + |fileName| && u[..8] == "https://"
    ensures u[|u| - |fileName| - 1] == '/' && u[|u| - |fileName|..] == fileName
  {
    "https://" + pubUrl.GetOr("undefined") + "/" + fileName
  }

  /** `description || null` */
  function StoredDescription(description: Option<string>): (d: Option<string>)
    ensures d.Some? <==> description.Some? && description.value != ""
    ensures d.Some? ==> d == description
  {
    if description.Some? && description.value != "" then description else None
  }

  datatype UploadParams = UploadParams(fileType: string, fileSize: int, checksum: string, title: string,
                                       tags: string, description: Option<string>)

  datatype SignedUrlResponse = Success(url: string, fileName: string) | Failure(message: string)

  /** getSignedURL (upload/actions.ts:45-103). `presign` stands for the
      presigner, given the object key, content type and length;
      `serviceError` says whether the presigner or the insert throws, which
      the action reports as one generic failure; `newPostId` is the id the
      database assigns. */
  method GetSignedUrl(db: Database, sm: Session.SessionManager, nowMs: nat, p: UploadParams,
                      pubUrl: Option<string>, entropy: nat -> Byte, presign: (string, string, int) -> string,
                      serviceError: bool, newPostId: string)
    returns (r: SignedUrlResponse)
    modifies db
    ensures var g := UploadGuard(p.fileType, p.fileSize, Session.VerifySession(sm.cookies, sm.key, nowMs));
            (g.Refused? ==> r == Failure(g.message))
            && (g.Admitted? && serviceError ==> r == Failure(ServiceFailed))
            && (r.Success? <==> g.Admitted? && !serviceError)
            && (r.Success? ==>
                  r.fileName == HexString(RandomBytes(entropy, FileNameBytes))
                  && r.url == presign(r.fileName, p.fileType, p.fileSize)
                  && db.posts == old(db.posts) + [PostRow(newPostId, PublicUrl(pubUrl, r.fileName),
                                                          StoredDescription(p.description), p.title, p.tags,
                                                          g.userId, 0)])
    ensures r.Failure? ==> db.posts == old(db.posts)
    ensures unchanged(db`users, db`otps, db`portfolios, db`sessionRows)
  {
    if p.fileType !in AllowedFileTypes {
      return Failure(TypeNotAllowed);
    }
    if p.fileSize > MaxFileSize {
      return Failure(TooLarge);
    }
    var session := Session.VerifySession(sm.cookies, sm.key, nowMs);
    if session.None? {
      return Failure(NotAuthenticated);
    }
    var userId := session.value.userId;
    var fileName := GenerateFileName(FileNameBytes, entropy);
    var uploadUrl := PublicUrl(pubUrl, fileName);
    if serviceError {
      return Failure(ServiceFailed);
    }
    var url := presign(fileName, p.fileType, p.fileSize);
    db.posts := db.posts + [PostRow(newPostId, uploadUrl, StoredDescription(p.description), p.title, p.tags, userId, 0)];
    r := Success(url, fileName);
  }

  /** A successful upload names a 64-character lowercase hex object, and the
      stored post's URL ends in that very name. */
  lemma UploadNameAndUrlAgree(pubUrl: Option<string>, entropy: nat -> Byte)
    ensures var name := HexString(RandomBytes(entropy, FileNameBytes));
            |name| == 64
            && (forall c :: c in name ==> IsHexDigit(c))
            && PublicUrl(pubUrl, name)[|PublicUrl(pubUrl, name)| - 64..] == name
  {
  }
}
