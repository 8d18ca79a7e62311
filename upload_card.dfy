/** The upload form of src/components/uploadCard.tsx: required-field checks,
    the radio group of tags, and the submit sequence around getSignedURL,
    whose reply, the result of the PUT to the signed URL, the SHA-256 digest
    of the image and the signed-in username are parameters. */
module UploadCard {
  import opened Common
  import opened Hex
  import UploadActions

  const TagOptions: seq<string> := ["Site Plan", "Interior", "Zoning", "Section", "Elevation",
                                    "Floor Plan", "Site Analysis", "Model"]

  const TitleRequired := "Title is required"
  const TagsRequired := "Tags are required"
  const ImageRequired := "Image is required"

  /** The selected `File`: its MIME type and size in bytes. */
  datatype ImageFile = ImageFile(mimeType: string, size: int)

  /** The `formErrors` object of handleSubmit (uploadCard.tsx:47-50). */
  method CollectFormErrors(title: string, tags: string, image: Option<ImageFile>) returns (formErrors: map<string, string>)
    ensures formErrors.Keys <= {"title", "tags", "image"}
    ensures "title" in formErrors <==> title == ""
    ensures "tags" in formErrors <==> tags == ""
    ensures "image" in formErrors <==> image.None?
    ensures "title" in formErrors ==> formErrors["title"] == TitleRequired
    ensures "tags" in formErrors ==> formErrors["tags"] == TagsRequired
    ensures "image" in formErrors ==> formErrors["image"] == ImageRequired
    ensures |formErrors| == 0 <==> title != "" && tags != "" && image.Some?
  {
    formErrors := map[];
    if title == "" {
      formErrors := formErrors["title" := TitleRequired];
    }
    if tags == "" {
      formErrors := formErrors["tags" := TagsRequired];
    }
    if image.None? {
      formErrors := formErrors["image" := ImageRequired];
    }
  }

  /** The checksum sent with the request: the digest as lowercase hex. */
  function Checksum(digest: seq<Byte>): (c: string)
    ensures |c| == 2 * |digest|
    ensures forall ch :: ch in c ==> IsHexDigit(ch)
    ensures HexDecode(c) == digest
  {
    HexRoundTrip(digest);
    HexString(digest)
  }

  class UploadForm {
    var title: string
    var tags: string
    var description: string
    var image: Option<ImageFile>
    var errors: map<string, string>
    var loading: bool

    /** The tag is either unset or one of the offered options. */
    predicate Valid()
      reads this
    {
      tags == "" || tags in TagOptions
    }

    constructor ()
      ensures Valid()
      ensures title == "" && tags == "" && description == "" && image == None
      ensures errors == map[] && !loading
    {
      title, tags, description, image := "", "", "", None;
      errors, loading := map[], false;
    }

    /** Clicking one of the radio buttons (uploadCard.tsx:175-187). */
    method SelectTag(option: string)
      requires Valid() && option in TagOptions
      modifies this
      ensures Valid() && tags == option
      ensures title == old(title) && description == old(description) && image == old(image)
      ensures errors == old(errors) && loading == old(loading)
    {
      tags := option;
    }

    /** handleSubmit (uploadCard.tsx:44-98). `request` is the argument passed
        to getSignedURL, None when the required-field check stops the
        submit; `alerted` says whether the failure alert is shown;
        `navigate` is the profile page loaded after a successful upload. */
    method HandleSubmit(digest: seq<Byte>, response: UploadActions.SignedUrlResponse, putOk: bool, username: string)
      returns (request: Option<UploadActions.UploadParams>, alerted: bool, navigate: Option<string>)
      requires Valid()
      modifies this
      ensures Valid()
      ensures title == old(title) && tags == old(tags) && description == old(description) && image == old(image)
      ensures errors.Keys <= {"title", "tags", "image"}
      ensures ("title" in errors <==> title == "") && ("tags" in errors <==> tags == "")
              && ("image" in errors <==> image.None?)
      ensures request.None? <==> |errors| > 0
      ensures request.None? ==> loading == old(loading) && !alerted && navigate == None
      ensures request.Some? ==>
                image.Some? &&
                request.value == UploadActions.UploadParams(image.value.mimeType, image.value.size, Checksum(digest),
                                                            title, tags, Some(description))
                && !loading
                && (navigate.Some? <==> response.Success? && putOk)
                && (alerted <==> navigate.None?)
                && (navigate.Some? ==> navigate.value == "/profile/" + username)
    {
      var formErrors := CollectFormErrors(title, tags, image);
      errors := formErrors;
      if |formErrors| > 0 {
        return None, false, None;
      }
      loading := true;
      request := Some(UploadActions.UploadParams(image.value.mimeType, image.value.size, Checksum(digest),
                                                 title, tags, Some(description)));
      navigate := None;
      alerted := false;
      if response.Success? {
        if !putOk {
          alerted := true;
          loading := false;
          return;
        }
        navigate := Some("/profile/" + username);
        loading := false;
      } else {
        alerted := true;
        loading := false;
      }
    }
  }
}
