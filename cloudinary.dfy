/** The image-upload helper: decides from the string's prefix whether an
    image is already hosted, must be uploaded, or is unusable, and wraps
    the hosting service's answer. The service itself is an oracle. */
module Cloudinary {
  import opened Common
  import opened Text

  const HttpPrefix: string := "http"
  const DataImagePrefix: string := "data:image/"
  const FailurePrefix: string := "Cloudinary upload failed: "

  /** What the hosting service answers for one upload. */
  datatype ServiceReply = Hosted(secureUrl: string) | Refused(message: string)

  /** The upload service, as seen by this helper. */
  type Uploader = string -> ServiceReply

  /** How the helper settles: with a URL, with `null`, or by throwing. */
  datatype Outcome = Url(url: string) | NoImage | Thrown(message: string)

  /** The outcome, and the string handed to the service if any. */
  datatype Upload = Upload(outcome: Outcome, sent: Option<string>)

  /** An inline image: a data URL the service can take. */
  predicate Inline(input: Option<string>) {
    Truthy(input) && !StartsWith(input.value, HttpPrefix) && StartsWith(input.value, DataImagePrefix)
  }

  /** `uploadToCloudinary`: nothing for an empty input; an `http…` string
      is already hosted and comes back as it is; anything that is not a
      data URL is skipped; a data URL is uploaded, and the service's
      refusal surfaces as an error naming its message. */
  function UploadToCloudinary(input: Option<string>, upload: Uploader): (r: Upload)
    ensures r.sent.Some? <==> Inline(input)
    ensures r.sent.Some? ==> r.sent == input
    ensures !Truthy(input) ==> r.outcome == NoImage
    ensures Truthy(input) && StartsWith(input.value, HttpPrefix) ==> r.outcome == Url(input.value)
    ensures Truthy(input) && !StartsWith(input.value, HttpPrefix) && !StartsWith(input.value, DataImagePrefix) ==>
      r.outcome == NoImage
    ensures Inline(input) && upload(input.value).Hosted? ==> r.outcome == Url(upload(input.value).secureUrl)
    ensures Inline(input) && upload(input.value).Refused? ==>
      r.outcome.Thrown? && StartsWith(r.outcome.message, FailurePrefix)
      && r.outcome.message[|FailurePrefix|..] == upload(input.value).message
  {
    if !Truthy(input) then Upload(NoImage, None)
    else if StartsWith(input.value, HttpPrefix) then Upload(Url(input.value), None)
    else if !StartsWith(input.value, DataImagePrefix) then Upload(NoImage, None)
    else match upload(input.value)
      case Hosted(url) => Upload(Url(url), input)
      case Refused(message) => Upload(Thrown(FailurePrefix + message), input)
  }

  /** Saving a product again with the URL an upload produced (the edit
      case) never uploads twice: the hosted URL comes back unchanged. */
  lemma HostedUrlNotReuploaded(input: Option<string>, upload: Uploader, again: Uploader)
    requires Inline(input) && upload(input.value).Hosted?
    requires StartsWith(upload(input.value).secureUrl, HttpPrefix)
    ensures var url := UploadToCloudinary(input, upload).outcome.url;
      UploadToCloudinary(Some(url), again) == Upload(Url(url), None)
  {
  }

  /** The outcome never depends on the service unless an upload is made. */
  lemma ServiceOnlyForInline(input: Option<string>, upload: Uploader, other: Uploader)
    requires !Inline(input)
    ensures UploadToCloudinary(input, upload) == UploadToCloudinary(input, other)
  {
  }
}
