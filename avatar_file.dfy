/** The avatar-file rule the registration and profile forms share: an image
    MIME type and at most five mebibytes. */
module AvatarFile {
  import opened Wrappers
  import opened JsStrings

  /** What the forms read from a chosen `File`: its `type` and its `size`. */
  datatype FileInfo = FileInfo(mimeType: string, size: nat)

  /** `5 * 1024 * 1024`. */
  const MaxAvatarBytes: nat := 5 * 1024 * 1024

  /** The outcome of the two checks, in the order the forms make them. */
  datatype AvatarCheck = NotAnImage | TooLarge | Accepted

  function CheckAvatar(file: FileInfo): (r: AvatarCheck)
    ensures r == NotAnImage <==> !StartsWith(file.mimeType, "image/")
    ensures r == TooLarge <==> StartsWith(file.mimeType, "image/") && file.size > MaxAvatarBytes
    ensures r == Accepted <==> StartsWith(file.mimeType, "image/") && file.size <= MaxAvatarBytes
  {
    if !StartsWith(file.mimeType, "image/") then NotAnImage
    else if file.size > MaxAvatarBytes then TooLarge
    else Accepted
  }

  /** The bound is inclusive: an image of exactly 5 MiB passes, one byte more
      does not, and a non-image is refused whatever its size. */
  lemma AvatarBoundary()
    ensures CheckAvatar(FileInfo("image/png", 5242880)) == Accepted
    ensures CheckAvatar(FileInfo("image/png", 5242881)) == TooLarge
    ensures CheckAvatar(FileInfo("text/plain", 0)) == NotAnImage
    ensures CheckAvatar(FileInfo("image", 0)) == NotAnImage
  {
    assert "image/png"[..6] == "image/";
    assert "text/plain"[..6] != "image/" by { assert "text/plain"[0] != "image/"[0]; }
  }

  /** A form's `avatarFile` and `avatarPreview` states. */
  datatype AvatarChoice = AvatarChoice(file: Option<FileInfo>, preview: string)

  const NoAvatar := AvatarChoice(None, "")

  /** handleAvatarChange: with no file nothing happens; a file failing a check
      is refused and the earlier choice stays; an accepted file becomes the
      choice, with `preview` (the data URL the file reader produces) as its preview. */
  function ChooseAvatar(current: AvatarChoice, file: Option<FileInfo>, preview: string): (r: AvatarChoice)
    ensures r == current || r == AvatarChoice(file, preview)
    ensures r.file != current.file ==> file.Some? && CheckAvatar(file.value) == Accepted
    ensures file.Some? && CheckAvatar(file.value) == Accepted ==> r == AvatarChoice(file, preview)
    ensures !(file.Some? && CheckAvatar(file.value) == Accepted) ==> r == current
  {
    if file.Some? && CheckAvatar(file.value) == Accepted then AvatarChoice(file, preview) else current
  }

  /** Every chosen file passed both checks. */
  ghost predicate ChoiceChecked(c: AvatarChoice) {
    c.file.Some? ==> CheckAvatar(c.file.value) == Accepted
  }

  /** Choosing keeps the choice checked, so a form never holds a refused file. */
  lemma ChooseAvatarKeepsChecked(current: AvatarChoice, file: Option<FileInfo>, preview: string)
    requires ChoiceChecked(current)
    ensures ChoiceChecked(ChooseAvatar(current, file, preview))
    ensures file.Some? && CheckAvatar(file.value) != Accepted ==> ChooseAvatar(current, file, preview) == current
  {
  }
}
