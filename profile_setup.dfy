/** The profile form: the display-name checks, the profile record built from
    the form, the order of the upload and contract calls, and the busy flag. */
module ProfileSetup {
  import opened Wrappers
  import opened JsStrings
  import opened AvatarFile

  /** The profile document uploaded to IPFS. */
  datatype ProfileData = ProfileData(displayName: string, bio: string, avatar: string, createdAt: int)

  /** Display names longer than this are refused. */
  const MaxDisplayName: nat := 50

  datatype ProfileRefusal = DisplayNameRequired | DisplayNameTooLong

  /** The two checks of handleSubmit: a blank name, then an untrimmed `length`
      (UTF-16 code units) over 50. */
  function CheckDisplayName(displayName: string): (r: Option<ProfileRefusal>)
    ensures r == Some(DisplayNameRequired) <==> AllWhitespace(displayName)
    ensures r == Some(DisplayNameTooLong) <==> !AllWhitespace(displayName) && JsLength(displayName) > MaxDisplayName
    ensures r == None <==> !AllWhitespace(displayName) && JsLength(displayName) <= MaxDisplayName
  {
    TrimEmptyIff(displayName);
    if Trim(displayName) == [] then Some(DisplayNameRequired)
    else if JsLength(displayName) > MaxDisplayName then Some(DisplayNameTooLong)
    else None
  }

  /** The answer of one awaited upload: a content hash, or a thrown error. */
  datatype Upload = Uploaded(hash: string) | UploadFailed

  /** The calls a submit makes to the outside, in order. */
  datatype Call =
    | UploadFileCall(file: FileInfo)
    | UploadProfileCall(data: ProfileData)
    | SetProfileCall(profileHash: string, displayName: string)

  datatype SubmitOutcome = Refused(reason: ProfileRefusal) | Failed | Submitted

  /** `isUploading || isPending || isConfirming`. */
  predicate IsLoading(isUploading: bool, isPending: bool, isConfirming: bool) {
    isUploading || isPending || isConfirming
  }

  /** The submit button's `disabled` expression. */
  predicate SubmitDisabled(isUploading: bool, isPending: bool, isConfirming: bool, displayName: string) {
    IsLoading(isUploading, isPending, isConfirming) || Trim(displayName) == []
  }

  /** The button is disabled for a blank name and while anything is in flight,
      so a second submit cannot start during an upload. */
  lemma SubmitDisabledCases(isUploading: bool, isPending: bool, isConfirming: bool, displayName: string)
    ensures CheckDisplayName(displayName) == Some(DisplayNameRequired) ==>
      SubmitDisabled(isUploading, isPending, isConfirming, displayName)
    ensures isUploading ==> SubmitDisabled(isUploading, isPending, isConfirming, displayName)
    ensures !SubmitDisabled(isUploading, isPending, isConfirming, displayName) ==>
      CheckDisplayName(displayName) != Some(DisplayNameRequired)
  {
    TrimEmptyIff(displayName);
  }

  class ProfileForm {
    var displayName: string
    var bio: string
    var avatar: AvatarChoice
    var isUploading: bool

    constructor ()
      ensures displayName == [] && bio == [] && avatar == NoAvatar && !isUploading
    {
      displayName := [];
      bio := [];
      avatar := NoAvatar;
      isUploading := false;
    }

    /** handleAvatarChange: the same checks as the registration form. */
    method AvatarChange(file: Option<FileInfo>, preview: string)
      modifies this
      ensures avatar == ChooseAvatar(old(avatar), file, preview)
      ensures displayName == old(displayName) && bio == old(bio) && isUploading == old(isUploading)
    {
      avatar := ChooseAvatar(avatar, file, preview);
    }

    /** handleSubmit. The answers of the two uploads, whether `setProfile`
        throws and `Date.now()` are inputs; `calls` lists what was sent out. */
    method Submit(avatarUpload: Upload, profileUpload: Upload, setProfileThrows: bool, now: int)
      returns (outcome: SubmitOutcome, calls: seq<Call>)
      modifies this
      ensures CheckDisplayName(old(displayName)).Some? ==>
        outcome == Refused(CheckDisplayName(old(displayName)).value) && calls == [] &&
        isUploading == old(isUploading)
      ensures CheckDisplayName(old(displayName)).None? ==>
        calls == SubmitCalls(Trim(old(displayName)), Trim(old(bio)), old(avatar).file, avatarUpload, profileUpload, now) &&
        !isUploading
      ensures outcome == Submitted <==>
        CheckDisplayName(old(displayName)).None? && !setProfileThrows && profileUpload.Uploaded? &&
        (old(avatar).file.Some? ==> avatarUpload.Uploaded?)
      ensures displayName == old(displayName) && bio == old(bio) && avatar == old(avatar)
    {
      var refusal := CheckDisplayName(displayName);
      if refusal.Some? {
        return Refused(refusal.value), [];
      }
      var name := Trim(displayName);
      var trimmedBio := Trim(bio);
      isUploading := true;
      calls := [];
      outcome := Failed;
      var avatarHash := "";
      var uploaded := true;
      if avatar.file.Some? {
        calls := calls + [UploadFileCall(avatar.file.value)];
        if avatarUpload.UploadFailed? {
          uploaded := false;
        } else {
          avatarHash := avatarUpload.hash;
        }
      }
      if uploaded {
        var profileData := ProfileData(name, trimmedBio, avatarHash, now);
        calls := calls + [UploadProfileCall(profileData)];
        if profileUpload.Uploaded? {
          calls := calls + [SetProfileCall(profileUpload.hash, name)];
          if !setProfileThrows {
            outcome := Submitted;
          }
        }
      }
      isUploading := false;
    }
  }

  /** The calls of a submit whose display name passed the checks, given the
      trimmed name and bio: the avatar upload when a file is chosen, then,
      unless that threw, the profile upload, then, unless that threw, the
      contract call. */
  function SubmitCalls(name: string, bio: string, file: Option<FileInfo>,
                       avatarUpload: Upload, profileUpload: Upload, now: int): seq<Call>
  {
    var head := if file.Some? then [UploadFileCall(file.value)] else [];
    if file.Some? && avatarUpload.UploadFailed? then head
    else
      var data := ProfileData(name, bio, if file.Some? then avatarUpload.hash else "", now);
      head + [UploadProfileCall(data)] +
      (if profileUpload.Uploaded? then [SetProfileCall(profileUpload.hash, name)] else [])
  }

  /** What the calls carry: the file upload comes first when a file is chosen;
      the uploaded profile has the given name and bio, the avatar hash or ""
      without a file, and the submit time; the contract call comes last, carries
      the profile's hash and the name, and happens exactly when both uploads
      succeeded. */
  lemma SubmitCallsSpec(name: string, bio: string, file: Option<FileInfo>,
                        avatarUpload: Upload, profileUpload: Upload, now: int)
    ensures var calls := SubmitCalls(name, bio, file, avatarUpload, profileUpload, now);
      (file.Some? <==> calls != [] && calls[0].UploadFileCall?) &&
      (file.Some? ==> calls[0] == UploadFileCall(file.value)) &&
      (forall k :: 0 <= k < |calls| && calls[k].UploadProfileCall? ==>
         calls[k].data == ProfileData(name, bio, if file.Some? then avatarUpload.hash else "", now)) &&
      (forall k :: 0 <= k < |calls| && calls[k].SetProfileCall? ==>
         k == |calls| - 1 && calls[k] == SetProfileCall(profileUpload.hash, name)) &&
      ((exists k :: 0 <= k < |calls| && calls[k].SetProfileCall?) <==>
         profileUpload.Uploaded? && (file.Some? ==> avatarUpload.Uploaded?))
  {
    var calls := SubmitCalls(name, bio, file, avatarUpload, profileUpload, now);
    if profileUpload.Uploaded? && (file.Some? ==> avatarUpload.Uploaded?) {
      assert calls[|calls| - 1].SetProfileCall?;
    }
  }

  /** The name and bio a submit sends out carry no surrounding whitespace, and
      the name is not empty. */
  lemma SubmittedFieldsTrimmed(displayName: string, bio: string)
    requires CheckDisplayName(displayName) == None
    ensures Trim(Trim(displayName)) == Trim(displayName) && Trim(displayName) != []
    ensures Trim(Trim(bio)) == Trim(bio)
  {
    TrimIdempotent(displayName);
    TrimIdempotent(bio);
    TrimEmptyIff(displayName);
  }
}
