/** The profile settings page (src/pages/ProfileSettings.jsx): the form that
    a fetched profile fills, the username sanitiser, the choice of field,
    bucket and file extension for image uploads, the crop dialog's state and
    the photographer toggle. */
module ProfileSettings {
  import opened Js
  import RoleBadge

  /** A `profiles` row as selected; every column may be null. */
  datatype ProfileRecord = ProfileRecord(
    fullName: Option<string>, username: Option<string>, bio: Option<string>,
    location: Option<string>, website: Option<string>, role: Option<string>,
    avatarUrl: Option<string>, coverPhotoUrl: Option<string>)

  /** The `formData` state cell; every field holds a string. */
  datatype ProfileForm = ProfileForm(
    fullName: string, username: string, bio: string, location: string,
    website: string, role: string, avatarUrl: string, coverPhotoUrl: string)

  /** The form before any profile is fetched. */
  const InitialForm := ProfileForm("", "", "", "", "", "customer", "", "")

  /** The form a fetched row fills: each column `|| ''`, the role `|| 'customer'`. */
  function FormOf(row: ProfileRecord): (f: ProfileForm)
    ensures f.role != ""
    ensures Truthy(row.role) ==> f.role == row.role.value
    ensures !Truthy(row.role) ==> f.role == "customer"
    ensures Truthy(row.fullName) ==> f.fullName == row.fullName.value
    ensures !Truthy(row.fullName) ==> f.fullName == ""
    ensures Truthy(row.username) ==> f.username == row.username.value
    ensures !Truthy(row.username) ==> f.username == ""
    ensures Truthy(row.bio) ==> f.bio == row.bio.value
    ensures !Truthy(row.bio) ==> f.bio == ""
    ensures Truthy(row.location) ==> f.location == row.location.value
    ensures !Truthy(row.location) ==> f.location == ""
    ensures Truthy(row.website) ==> f.website == row.website.value
    ensures !Truthy(row.website) ==> f.website == ""
    ensures Truthy(row.avatarUrl) ==> f.avatarUrl == row.avatarUrl.value
    ensures !Truthy(row.avatarUrl) ==> f.avatarUrl == ""
    ensures Truthy(row.coverPhotoUrl) ==> f.coverPhotoUrl == row.coverPhotoUrl.value
    ensures !Truthy(row.coverPhotoUrl) ==> f.coverPhotoUrl == ""
  {
    ProfileForm(Or(row.fullName, ""), Or(row.username, ""), Or(row.bio, ""),
                Or(row.location, ""), Or(row.website, ""), Or(row.role, "customer"),
                Or(row.avatarUrl, ""), Or(row.coverPhotoUrl, ""))
  }

  /** The row a save writes: `update(formData)` stores every field as is. */
  function RecordOf(f: ProfileForm): ProfileRecord {
    ProfileRecord(Some(f.fullName), Some(f.username), Some(f.bio), Some(f.location),
                  Some(f.website), Some(f.role), Some(f.avatarUrl), Some(f.coverPhotoUrl))
  }

  /** Saving a form and fetching it back gives the same form, as long as its
      role is not empty (an empty role reads back as customer). */
  lemma SaveThenFetch(f: ProfileForm)
    ensures f.role != "" ==> FormOf(RecordOf(f)) == f
    ensures f.role == "" ==> FormOf(RecordOf(f)) == f.(role := "customer")
  {
  }

  /** Filling the form twice changes nothing. */
  lemma FormOfIsIdempotent(row: ProfileRecord)
    ensures FormOf(RecordOf(FormOf(row))) == FormOf(row)
  {
  }

  /** `.replace(/\s+/g, '')`: every white-space character removed. */
  function RemoveSpaces(s: string): (r: string)
    ensures |r| <= |s|
    ensures forall i :: 0 <= i < |r| ==> !IsSpace(r[i]) && r[i] in s
    ensures (forall k :: 0 <= k < |s| ==> !IsSpace(s[k])) ==> r == s
  {
    if s == [] then ""
    else if IsSpace(s[0]) then RemoveSpaces(s[1..])
    else [s[0]] + RemoveSpaces(s[1..])
  }

  /** Removing white space from a concatenation removes it from each part. */
  lemma {:induction false} RemoveSpacesAppend(a: string, b: string)
    ensures RemoveSpaces(a + b) == RemoveSpaces(a) + RemoveSpaces(b)
  {
    if a == [] {
      assert a + b == b;
    } else {
      RemoveSpacesAppend(a[1..], b);
      assert (a + b)[0] == a[0] && (a + b)[1..] == a[1..] + b;
    }
  }

  /** One character is dropped if it is white space and kept otherwise; with
      `RemoveSpacesAppend` this fixes the result for every string: every
      other character is kept, in order. */
  lemma RemoveSpacesChar(c: char)
    ensures RemoveSpaces([c]) == if IsSpace(c) then "" else [c]
  {
  }

  /** The username field's `onChange`: lower-case, then drop white space. The
      result is the input's non-space characters, in order, lower-cased. */
  function SanitizeUsername(s: string): (r: string)
    ensures |r| <= |s|
    ensures forall i :: 0 <= i < |r| ==> !IsSpace(r[i]) && !IsUpper(r[i])
    ensures r == LowerCase(RemoveSpaces(s))
  {
    SanitizeCommutes(s);
    var lowered := LowerCase(s);
    var r := RemoveSpaces(lowered);
    assert forall i :: 0 <= i < |r| ==> !IsUpper(r[i]) by {
      forall i | 0 <= i < |r|
        ensures !IsUpper(r[i])
      {
        var k :| 0 <= k < |lowered| && lowered[k] == r[i];
      }
    }
    r
  }

  /** A string with no upper-case letter is its own lower-case. */
  lemma LowerCaseFixes(s: string)
    requires forall i :: 0 <= i < |s| ==> !IsUpper(s[i])
    ensures LowerCase(s) == s
  {
  }

  /** Sanitising a sanitised name changes nothing. */
  lemma SanitizeIsIdempotent(s: string)
    ensures SanitizeUsername(SanitizeUsername(s)) == SanitizeUsername(s)
  {
    var r := SanitizeUsername(s);
    LowerCaseFixes(r);
  }

  /** Lower-casing first or removing white space first gives the same name:
      ASCII case mapping neither makes nor removes white space. */
  lemma {:induction false} SanitizeCommutes(s: string)
    ensures RemoveSpaces(LowerCase(s)) == LowerCase(RemoveSpaces(s))
  {
    if s != [] {
      var t := s[1..];
      SanitizeCommutes(t);
      var lowered := LowerCase(s);
      assert lowered[0] == LowerChar(s[0]) && IsSpace(lowered[0]) == IsSpace(s[0]);
      assert lowered[1..] == LowerCase(t);
      if !IsSpace(s[0]) {
        LowerCaseCons(s[0], RemoveSpaces(t));
      }
    }
  }

  /** `toLowerCase` works character by character. */
  lemma LowerCaseCons(c: char, t: string)
    ensures LowerCase([c] + t) == [LowerChar(c)] + LowerCase(t)
  {
  }

  /** The two image fields of the form. */
  datatype ImageField = AvatarUrl | CoverPhotoUrl

  /** `type === 'avatar' ? 'avatar_url' : 'cover_photo_url'`. */
  function FieldForKind(kind: string): (f: ImageField)
    ensures f == AvatarUrl <==> kind == "avatar"
  {
    if kind == "avatar" then AvatarUrl else CoverPhotoUrl
  }

  /** The storage bucket an upload goes to. */
  function Bucket(field: ImageField): (b: string)
    ensures b == "avatars" <==> field == AvatarUrl
    ensures field == CoverPhotoUrl ==> b == "covers"
  {
    if field == AvatarUrl then "avatars" else "covers"
  }

  /** The extension of the uploaded file name: `png` for an avatar, otherwise
      `file.name?.split('.').pop() || 'jpg'`. */
  function Extension(field: ImageField, name: Option<string>): (ext: string)
    ensures ext != ""
    ensures field == AvatarUrl ==> ext == "png"
    ensures field == CoverPhotoUrl && name.None? ==> ext == "jpg"
  {
    if field == AvatarUrl then "png"
    else if name.None? then "jpg"
    else Or(Some(Last(Split(name.value, '.'))), "jpg")
  }

  /** A cover's extension is the last `.`-separated part of its name (what
      `LastPartFollowsLastSep` pins down: the text after the last `.`, or the
      whole name when it has none), or `jpg` when that part is empty. */
  lemma CoverExtension(name: string)
    ensures var p := Last(Split(name, '.'));
      (p != "" ==> Extension(CoverPhotoUrl, Some(name)) == p) &&
      (p == "" ==> Extension(CoverPhotoUrl, Some(name)) == "jpg")
    ensures '.' !in Extension(CoverPhotoUrl, Some(name)) || Extension(CoverPhotoUrl, Some(name)) == "jpg"
    ensures name == "" || name[|name| - 1] == '.' ==> Extension(CoverPhotoUrl, Some(name)) == "jpg"
  {
    LastPartFollowsLastSep(name, '.');
  }

  /** Given the position `i` of the last `.` of a name, a cover's extension
      is the text after it, or `jpg` when the name ends in that `.`. */
  lemma CoverExtensionAfterLastDot(name: string, i: nat)
    requires i < |name| && name[i] == '.' && '.' !in name[i + 1..]
    ensures Extension(CoverPhotoUrl, Some(name)) == if i + 1 == |name| then "jpg" else name[i + 1..]
  {
    LastPartFollowsLastSep(name, '.');
    var p := Last(Split(name, '.'));
    forall k | |name| - |p| <= k < |name|
      ensures name[k] != '.'
    {
      assert name[k] == p[k - (|name| - |p|)];
    }
    forall k | i < k < |name|
      ensures name[k] != '.'
    {
      assert name[k] == name[i + 1..][k - (i + 1)];
    }
    assert |p| == |name| - i - 1;
    assert p == name[i + 1..];
  }

  /** Named covers keep their own extension; only the last one counts. */
  lemma CoverExtensionExamples()
    ensures Extension(CoverPhotoUrl, Some("a.png")) == "png"
    ensures Extension(CoverPhotoUrl, Some("archive.tar.gz")) == "gz"
    ensures Extension(CoverPhotoUrl, Some("photo.")) == "jpg"
  {
    CoverExtensionAfterLastDot("a.png", 1);
    CoverExtensionAfterLastDot("archive.tar.gz", 11);
    CoverExtensionAfterLastDot("photo.", 5);
  }

  /** The form with `field` set to `url`: `{ ...prev, [field]: url }`. */
  function WithImage(f: ProfileForm, field: ImageField, url: string): (g: ProfileForm)
    ensures field == AvatarUrl ==> g == f.(avatarUrl := url)
    ensures field == CoverPhotoUrl ==> g == f.(coverPhotoUrl := url)
  {
    match field
    case AvatarUrl => f.(avatarUrl := url)
    case CoverPhotoUrl => f.(coverPhotoUrl := url)
  }

  /** `checked ? 'photographer' : 'customer'`. */
  function RoleForToggle(checked: bool): (role: string)
    ensures role != "admin"
    ensures role == "photographer" <==> checked
  {
    if checked then "photographer" else "customer"
  }

  /** The role the toggle writes is one the role badge recognises as itself:
      Photographer when checked, Customer otherwise. */
  lemma ToggleSetsBadge(checked: bool)
    ensures RoleBadge.NormalizeRole(Some(RoleForToggle(checked))) == (if checked then "photographer" else "customer")
    ensures RoleBadge.RoleBadge(Some(RoleForToggle(checked)), "full").text == (if checked then "Photographer" else "Customer")
  {
  }

  /** A cropped image handed to the upload; `name` is absent for a blob. */
  datatype ImageFile = ImageFile(name: Option<string>)

  /** A storage upload: bucket, owning user and extension (the time stamp in
      the file name is not modelled). */
  datatype Upload = Upload(bucket: string, userId: string, ext: string)

  /** The storage reply: the public URL of the stored object (with its
      cache-busting suffix), or a failure. */
  datatype UploadReply = Uploaded(publicUrl: string) | UploadFailed

  class ProfileSettingsPage {
    const userId: string
    var formData: ProfileForm
    var loading: bool
    var saving: bool
    var cropModalOpen: bool
    /** The data URL of the picked file, shown in the crop dialog. */
    var imageToCrop: Option<string>
    var croppingField: Option<ImageField>
    /** The profile selects issued, by user id. */
    var selects: seq<string>
    var uploads: seq<Upload>
    /** The forms written by `handleSubmit`, in order. */
    var saved: seq<ProfileForm>

    constructor (userId: string)
      ensures this.userId == userId
      ensures formData == InitialForm && loading && !saving
      ensures !cropModalOpen && imageToCrop == None && croppingField == None
      ensures selects == [] && uploads == [] && saved == []
    {
      this.userId := userId;
      formData := InitialForm;
      loading := true;
      saving := false;
      cropModalOpen := false;
      imageToCrop := None;
      croppingField := None;
      selects := [];
      uploads := [];
      saved := [];
    }

    /** `fetchProfile`: fill the form from the row, if one came back. */
    method FetchProfile(data: Option<ProfileRecord>)
      modifies this`formData, this`loading, this`selects
      ensures selects == old(selects) + [userId]
      ensures data.Some? ==> formData == FormOf(data.value)
      ensures data.None? ==> formData == old(formData)
      ensures !loading
    {
      loading := true;
      selects := selects + [userId];
      if data.Some? {
        formData := FormOf(data.value);
      }
      loading := false;
    }

    /** The username input's `onChange`. */
    method ChangeUsername(input: string)
      modifies this`formData
      ensures formData == old(formData).(username := SanitizeUsername(input))
    {
      formData := formData.(username := SanitizeUsername(input));
    }

    /** `handleFileSelect(e, type)` once the reader has produced `dataUrl`;
        `dataUrl` is absent when no file was picked. */
    method FileSelected(kind: string, dataUrl: Option<string>)
      modifies this`cropModalOpen, this`imageToCrop, this`croppingField
      ensures dataUrl.None? ==>
        cropModalOpen == old(cropModalOpen) && imageToCrop == old(imageToCrop) && croppingField == old(croppingField)
      ensures dataUrl.Some? ==>
        cropModalOpen && imageToCrop == dataUrl && croppingField == Some(FieldForKind(kind))
    {
      if dataUrl.None? {
        return;
      }
      imageToCrop := dataUrl;
      croppingField := Some(FieldForKind(kind));
      cropModalOpen := true;
    }

    /** `handleImageUpload(file, field)`: upload, then point the field at the
        public URL; a failure leaves the form as it was. */
    method ImageUpload(file: Option<ImageFile>, field: ImageField, reply: UploadReply)
      modifies this`formData, this`uploads
      ensures file.None? ==> formData == old(formData) && uploads == old(uploads)
      ensures file.Some? ==>
        uploads == old(uploads) + [Upload(Bucket(field), userId, Extension(field, file.value.name))]
      ensures file.Some? && reply.Uploaded? ==> formData == WithImage(old(formData), field, reply.publicUrl)
      ensures reply.UploadFailed? ==> formData == old(formData)
    {
      if file.None? {
        return;
      }
      var ext := Extension(field, file.value.name);
      var bucket := Bucket(field);
      uploads := uploads + [Upload(bucket, userId, ext)];
      if reply.Uploaded? {
        formData := WithImage(formData, field, reply.publicUrl);
      }
    }

    /** `handleCropComplete(croppedBlob)`: upload into the field being cropped,
        if any, and close the dialog. */
    method HandleCropComplete(blob: Option<ImageFile>, reply: UploadReply)
      modifies this`formData, this`uploads, this`cropModalOpen, this`imageToCrop, this`croppingField
      ensures !cropModalOpen && imageToCrop == None && croppingField == None
      ensures old(croppingField).None? ==> formData == old(formData) && uploads == old(uploads)
      ensures old(croppingField).Some? && blob.Some? ==>
        uploads == old(uploads) + [Upload(Bucket(old(croppingField).value), userId,
                                          Extension(old(croppingField).value, blob.value.name))]
      ensures old(croppingField).Some? && blob.Some? && reply.Uploaded? ==>
        formData == WithImage(old(formData), old(croppingField).value, reply.publicUrl)
      ensures old(croppingField).Some? && blob.None? ==> uploads == old(uploads)
      ensures blob.None? || reply.UploadFailed? ==> formData == old(formData)
    {
      if croppingField.Some? {
        ImageUpload(blob, croppingField.value, reply);
      }
      cropModalOpen := false;
      imageToCrop := None;
      croppingField := None;
    }

    /** `handleCancelCrop`: close the dialog without uploading. */
    method HandleCancelCrop()
      modifies this`cropModalOpen, this`imageToCrop, this`croppingField
      ensures !cropModalOpen && imageToCrop == None && croppingField == None
    {
      cropModalOpen := false;
      imageToCrop := None;
      croppingField := None;
    }

    /** The photographer checkbox's `onChange`; the checkbox is only rendered
        when the role is not `admin`. */
    method ToggleRole(checked: bool)
      requires formData.role != "admin"
      modifies this`formData
      ensures formData == old(formData).(role := RoleForToggle(checked))
      ensures formData.role != "admin"
      ensures (formData.role == "photographer") == checked
    {
      formData := formData.(role := RoleForToggle(checked));
    }

    /** `handleSubmit`: write the whole form; `failed` is whether the store
        reported an error. */
    method Submit(failed: bool) returns (ok: bool)
      modifies this`saving, this`saved
      ensures saved == old(saved) + [formData]
      ensures ok <==> !failed
      ensures !saving
    {
      saving := true;
      saved := saved + [formData];
      saving := false;
      ok := !failed;
    }
  }
}
