/** The profile modal (`ProfileModal`): the profile form, the photo choice, and the save that
    writes the profile row and hands the merged profile back to the navigation bar. */
module ProfileModalForm {
  import opened Wrappers
  import opened Text
  import opened Decimal
  import opened Entities
  import opened Sequences

  /** `formData`. */
  datatype ProfileForm = ProfileForm(nome: string, sexo: string, pais: string, estado: string)

  /** The `name` attributes of the form's inputs. */
  datatype ProfileField = Nome | Sexo | Pais | Estado

  // ----- Opening the modal -----

  /** `formData` after the open effect: each field of the profile, with `|| ''`. */
  function InitialForm(p: Profile): (f: ProfileForm)
    ensures Truthy(p.nome) ==> f.nome == p.nome.value
    ensures !Truthy(p.nome) ==> f.nome == ""
    ensures Truthy(p.sexo) ==> f.sexo == p.sexo.value
    ensures !Truthy(p.sexo) ==> f.sexo == ""
    ensures Truthy(p.pais) ==> f.pais == p.pais.value
    ensures !Truthy(p.pais) ==> f.pais == ""
    ensures Truthy(p.estado) ==> f.estado == p.estado.value
    ensures !Truthy(p.estado) ==> f.estado == ""
  {
    ProfileForm(OrEmpty(p.nome), OrEmpty(p.sexo), OrEmpty(p.pais), OrEmpty(p.estado))
  }

  /** The preview with no picked file: the existing photo (`|| null`). */
  function ExistingPhoto(p: Profile): (preview: Option<string>)
    ensures preview.Some? ==> preview == p.fotoPerfil && p.fotoPerfil.value != ""
    ensures Truthy(p.fotoPerfil) ==> preview.Some?
  {
    OrNull(p.fotoPerfil)
  }

  // ----- Editing the fields -----

  /** `handleInputChange`: the named field takes the new value, the others are untouched. */
  function WithInput(f: ProfileForm, field: ProfileField, value: string): (g: ProfileForm)
    ensures g.nome == (if field == Nome then value else f.nome)
    ensures g.sexo == (if field == Sexo then value else f.sexo)
    ensures g.pais == (if field == Pais then value else f.pais)
    ensures g.estado == (if field == Estado then value else f.estado)
  {
    match field
    case Nome => f.(nome := value)
    case Sexo => f.(sexo := value)
    case Pais => f.(pais := value)
    case Estado => f.(estado := value)
  }

  // ----- Photo path -----

  /** Where a new photo is uploaded: `perfil/<uid>-<Date.now()>.<ext>`. */
  function PhotoPath(uid: string, now: nat, fileName: string): string {
    "perfil/" + uid + "-" + ToDecimal(now) + "." + FileExtension(fileName)
  }

  /** The uploaded photo keeps the picked file's extension, and sits in `perfil/` under a name
      that starts with the user's id. */
  lemma PhotoPathShape(uid: string, now: nat, fileName: string)
    ensures var path := PhotoPath(uid, now, fileName);
      AfterLast(path, '.') == FileExtension(fileName) &&
      path[..|"perfil/" + uid + "-"|] == "perfil/" + uid + "-"
  {
    var ext := FileExtension(fileName);
    var prefix := "perfil/" + uid + "-";
    var stem := prefix + ToDecimal(now);
    assert PhotoPath(uid, now, fileName) == stem + ['.'] + ext;
    AfterLastOfJoin(stem, '.', ext);
    TakeOfAppend(stem + ['.'], ext, |prefix|);
    TakeOfAppend(stem, ['.'], |prefix|);
    TakeOfAppend(prefix, ToDecimal(now), |prefix|);
    assert prefix[..|prefix|] == prefix;
  }

  // ----- Saving -----

  /** The columns written: exactly these five; `email` is never among them. */
  datatype ProfilePayload = ProfilePayload(
    nome: string, sexo: string, pais: string, estado: string, fotoPerfil: Option<string>)

  /** The backend calls one save issues, in order. */
  datatype BackendCall =
    | UploadPhoto(path: string)
    | UpdateProfile(userId: string, payload: ProfilePayload)

  /** What the environment answers during one save: the session, `Date.now()`, the upload's
      error, the public URL and the update's error. */
  datatype SaveResponses = SaveResponses(
    session: Option<Session>,
    now: nat,
    uploadError: Option<string>,
    publicUrl: string,
    updateError: Option<string>)

  /** The calls issued, and either the profile handed to `onProfileUpdate` or the message shown. */
  datatype SaveOutcome = SaveOutcome(calls: seq<BackendCall>, result: Result<Profile>)

  /** `{ ...userProfile, ...formData, foto_perfil }`: the form's fields and the photo override the
      old profile; every other field keeps its value. */
  function MergedProfile(p: Profile, f: ProfileForm, fotoPerfil: Option<string>): (m: Profile)
    ensures m.userId == p.userId && m.email == p.email
    ensures m.nome == Some(f.nome) && m.sexo == Some(f.sexo)
    ensures m.pais == Some(f.pais) && m.estado == Some(f.estado)
    ensures m.fotoPerfil == fotoPerfil
  {
    p.(nome := Some(f.nome), sexo := Some(f.sexo), pais := Some(f.pais), estado := Some(f.estado),
       fotoPerfil := fotoPerfil)
  }

  /** The row after the update: the payload's columns written, the rest kept. */
  function UpdatedRow(row: Profile, u: ProfilePayload): Profile {
    Profile(row.userId, row.email, Some(u.nome), Some(u.sexo), Some(u.pais), Some(u.estado), u.fotoPerfil)
  }

  /** `handleProfileUpdate`, with the backend's answers as inputs. */
  function SaveProfile(p: Profile, form: ProfileForm, fotoFile: Option<PickedFile>, r: SaveResponses)
    : (o: SaveOutcome)
    ensures r.session.None? ==> o == SaveOutcome([], Failure(NotAuthenticated))
    ensures o.result.Success? ==> r.session.Some? && r.updateError.None? && (fotoFile.Some? ==> r.uploadError.None?)
    ensures r.session.Some? && r.updateError.None? && (fotoFile.Some? ==> r.uploadError.None?) ==>
      o.result == Success(MergedProfile(p, form, if fotoFile.Some? then Some(r.publicUrl) else p.fotoPerfil))
    ensures fotoFile.None? ==> forall i :: 0 <= i < |o.calls| ==> !o.calls[i].UploadPhoto?
  {
    match r.session
    case None => SaveOutcome([], Failure(NotAuthenticated))
    case Some(session) =>
      var uid := session.userId;
      var upload := if fotoFile.Some? then [UploadPhoto(PhotoPath(uid, r.now, fotoFile.value.name))] else [];
      if fotoFile.Some? && r.uploadError.Some? then
        SaveOutcome(upload, Failure(r.uploadError.value))
      else
        var fotoUrl := if fotoFile.Some? then Some(r.publicUrl) else p.fotoPerfil;
        var payload := ProfilePayload(form.nome, form.sexo, form.pais, form.estado, fotoUrl);
        var calls := upload + [UpdateProfile(uid, payload)];
        if r.updateError.Some? then
          SaveOutcome(calls, Failure(r.updateError.value))
        else
          SaveOutcome(calls, Success(MergedProfile(p, form, fotoUrl)))
  }

  /** With no new photo, the saved photo URL is the existing `foto_perfil`, and the only call is
      the update of the session user's row with the form's fields. */
  lemma SaveKeepsPhotoWithoutFile(p: Profile, form: ProfileForm, r: SaveResponses)
    requires r.session.Some?
    ensures var o := SaveProfile(p, form, None, r);
      o.calls == [UpdateProfile(r.session.value.userId,
                    ProfilePayload(form.nome, form.sexo, form.pais, form.estado, p.fotoPerfil))] &&
      (o.result.Success? ==> o.result.value.fotoPerfil == p.fotoPerfil)
  {
  }

  /** With a new photo, it is uploaded to `perfil/<uid>-<now>.<ext>` before anything else; a
      failed upload stops there, a successful one puts the public URL in the row. */
  lemma SaveWithPhoto(p: Profile, form: ProfileForm, file: PickedFile, r: SaveResponses)
    requires r.session.Some?
    ensures var o := SaveProfile(p, form, Some(file), r);
      var upload := UploadPhoto(PhotoPath(r.session.value.userId, r.now, file.name));
      (r.uploadError.Some? ==> o == SaveOutcome([upload], Failure(r.uploadError.value))) &&
      (r.uploadError.None? ==>
        o.calls == [upload, UpdateProfile(r.session.value.userId,
                      ProfilePayload(form.nome, form.sexo, form.pais, form.estado, Some(r.publicUrl)))])
  {
  }

  /** A failed save (no session, upload error or update error) shows the error and hands
      nothing to the parent. */
  lemma SaveFailureReportsError(p: Profile, form: ProfileForm, fotoFile: Option<PickedFile>, r: SaveResponses)
    requires r.session.None? || (fotoFile.Some? && r.uploadError.Some?) || r.updateError.Some?
    ensures var o := SaveProfile(p, form, fotoFile, r);
      o.result.Failure? &&
      o.result.error == (if r.session.None? then NotAuthenticated
                         else if fotoFile.Some? && r.uploadError.Some? then r.uploadError.value
                         else r.updateError.value)
  {
  }

  /** The profile handed to the parent is the row as the update leaves it: the local patch and
      the stored row agree, and `email` is never changed. */
  lemma MergedProfileIsStoredRow(p: Profile, form: ProfileForm, fotoFile: Option<PickedFile>, r: SaveResponses)
    requires SaveProfile(p, form, fotoFile, r).result.Success?
    ensures var o := SaveProfile(p, form, fotoFile, r);
      o.calls[|o.calls| - 1].UpdateProfile? &&
      o.result.value == UpdatedRow(p, o.calls[|o.calls| - 1].payload) &&
      o.result.value.email == p.email
  {
  }

  /** Reopening the modal on the merged profile shows the form that was saved, and the photo the
      save stored: the new public URL, or else the profile's old photo. */
  lemma ReopenShowsSavedForm(p: Profile, form: ProfileForm, fotoFile: Option<PickedFile>, r: SaveResponses)
    requires SaveProfile(p, form, fotoFile, r).result.Success?
    ensures var m := SaveProfile(p, form, fotoFile, r).result.value;
      InitialForm(m) == form &&
      ExistingPhoto(m) == OrNull(if fotoFile.Some? then Some(r.publicUrl) else p.fotoPerfil)
  {
  }

  // ----- The component's state -----

  class ProfileModal {
    var userProfile: Profile
    var formData: ProfileForm
    var fotoFile: Option<PickedFile>
    var photoPreview: Option<string>
    var error: Option<string>

    /** The initial `useState` values; the navigation bar mounts the modal only once it holds a
        profile. */
    constructor (profile: Profile)
      ensures userProfile == profile && formData == ProfileForm("", "", "", "")
      ensures fotoFile == None && photoPreview == None && error == None
    {
      userProfile := profile;
      formData := ProfileForm("", "", "", "");
      fotoFile := None;
      photoPreview := None;
      error := None;
    }

    /** The effect on `[userProfile, isOpen]`: when open, load the profile into the form, show
        its photo and forget any picked file. */
    method OnOpen(profile: Profile, isOpen: bool)
      modifies this
      ensures userProfile == profile
      ensures isOpen ==>
        formData == InitialForm(profile) && photoPreview == ExistingPhoto(profile) && fotoFile == None
      ensures !isOpen ==>
        formData == old(formData) && photoPreview == old(photoPreview) && fotoFile == old(fotoFile)
      ensures error == old(error)
    {
      userProfile := profile;
      if isOpen {
        formData := InitialForm(profile);
        photoPreview := ExistingPhoto(profile);
        fotoFile := None;
      }
    }

    /** `handleInputChange`. */
    method HandleInputChange(field: ProfileField, value: string)
      modifies this
      ensures formData == WithInput(old(formData), field, value)
      ensures userProfile == old(userProfile) && fotoFile == old(fotoFile)
      ensures photoPreview == old(photoPreview) && error == old(error)
    {
      formData := WithInput(formData, field, value);
    }

    /** `handleFileChange`: a picked file is previewed through its object URL; clearing the input
        falls back to the existing photo, not to nothing. */
    method HandleFileChange(file: Option<PickedFile>, objectUrl: string)
      modifies this
      ensures fotoFile == file
      ensures photoPreview == if file.Some? then Some(objectUrl) else ExistingPhoto(userProfile)
      ensures userProfile == old(userProfile) && formData == old(formData) && error == old(error)
    {
      if file.Some? {
        fotoFile := file;
        photoPreview := Some(objectUrl);
      } else {
        fotoFile := None;
        photoPreview := ExistingPhoto(userProfile);
      }
    }

    /** `handleProfileUpdate`: run the save and show its error, if any. */
    method HandleProfileUpdate(r: SaveResponses) returns (o: SaveOutcome)
      modifies this
      ensures o == SaveProfile(userProfile, formData, fotoFile, r)
      ensures error == if o.result.Failure? then Some(o.result.error) else None
      ensures userProfile == old(userProfile) && formData == old(formData)
      ensures fotoFile == old(fotoFile) && photoPreview == old(photoPreview)
    {
      error := None;
      o := SaveProfile(userProfile, formData, fotoFile, r);
      if o.result.Failure? {
        error := Some(o.result.error);
      }
    }
  }
}
