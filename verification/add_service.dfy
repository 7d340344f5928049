/**
 The add-service screen: choosing cover pictures (type and size checks, one
 preview per picture), removing one picture, and the decision taken when the
 form is submitted. A preview is the object URL of its file; revoking URLs,
 the loading flag and the notification pop-ups themselves are not modelled.
 */
module AddService {
  import opened JsValues
  import opened Text
  import opened FormValidation

  datatype File = File(mime: string, size: nat)

  /** `URL.createObjectURL(file)`. */
  datatype Preview = ObjectUrl(file: File)

  datatype UploadState = UploadState(form: FormState, cover: Option<seq<File>>, previews: seq<Preview>)

  const AcceptedTypes: set<string> := {"image/jpeg", "image/jpg", "image/png", "image/gif", "image/webp"}

  /** 5 MB; a file of exactly this size is accepted. */
  const MaxFileSize: nat := 5 * 1024 * 1024

  const BadTypeNotice: string := "يرجى اختيار ملفات صور صالحة فقط (JPG, PNG, GIF, WEBP)"
  const TooLargeNotice: string := "حجم الملف يجب أن يكون أقل من 5 ميجابايت"
  const InvalidFormNotice: string := "يرجى تصحيح الأخطاء في النموذج"
  const NoPictureNotice: string := "يرجى اختيار صورة واحدة على الأقل للخدمة"
  const CreateFailedNotice: string := "حدث خطأ أثناء إضافة الخدمة"

  /** The screen as first shown: empty name and description, no picture. */
  function Initial(): (s: UploadState)
    ensures s.form.values.Keys == {"name", "description"}
    ensures s.form.values["name"] == "" && s.form.values["description"] == ""
    ensures s.form.errors == map[]
    ensures InSync(s)
  {
    UploadState(FormState(map["name" := "", "description" := ""], map[]), None, [])
  }

  function Previews(files: seq<File>): (p: seq<Preview>)
    ensures |p| == |files|
    ensures forall i :: 0 <= i < |files| ==> p[i] == ObjectUrl(files[i])
  {
    seq(|files|, i requires 0 <= i < |files| => ObjectUrl(files[i]))
  }

  /**
   The pictures and the previews agree: no picture and no preview, or a
   non-empty list of pictures with one preview each, in the same order.
   */
  predicate InSync(s: UploadState) {
    match s.cover
    case None => s.previews == []
    case Some(files) => |files| > 0 && s.previews == Previews(files)
  }

  /** The error under the picture field is showing (`errors.cover` is truthy). */
  predicate CoverErrorShown(errors: map<string, string>) {
    "cover" in errors && errors["cover"] != ""
  }

  datatype Selection = Selection(state: UploadState, notice: Option<string>)

  predicate AllTypesAccepted(files: seq<File>) {
    forall i :: 0 <= i < |files| ==> files[i].mime in AcceptedTypes
  }

  predicate AllWithinSize(files: seq<File>) {
    forall i :: 0 <= i < |files| ==> files[i].size <= MaxFileSize
  }

  /**
   `handleFileChange`: an empty selection removes the pictures; a selection
   with any file of another type, or else any file over the size bound, is
   refused with a notice and changes nothing; otherwise the selection becomes
   the cover with one preview per file, and every error is cleared if the
   picture error was showing.
   */
  function HandleFileChange(s: UploadState, files: seq<File>): (r: Selection)
    ensures |files| == 0 ==> r == Selection(s.(cover := None, previews := []), None)
    ensures |files| > 0 && !AllTypesAccepted(files) ==> r == Selection(s, Some(BadTypeNotice))
    ensures |files| > 0 && AllTypesAccepted(files) && !AllWithinSize(files)
            ==> r == Selection(s, Some(TooLargeNotice))
    ensures |files| > 0 && AllTypesAccepted(files) && AllWithinSize(files) ==>
              && r.notice.None?
              && r.state.cover == Some(files)
              && r.state.previews == Previews(files)
              && r.state.form.values == s.form.values
              && r.state.form.errors == (if CoverErrorShown(s.form.errors) then map[] else s.form.errors)
  {
    if |files| == 0 then
      Selection(s.(cover := None, previews := []), None)
    else if exists i :: 0 <= i < |files| && files[i].mime !in AcceptedTypes then
      Selection(s, Some(BadTypeNotice))
    else if exists i :: 0 <= i < |files| && files[i].size > MaxFileSize then
      Selection(s, Some(TooLargeNotice))
    else
      var form := if CoverErrorShown(s.form.errors) then ClearErrors(s.form) else s.form;
      Selection(UploadState(form, Some(files), Previews(files)), None)
  }

  /**
   `xs.filter((_, i) => i !== index)`: the element at `index` is dropped and the
   others keep their order; an index outside the list drops nothing.
   */
  function RemoveAt<T>(xs: seq<T>, index: int): (r: seq<T>)
    ensures !(0 <= index < |xs|) ==> r == xs
    ensures 0 <= index < |xs| ==>
              && |r| == |xs| - 1
              && (forall k :: 0 <= k < index ==> r[k] == xs[k])
              && (forall k :: index <= k < |r| ==> r[k] == xs[k + 1])
  {
    if 0 <= index < |xs| then xs[..index] + xs[index + 1..] else xs
  }

  /**
   `removeImage(index)`: without pictures nothing happens; otherwise the picture
   and its preview at `index` are dropped, and dropping the last one leaves no
   pictures at all.
   */
  function RemoveImage(s: UploadState, index: int): (r: UploadState)
    ensures r.form == s.form
    ensures s.cover.None? ==> r == s
    ensures s.cover.Some? && |RemoveAt(s.cover.value, index)| == 0 ==> r.cover.None? && r.previews == []
    ensures s.cover.Some? && |RemoveAt(s.cover.value, index)| > 0
            ==> r.cover == Some(RemoveAt(s.cover.value, index)) && r.previews == RemoveAt(s.previews, index)
  {
    match s.cover
    case None => s
    case Some(files) =>
      var newFiles := RemoveAt(files, index);
      if |newFiles| == 0 then s.(cover := None, previews := [])
      else s.(cover := Some(newFiles), previews := RemoveAt(s.previews, index))
  }

  /** Dropping a picture and dropping its preview commute with making previews. */
  lemma RemoveAtPreviews(files: seq<File>, index: int)
    ensures RemoveAt(Previews(files), index) == Previews(RemoveAt(files, index))
  {
    var l := RemoveAt(Previews(files), index);
    var r := Previews(RemoveAt(files, index));
    assert |l| == |r|;
    forall k | 0 <= k < |l|
      ensures l[k] == r[k]
    {
    }
  }

  /** Choosing pictures and removing one keep the pictures and previews in step. */
  lemma FileOperationsPreserveSync(s: UploadState, files: seq<File>, index: int)
    requires InSync(s)
    ensures InSync(HandleFileChange(s, files).state)
    ensures InSync(RemoveImage(s, index))
  {
    if s.cover.Some? {
      RemoveAtPreviews(s.cover.value, index);
    }
  }

  /**
   Choosing valid pictures while the picture error shows clears every error,
   those of the name and description included.
   */
  lemma ValidPicturesClearAllErrors(s: UploadState, files: seq<File>)
    requires |files| > 0 && AllTypesAccepted(files) && AllWithinSize(files)
    requires CoverErrorShown(s.form.errors)
    ensures HandleFileChange(s, files).state.form.errors == map[]
  {
  }

  /** A picture of exactly 5 MB is accepted; one byte more is refused. */
  lemma SizeBoundary(s: UploadState)
    ensures HandleFileChange(s, [File("image/png", 5242880)]).notice.None?
    ensures HandleFileChange(s, [File("image/png", 5242881)]) == Selection(s, Some(TooLargeNotice))
  {
    var big := [File("image/png", 5242881)];
    assert big[0].size > MaxFileSize;
  }

  /** A type check failure is reported even when a file is also too large. */
  lemma TypeCheckedFirst(s: UploadState)
    ensures HandleFileChange(s, [File("application/pdf", 6000000)]) == Selection(s, Some(BadTypeNotice))
  {
    var files := [File("application/pdf", 6000000)];
    assert files[0].mime !in AcceptedTypes;
  }

  // ---------------------------------------------------------------------------
  // Submission

  datatype ServiceRequest = ServiceRequest(name: string, description: string, cover: seq<File>)

  datatype Decision = Refused(notice: string) | Create(request: ServiceRequest)

  /** What `validateAll(serviceCover)` receives: `null`, or a list with a length. */
  function CoverArgument(cover: Option<seq<File>>): (v: FieldValue)
    ensures cover.None? ==> v == Nothing
    ensures cover.Some? ==> v == FileObject(Some(|cover.value|))
  {
    match cover
    case None => Nothing
    case Some(files) => FileObject(Some(|files|))
  }

  /**
   `handleSubmit` up to the request: whole-form validation with the pictures,
   then the check that there is at least one picture; the request carries the
   trimmed name and description and the pictures.
   */
  method Submit(s: UploadState) returns (r: UploadState, decision: Decision)
    requires "name" in s.form.values && "description" in s.form.values
    ensures r.cover == s.cover && r.previews == s.previews
    ensures r.form.values == s.form.values
    ensures r.form.errors == ExpectedErrors(s.form.values, Passed(CoverArgument(s.cover)))
    ensures !ExpectedValid(s.form.values, Passed(CoverArgument(s.cover))) ==> decision == Refused(InvalidFormNotice)
    ensures decision.Create? <==>
              ExpectedValid(s.form.values, Passed(CoverArgument(s.cover))) && s.cover.Some? && |s.cover.value| > 0
    ensures decision.Create? ==> decision.request == ServiceRequest(
              Trim(s.form.values["name"]), Trim(s.form.values["description"]), s.cover.value)
  {
    var valid;
    var form;
    form, valid := ValidateAll(s.form, Passed(CoverArgument(s.cover)));
    r := s.(form := form);
    if !valid {
      decision := Refused(InvalidFormNotice);
    } else if s.cover.None? || |s.cover.value| == 0 {
      decision := Refused(NoPictureNotice);
    } else {
      decision := Create(ServiceRequest(
        Trim(s.form.values["name"]), Trim(s.form.values["description"]), s.cover.value));
    }
  }

  /**
   Without pictures the form never passes validation, so the separate
   no-picture notice is never reached from a state whose pictures and previews
   agree.
   */
  lemma NoPictureMeansInvalid(s: UploadState)
    requires s.cover.None?
    ensures !ExpectedValid(s.form.values, Passed(CoverArgument(s.cover)))
  {
    assert ValidateField("cover", Nothing, s.form.values) != "";
  }

  /** `resetForm` after a created service: empty name and description, no picture, no error. */
  function AfterCreated(s: UploadState): (r: UploadState)
    ensures r == Initial()
    ensures InSync(r)
  {
    UploadState(FormState(map["name" := "", "description" := ""], map[]), None, [])
  }

  /** The success notice names the service as typed, before trimming. */
  function CreatedNotice(typedName: string): (m: string)
    ensures exists i :: OccursAt(m, typedName, i)
  {
    var m := "تم إضافة الخدمة \"" + typedName + "\" بنجاح";
    assert OccursAt(m, typedName, |"تم إضافة الخدمة \""|);
    m
  }

  /** The notice of a failed creation: never blank, the server's message when it has one. */
  function CreateFailed(serverMessage: string): (m: string)
    ensures m != ""
    ensures m == serverMessage || m == CreateFailedNotice
    ensures serverMessage != "" ==> m == serverMessage
  {
    OrElse(Some(serverMessage), CreateFailedNotice)
  }
}
