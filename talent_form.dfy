/**
 * The state of components/TalentForm.tsx, shared by the "add" and "edit"
 * pages: the text fields, the new files, the photos kept from the stored
 * talent, the error and touched records, and the loading, status and
 * server-error indicators. Every handler of the component is a method;
 * the answer of `onSubmit` (or the exception it throws), `Number`, and the
 * identifier the toast queue draws are parameters.
 */
module TalentForm {
  import opened Wrappers
  import opened TalentValidation
  import Toast
  import Lists

  datatype Mode = Add | Edit

  /** `status`: `null`, "success" or "error". */
  datatype Status = Idle | Succeeded | Failed

  /** A file picked in the photo input. */
  datatype File = File(name: string, data: seq<bv8>)

  /** A stored talent handed to the edit form; `rating` is the text
      `rating.toString()` gives, `None` when the talent has no rating. */
  datatype TalentData = TalentData(
    nombre: string,
    genero: string,
    altura: string,
    experiencia: string,
    especialidad: string,
    descripcion: string,
    tags: seq<string>,
    rating: Option<string>,
    fotos: seq<string>)

  /** `TalentSubmissionData`: what `onSubmit` receives. */
  datatype Submission = Submission(
    nombre: string,
    genero: string,
    altura: string,
    experiencia: string,
    especialidad: string,
    descripcion: string,
    rating: string,
    fotosFiles: seq<File>,
    existingPhotos: seq<string>,
    tags: seq<string>)

  /** What the promise returned by `onSubmit` resolves to. */
  datatype SubmitResult = SubmitResult(success: bool, error: Option<string>)

  /** How the `await onSubmit(...)` ends: with a result, or with an exception
      whose text (`error.message` or `String(error)`) is given. */
  datatype Outcome = Resolved(result: SubmitResult) | Threw(message: string)

  const DefaultGenero: string := "Dama"

  /** The blank form, also the form after a successful registration. */
  const EmptyForm: FormData := FormData("", DefaultGenero, "", "", "", "", "", "")

  /** Every text field marked as touched: `Object.keys(formData)` reduced to `true`. */
  const AllInputsTouched: set<Slot> :=
    {Input(Nombre), Input(Genero), Input(Altura), Input(Experiencia), Input(Especialidad),
     Input(Descripcion), Input(Tags), Input(Rating)}

  function SuccessMessage(mode: Mode): string {
    if mode == Add then "Talento registrado correctamente" else "Talento actualizado correctamente"
  }

  const UnknownServerError: string := "Error desconocido en el servidor"
  const ProcessingError: string := "Error al procesar el talento"
  const UnexpectedError: string := "Error inesperado en el sistema"

  /** The initial `formData`: the stored talent's fields (the gender falls
      back to "Dama" when empty, the tags are joined by ", ", a missing
      rating is the empty text), or the blank form. */
  function InitialForm(init: Option<TalentData>): (d: FormData)
    ensures init.None? ==> d == EmptyForm
    ensures d.genero != ""
    ensures init.Some? ==> d.genero == if init.value.genero == "" then DefaultGenero else init.value.genero
    ensures init.Some? ==>
      && d.nombre == init.value.nombre && d.altura == init.value.altura
      && d.experiencia == init.value.experiencia && d.especialidad == init.value.especialidad
      && d.descripcion == init.value.descripcion
      && d.tags == TagText(init.value.tags)
      && d.rating == init.value.rating.GetOr("")
  {
    match init
    case None => EmptyForm
    case Some(t) =>
      FormData(t.nombre, if t.genero == "" then DefaultGenero else t.genero, t.altura,
               t.experiencia, t.especialidad, t.descripcion, TagText(t.tags), t.rating.GetOr(""))
  }

  /** `dataToSend`: the text fields, the files, the kept photos and the
      parsed tags. */
  function Payload(d: FormData, files: seq<File>, kept: seq<string>): (p: Submission)
    ensures p.fotosFiles == files && p.existingPhotos == kept
    ensures && p.nombre == d.nombre && p.genero == d.genero && p.altura == d.altura
            && p.experiencia == d.experiencia && p.especialidad == d.especialidad
            && p.descripcion == d.descripcion && p.rating == d.rating
    ensures p.tags == ParseTags(d.tags)
    ensures forall i | 0 <= i < |p.tags| :: IsTag(p.tags[i])
  {
    Submission(d.nombre, d.genero, d.altura, d.experiencia, d.especialidad, d.descripcion,
               d.rating, files, kept, ParseTags(d.tags))
  }

  /** Opening the edit form on a stored talent and saving it unchanged sends
      the talent's own fields, tags and photos back. */
  lemma UnchangedEditResubmits(t: TalentData)
    requires t.genero != ""
    requires forall i | 0 <= i < |t.tags| :: IsTag(t.tags[i])
    ensures var p := Payload(InitialForm(Some(t)), [], t.fotos);
      && p.nombre == t.nombre && p.genero == t.genero && p.altura == t.altura
      && p.experiencia == t.experiencia && p.especialidad == t.especialidad
      && p.descripcion == t.descripcion && p.tags == t.tags
      && p.existingPhotos == t.fotos && p.fotosFiles == []
      && p.rating == t.rating.GetOr("")
  {
    TagsRoundTrip(t.tags);
  }

  /** What the form shows apart from the indicators. */
  datatype Fields = Fields(
    formData: FormData, files: seq<File>, existingPhotos: seq<string>,
    errors: map<Slot, string>, touched: set<Slot>)

  /** The inputs whose `onChange` re-checks a touched value: name, height, rating. */
  predicate RechecksOnChange(f: Field) {
    f == Nombre || f == Altura || f == Rating
  }

  class FormState {
    const mode: Mode
    var formData: FormData
    var files: seq<File>
    var existingPhotos: seq<string>
    var errors: map<Slot, string>
    var touched: set<Slot>
    var loading: bool
    var status: Status
    var serverError: Option<string>

    ghost function Snapshot(): Fields
      reads this`formData, this`files, this`existingPhotos, this`errors, this`touched
    {
      Fields(formData, files, existingPhotos, errors, touched)
    }

    /** The photo error is drawn only when `touched.files` and `errors.files`
        are both set. */
    predicate ShowsPhotoError()
      reads this`errors, this`touched
    {
      Photos in touched && Photos in errors && errors[Photos] != ""
    }

    /** The first render. */
    constructor (mode: Mode, initialData: Option<TalentData>)
      ensures this.mode == mode
      ensures formData == InitialForm(initialData)
      ensures files == [] && errors == map[] && touched == {}
      ensures existingPhotos == if initialData.Some? then initialData.value.fotos else []
      ensures !loading && status == Idle && serverError == None
      ensures !ShowsPhotoError()
    {
      this.mode := mode;
      formData := InitialForm(initialData);
      files := [];
      existingPhotos := if initialData.Some? then initialData.value.fotos else [];
      errors := map[];
      touched := {};
      loading := false;
      status := Idle;
      serverError := None;
    }

    /** The `onChange` of a text input: the field takes the typed value; the
        name, height and rating inputs also re-check a touched field against
        the new value. */
    method Change(f: Field, value: string, toNumber: string -> JsNumber)
      modifies this
      ensures formData == old(formData).Set(f, value)
      ensures errors == if RechecksOnChange(f) && Input(f) in old(touched)
                        then old(errors)[Input(f) := ValidateField(f, value, toNumber)]
                        else old(errors)
      ensures unchanged(this`files, this`existingPhotos, this`touched)
      ensures unchanged(this`loading, this`status, this`serverError)
    {
      formData := formData.Set(f, value);
      if RechecksOnChange(f) && Input(f) in touched {
        errors := errors[Input(f) := ValidateField(f, value, toNumber)];
      }
    }

    /** `handleBlur(name)`: the field becomes touched and its error is the
        verdict on its current value. */
    method Blur(f: Field, toNumber: string -> JsNumber)
      modifies this
      ensures touched == old(touched) + {Input(f)}
      ensures errors == old(errors)[Input(f) := ValidateField(f, formData.Get(f), toNumber)]
      ensures unchanged(this`formData, this`files, this`existingPhotos)
      ensures unchanged(this`loading, this`status, this`serverError)
    {
      touched := touched + {Input(f)};
      errors := errors[Input(f) := ValidateField(f, formData.Get(f), toNumber)];
    }

    /** The `onChange` of the file input: the picked files are appended; the
        photo count is re-checked only when "files" is touched. */
    method AddFiles(selected: seq<File>)
      modifies this
      ensures files == old(files) + selected
      ensures Photos in old(touched) ==>
        errors == old(errors)[Photos := ValidatePhotos(|old(files)| + |selected|, |existingPhotos|)]
      ensures Photos !in old(touched) ==> errors == old(errors)
      ensures unchanged(this`formData, this`existingPhotos, this`touched)
      ensures unchanged(this`loading, this`status, this`serverError)
    {
      var count := |files| + |selected|;
      files := files + selected;
      if Photos in touched {
        errors := errors[Photos := ValidatePhotos(count, |existingPhotos|)];
      }
    }

    /** The remove button of the `i`th new file. */
    method RemoveFile(i: nat)
      modifies this
      ensures files == Lists.RemoveAt(old(files), i)
      ensures Photos in old(touched) ==>
        errors == old(errors)[Photos := ValidatePhotos(|files|, |existingPhotos|)]
      ensures Photos !in old(touched) ==> errors == old(errors)
      ensures unchanged(this`formData, this`existingPhotos, this`touched)
      ensures unchanged(this`loading, this`status, this`serverError)
    {
      var newFiles := Lists.RemoveAt(files, i);
      files := newFiles;
      if Photos in touched {
        errors := errors[Photos := ValidatePhotos(|newFiles|, |existingPhotos|)];
      }
    }

    /** The remove button of the `i`th kept photo. The re-check counts the
        kept photos as they were before the removal: the handler's
        `validateField` reads `existingPhotos` from the render in which the
        button was clicked. */
    method RemoveExistingPhoto(i: nat)
      modifies this
      ensures existingPhotos == Lists.RemoveAt(old(existingPhotos), i)
      ensures Photos in old(touched) ==>
        errors == old(errors)[Photos := ValidatePhotos(|files|, |old(existingPhotos)|)]
      ensures Photos !in old(touched) ==> errors == old(errors)
      ensures unchanged(this`formData, this`files, this`touched)
      ensures unchanged(this`loading, this`status, this`serverError)
    {
      var staleCount := |existingPhotos|;
      existingPhotos := Lists.RemoveAt(existingPhotos, i);
      if Photos in touched {
        errors := errors[Photos := ValidatePhotos(|files|, staleCount)];
      }
    }

    /** `handleSubmit`. With a failing check nothing is sent: the errors are
        the checks' messages, every text field is touched and the status is
        "error". Otherwise the payload is sent and `Settle` handles how the
        call ends. Loading ends false in every case. */
    method Submit(toNumber: string -> JsNumber, outcome: Outcome,
                  toasts: Toast.ToastQueue, toastId: string)
      returns (sent: Option<Submission>)
      modifies this, toasts
      ensures !loading
      ensures var errs := ErrorMap(Judge(old(formData), |old(files)|, |old(existingPhotos)|, toNumber));
        if errs != map[] then
          && sent == None && status == Failed
          && errors == errs && touched == AllInputsTouched
          && unchanged(this`formData, this`files, this`existingPhotos, this`serverError)
          && unchanged(toasts)
        else
          && sent == Some(Payload(old(formData), old(files), old(existingPhotos)))
          && Settled(old(Snapshot()), old(toasts.toasts), toasts.toasts, outcome, toastId)
      ensures Photos in touched ==> Photos in old(touched)
    {
      var d, fs, kept := formData, files, existingPhotos;
      loading := true;
      status := Idle;
      var newErrors := CollectErrors(d, |fs|, |kept|, toNumber);
      if newErrors != map[] {
        errors := newErrors;
        touched := AllInputsTouched;
        loading := false;
        status := Failed;
        sent := None;
        return;
      }
      var dataToSend := Payload(d, fs, kept);
      sent := Some(dataToSend);
      assert unchanged(this`formData, this`files, this`existingPhotos, this`errors, this`touched);
      assert unchanged(toasts);
      Settle(outcome, toasts, toastId);
    }

    /** The state after the sent form's call ends with `outcome`, starting
        from the fields `before` and the toasts `shown`; `now` is the toast
        list afterwards. */
    ghost predicate Settled(before: Fields, shown: seq<Toast.Toast>, now: seq<Toast.Toast>,
                            outcome: Outcome, toastId: string)
      reads this`status, this`serverError, this`formData, this`files, this`existingPhotos, this`errors, this`touched
    {
      match outcome
      case Resolved(result) =>
        if result.success then
          && status == Succeeded && serverError == None
          && now == shown + [Toast.Toast(toastId, SuccessMessage(mode), Toast.Kind.Success)]
          && Snapshot() == if mode == Add then Fields(EmptyForm, [], [], map[], {}) else before
        else
          && status == Failed && Snapshot() == before
          && serverError == Some(result.error.GetOr(UnknownServerError))
          && now == shown + [Toast.Toast(toastId, result.error.GetOr(ProcessingError), Toast.Kind.Error)]
      case Threw(message) =>
        && status == Failed && Snapshot() == before
        && serverError == Some(message)
        && now == shown + [Toast.Toast(toastId, UnexpectedError, Toast.Kind.Error)]
    }

    /** The `try`/`catch`/`finally` around `await onSubmit(dataToSend)`: on
        success the toast says so and, in add mode, the form is cleared; on a
        failure or an exception the server error is recorded and an error
        toast raised; loading ends false. */
    method Settle(outcome: Outcome, toasts: Toast.ToastQueue, toastId: string)
      modifies this, toasts
      ensures !loading
      ensures Settled(old(Snapshot()), old(toasts.toasts), toasts.toasts, outcome, toastId)
      ensures Photos in touched ==> Photos in old(touched)
    {
      match outcome {
        case Resolved(result) =>
          if result.success {
            toasts.Success(SuccessMessage(mode), toastId);
            status := Succeeded;
            serverError := None;
            if mode == Add {
              formData := EmptyForm;
              files := [];
              existingPhotos := [];
              touched := {};
              errors := map[];
            } else {
              assert unchanged(this`formData, this`files, this`existingPhotos, this`errors, this`touched);
            }
          } else {
            serverError := Some(result.error.GetOr(UnknownServerError));
            toasts.Error(result.error.GetOr(ProcessingError), toastId);
            status := Failed;
            assert unchanged(this`formData, this`files, this`existingPhotos, this`errors, this`touched);
          }
        case Threw(message) =>
          serverError := Some(message);
          toasts.Error(UnexpectedError, toastId);
          status := Failed;
          assert unchanged(this`formData, this`files, this`existingPhotos, this`errors, this`touched);
      }
      loading := false;
    }
  }
}
