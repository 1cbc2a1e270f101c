/** The task form: its field state, the validation that guards submission, the
    payload it hands to `onSubmit`, and how it is filled from its props. */
module TaskForm {
  import opened Wrappers
  import opened Text
  import opened Records
  import opened TaskApi

  /** The `formData` state; `dueDate` is the date input's "yyyy-MM-dd" text, or "". */
  datatype FormData = FormData(title: string, priority: string, dueDate: string, categoryId: string, notes: string)

  /** The names `handleChange` is called with. */
  datatype Field = Title | Priority | DueDate | CategoryId | Notes

  /** The `errors` state: only the title and the category ever carry a message. */
  datatype FormErrors = FormErrors(title: Option<string>, categoryId: Option<string>)

  const NoErrors := FormErrors(None, None)
  const TitleRequired := "Task title is required"
  const CategoryRequired := "Please select a category"

  /** The `newErrors` object `validateForm` builds. */
  function ErrorsFor(d: FormData): FormErrors {
    FormErrors(
      if Trim(d.title) == "" then Some(TitleRequired) else None,
      if d.categoryId == "" then Some(CategoryRequired) else None)
  }

  /** `Object.keys(newErrors).length === 0` */
  predicate IsValid(d: FormData) {
    ErrorsFor(d) == NoErrors
  }

  /** The form is valid exactly when the trimmed title and the category are both
      non-empty; each missing one has its own message. */
  lemma ValidIff(d: FormData)
    ensures IsValid(d) <==> Trim(d.title) != "" && d.categoryId != ""
    ensures ErrorsFor(d).title == Some(TitleRequired) <==> forall i | 0 <= i < |d.title| :: IsSpace(d.title[i])
    ensures ErrorsFor(d).categoryId.Some? <==> d.categoryId == ""
  {
  }

  /** The `taskData` object `handleSubmit` builds: the form fields with the title
      and notes trimmed and an empty date turned into `null`. `toInstant` is
      `new Date(text)`. */
  function SubmitPayload(d: FormData, toInstant: string -> int): (p: TaskFields)
    ensures p.id.None? && p.completed.None? && p.createdAt.None? && p.order.None?
    ensures p.title == Some(Trim(d.title)) && p.categoryId == Some(d.categoryId)
    ensures p.priority == Some(d.priority) && p.notes == Some(Trim(d.notes))
    ensures p.dueDate == Some(None) <==> d.dueDate == ""
    ensures d.dueDate != "" ==> p.dueDate == Some(Some(toInstant(d.dueDate)))
  {
    TaskFields(
      None,
      Some(Trim(d.title)),
      None,
      Some(d.priority),
      Some(if d.dueDate != "" then Some(toInstant(d.dueDate)) else None),
      Some(d.categoryId),
      None,
      None,
      Some(Trim(d.notes)))
  }

  /** A payload the form lets through is one the store accepts, and the task it
      creates has a fresh id, the trimmed non-blank title (trimming again changes
      nothing), the trimmed notes, and is not completed. */
  lemma SubmittedPayloadCreates(d: FormData, toInstant: string -> int, existing: seq<Task>, now: int)
    requires IsValid(d)
    ensures var p := SubmitPayload(d, toInstant);
      && p.title.Some? && p.categoryId.Some? && p.id.None?
      && var t := NewTask(existing, p, now);
      && t.title == Trim(d.title) && t.title != "" && Trim(t.title) == t.title
      && t.categoryId == d.categoryId && t.notes == Some(Trim(d.notes))
      && !t.completed && t.id !in TaskIds(existing) && t.order == |existing| + 1
  {
    ValidIff(d);
    TrimIdempotent(d.title);
  }

  /** The form's state after the `useEffect` on `task` and `categories`. */
  function Initialised(prev: FormData, task: Option<Task>, categories: seq<Category>, dayText: int -> string): (d: FormData)
    ensures task.Some? ==> d.priority != "" && d.title == task.value.title && d.categoryId == task.value.categoryId
    ensures task.Some? && task.value.priority == "" ==> d.priority == "medium"
    ensures task.Some? && task.value.priority != "" ==> d.priority == task.value.priority
    ensures task.Some? ==> d.dueDate == if task.value.dueDate.Some? then dayText(task.value.dueDate.value) else ""
    ensures task.Some? ==> d.notes == task.value.notes.GetOr("")
    ensures task.None? && categories != [] && prev.categoryId != "" ==> d == prev
    ensures task.None? && categories != [] && prev.categoryId == "" ==>
      d == prev.(categoryId := IntToString(categories[0].id)) && ParseInt(d.categoryId) == Some(categories[0].id)
    ensures task.None? && categories == [] ==> d == prev
  {
    match task
    case Some(t) =>
      FormData(
        t.title,
        if t.priority != "" then t.priority else "medium",
        if t.dueDate.Some? then dayText(t.dueDate.value) else "",
        t.categoryId,
        t.notes.GetOr(""))
    case None =>
      if categories != [] then
        ParseIntOfIntToString(categories[0].id);
        prev.(categoryId := if prev.categoryId != "" then prev.categoryId else IntToString(categories[0].id))
      else prev
  }

  class TaskFormView {
    var formData: FormData
    var errors: FormErrors

    constructor ()
      ensures formData == FormData("", "medium", "", "", "") && errors == NoErrors
    {
      formData := FormData("", "medium", "", "", "");
      errors := NoErrors;
    }

    /** The effect that runs when `task` or `categories` change. `dayText` is
        `format(date, 'yyyy-MM-dd')`. */
    method Initialise(task: Option<Task>, categories: seq<Category>, dayText: int -> string)
      modifies this
      ensures formData == Initialised(old(formData), task, categories, dayText) && errors == old(errors)
    {
      formData := Initialised(formData, task, categories, dayText);
    }

    /** `handleChange(field, value)`: sets the one field, and clears that field's
        error when it has one. */
    method HandleChange(field: Field, value: string)
      modifies this
      ensures formData == match field
        case Title => old(formData).(title := value)
        case Priority => old(formData).(priority := value)
        case DueDate => old(formData).(dueDate := value)
        case CategoryId => old(formData).(categoryId := value)
        case Notes => old(formData).(notes := value)
      ensures errors == match field
        case Title => old(errors).(title := None)
        case CategoryId => old(errors).(categoryId := None)
        case _ => old(errors)
    {
      match field {
        case Title => formData := formData.(title := value);
        case Priority => formData := formData.(priority := value);
        case DueDate => formData := formData.(dueDate := value);
        case CategoryId => formData := formData.(categoryId := value);
        case Notes => formData := formData.(notes := value);
      }
      if field == Title && errors.title.Some? {
        errors := errors.(title := None);
      } else if field == CategoryId && errors.categoryId.Some? {
        errors := errors.(categoryId := None);
      }
    }

    /** `validateForm()`: records the errors and reports whether there are none. */
    method ValidateForm() returns (ok: bool)
      modifies this
      ensures errors == ErrorsFor(formData) && formData == old(formData)
      ensures ok <==> Trim(formData.title) != "" && formData.categoryId != ""
    {
      errors := ErrorsFor(formData);
      ValidIff(formData);
      ok := IsValid(formData);
    }

    /** `handleSubmit(e)`: `onSubmit` receives the payload only when the form is
        valid; `None` is "`onSubmit` was not called". */
    method HandleSubmit(toInstant: string -> int) returns (submitted: Option<TaskFields>)
      modifies this
      ensures errors == ErrorsFor(formData) && formData == old(formData)
      ensures submitted.None? <==> !IsValid(formData)
      ensures submitted.Some? ==> submitted.value == SubmitPayload(formData, toInstant)
    {
      var ok := ValidateForm();
      if !ok {
        return None;
      }
      submitted := Some(SubmitPayload(formData, toInstant));
    }
  }
}
