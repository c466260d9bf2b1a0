/** The "create course" dialog (`src/components/CourseModal.tsx`): a form, a simulated
    generation delay, and a preview built from fixed sample chapters. Nothing is sent
    to the server. */
module CourseModal {
  import opened Js

  datatype Step = InputStep | Generating | PreviewStep

  /** The form state. `chapters` holds `parseInt` of the number box, so it may be NaN. */
  datatype CourseForm = CourseForm(
    name: string,
    description: string,
    chapters: Num,
    includeVideos: bool,
    category: string,
    difficulty: string)

  /** The form the dialog starts with (lines 20-27). */
  const InitialForm := CourseForm("", "", Int(5), true, "", "")

  datatype Field = NameField | DescriptionField | ChaptersField | IncludeVideosField | CategoryField | DifficultyField

  /** A value handed to `handleInputChange`. */
  datatype Value = Text(text: string) | Number(number: Num) | Flag(flag: bool)

  /** The control for each field hands it a value of the right kind. */
  predicate Fits(field: Field, v: Value) {
    match field
    case ChaptersField => v.Number?
    case IncludeVideosField => v.Flag?
    case _ => v.Text?
  }

  function Get(f: CourseForm, field: Field): (v: Value)
    ensures Fits(field, v)
  {
    match field
    case NameField => Text(f.name)
    case DescriptionField => Text(f.description)
    case ChaptersField => Number(f.chapters)
    case IncludeVideosField => Flag(f.includeVideos)
    case CategoryField => Text(f.category)
    case DifficultyField => Text(f.difficulty)
  }

  /** `{ ...prev, [field]: value }` (line 38): the field takes the value, every other
      field keeps its own. */
  function WithInput(f: CourseForm, field: Field, v: Value): (r: CourseForm)
    requires Fits(field, v)
    ensures Get(r, field) == v
    ensures forall other :: other != field ==> Get(r, other) == Get(f, other)
  {
    match field
    case NameField => f.(name := v.text)
    case DescriptionField => f.(description := v.text)
    case ChaptersField => f.(chapters := v.number)
    case IncludeVideosField => f.(includeVideos := v.flag)
    case CategoryField => f.(category := v.text)
    case DifficultyField => f.(difficulty := v.text)
  }

  /** Writing back the value a field already holds changes nothing. */
  lemma WithInputOwnValue(f: CourseForm, field: Field)
    ensures WithInput(f, field, Get(f, field)) == f
  {
  }

  /** The check at line 42: the four text fields are filled in. The chapter count is not checked. */
  predicate Complete(f: CourseForm) {
    f.name != "" && f.description != "" && f.category != "" && f.difficulty != ""
  }

  // ---------------------------------------------------------------------------
  // The preview (lines 219-265)

  /** The titles of the fixed sample chapters (lines 68-89). */
  const SampleTitles: seq<string> := [
    "Introduction to Machine Learning Fundamentals",
    "Data Preprocessing and Feature Engineering",
    "Supervised Learning Algorithms"]

  /** One rendered sample chapter: its heading number, title and whether the video hints show. */
  datatype PreviewCard = PreviewCard(number: int, title: string, showsVideo: bool)

  /** `mockPreviewData.chapters.slice(0, formData.chapters)` (line 237), numbered from 1. */
  function PreviewCards(f: CourseForm): (cards: seq<PreviewCard>)
    ensures |cards| <= |SampleTitles|
    ensures f.chapters.NaN? ==> cards == []
    ensures f.chapters.Int? && f.chapters.value >= 0 ==> |cards| == Min(f.chapters.value, |SampleTitles|)
    ensures f.chapters.Int? && f.chapters.value < 0 ==> |cards| == Max(|SampleTitles| + f.chapters.value, 0)
    ensures forall i :: 0 <= i < |cards| ==>
      cards[i] == PreviewCard(i + 1, SampleTitles[i], f.includeVideos)
  {
    var shown := SliceFromStart(SampleTitles, f.chapters);
    seq(|shown|, i requires 0 <= i < |shown| => PreviewCard(i + 1, shown[i], f.includeVideos))
  }

  /** For a count in the box's range 1..20 the preview shows that many samples, at most
      three; the default of five shows all three. */
  lemma PreviewCardCount(f: CourseForm)
    requires f.chapters.Int? && 1 <= f.chapters.value <= 20
    ensures |PreviewCards(f)| == if f.chapters.value < 3 then f.chapters.value else 3
  {
  }

  // ---------------------------------------------------------------------------
  // The dialog's state

  class CourseDialog {
    var step: Step
    var form: CourseForm
    /** Generation timers started and not yet fired. */
    var pendingTimers: nat
    /** The `isOpen` prop, which the parent clears whenever the dialog calls `onClose`. */
    var isOpen: bool

    /** Exactly one timer is pending while generating, none otherwise. */
    predicate Valid()
      reads this
    {
      (step == Generating <==> pendingTimers == 1) && pendingTimers <= 1
    }

    constructor (isOpen: bool)
      ensures step == InputStep && form == InitialForm && pendingTimers == 0
      ensures this.isOpen == isOpen
      ensures Valid()
    {
      step, form, pendingTimers := InputStep, InitialForm, 0;
      this.isOpen := isOpen;
    }

    /** `handleInputChange` (lines 37-39). */
    method InputChange(field: Field, v: Value)
      requires Fits(field, v)
      requires Valid()
      modifies this`form
      ensures form == WithInput(old(form), field, v)
      ensures Valid()
    {
      form := WithInput(form, field, v);
    }

    /** `handleGeneratePreview` (lines 41-57), from the input step where its button is.
        An incomplete form is reported and nothing changes; otherwise the dialog starts
        generating and one timer is started. */
    method GeneratePreview() returns (missingInformation: bool)
      requires Valid() && step == InputStep
      modifies this`step, this`pendingTimers
      ensures missingInformation <==> !Complete(form)
      ensures missingInformation ==> step == InputStep && pendingTimers == old(pendingTimers)
      ensures !missingInformation ==> step == Generating && pendingTimers == old(pendingTimers) + 1
      ensures Valid()
    {
      if !Complete(form) {
        return true;
      }
      missingInformation := false;
      step := Generating;
      pendingTimers := pendingTimers + 1;
    }

    /** The three-second timer fires: the preview is shown, even if the dialog was
        closed in the meantime (nothing cancels the timer). */
    method TimerFired()
      requires Valid() && pendingTimers > 0
      modifies this`step, this`pendingTimers
      ensures step == PreviewStep && pendingTimers == old(pendingTimers) - 1
      ensures Valid()
    {
      step := PreviewStep;
      pendingTimers := pendingTimers - 1;
    }

    /** Back to Edit (line 269): the form is kept as it was. */
    method BackToEdit()
      requires Valid() && step == PreviewStep
      modifies this`step
      ensures step == InputStep
      ensures Valid()
    {
      step := InputStep;
    }

    /** `handleCreateCourse` (lines 59-66): closes the dialog and returns to the input
        step. The form is not cleared, and nothing is sent to the server. */
    method CreateCourse()
      requires Valid() && step == PreviewStep
      modifies this`step, this`isOpen
      ensures step == InputStep && !isOpen
      ensures Valid()
    {
      isOpen := false;
      step := InputStep;
    }

    /** Cancel (line 197) or dismissing the dialog: only the parent's `isOpen` changes. */
    method Close()
      requires Valid()
      modifies this`isOpen
      ensures !isOpen
      ensures Valid()
    {
      isOpen := false;
    }

    /** The parent opens the dialog again: the step and the form are as they were left. */
    method Open()
      requires Valid()
      modifies this`isOpen
      ensures isOpen
      ensures Valid()
    {
      isOpen := true;
    }
  }

  /** One pass through the dialog: type every field of a complete form, generate, wait,
      create. The dialog ends closed, back at the input step, with the form still filled in. */
  method CreateOnce(d: CourseDialog, f: CourseForm)
    requires d.Valid() && d.step == InputStep && Complete(f)
    modifies d
    ensures d.step == InputStep && !d.isOpen && d.pendingTimers == 0
    ensures d.form == f && d.Valid()
  {
    d.InputChange(NameField, Text(f.name));
    d.InputChange(DescriptionField, Text(f.description));
    d.InputChange(ChaptersField, Number(f.chapters));
    d.InputChange(IncludeVideosField, Flag(f.includeVideos));
    d.InputChange(CategoryField, Text(f.category));
    d.InputChange(DifficultyField, Text(f.difficulty));
    var missing := d.GeneratePreview();
    d.TimerFired();
    d.CreateCourse();
  }
}
