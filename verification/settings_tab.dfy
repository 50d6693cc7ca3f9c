/**
 The state changes behind the settings tab's input handlers. Each handler
 overwrites exactly one field of the settings with the value the user
 entered; the front-matter handler stores the filtered list, the template
 handler falls back to the built-in template on empty input, and the reset
 button restores the built-in template.
 */
module SettingsTab {
  import opened SettingsSchema
  import opened FrontMatter

  /** `s` and `r` differ at most in field `f`, which now holds `v`. */
  predicate OnlyChanged(s: Settings, r: Settings, f: Field, v: Value) {
    && Get(r, f) == v
    && forall g :: g != f ==> Get(r, g) == Get(s, g)
  }

  function SetClientId(s: Settings, v: string): (r: Settings)
    ensures OnlyChanged(s, r, ClientId, Str(v))
  {
    s.(authentication := s.authentication.(clientId := v))
  }

  function SetClientSecret(s: Settings, v: string): (r: Settings)
    ensures OnlyChanged(s, r, ClientSecret, Str(v))
  {
    s.(authentication := s.authentication.(clientSecret := v))
  }

  function SetFolder(s: Settings, v: string): (r: Settings)
    ensures OnlyChanged(s, r, Folder, Str(v))
  {
    s.(syncLocation := s.syncLocation.(folder := v))
  }

  function SetFolderDateFormat(s: Settings, v: string): (r: Settings)
    ensures OnlyChanged(s, r, FolderDateFormat, Str(v))
  {
    s.(syncLocation := s.syncLocation.(folderDateFormat := v))
  }

  function SetFilename(s: Settings, v: string): (r: Settings)
    ensures OnlyChanged(s, r, Filename, Str(v))
  {
    s.(syncLocation := s.syncLocation.(filename := v))
  }

  function SetFilenameDateFormat(s: Settings, v: string): (r: Settings)
    ensures OnlyChanged(s, r, FilenameDateFormat, Str(v))
  {
    s.(syncLocation := s.syncLocation.(filenameDateFormat := v))
  }

  function StoreFrontMatter(s: Settings, props: seq<string>): (r: Settings)
    ensures OnlyChanged(s, r, FrontMatterProperties, Names(props))
  {
    s.(activity := s.activity.(frontMatterProperties := props))
  }

  /** The front-matter handler stores the filtered list, so the result is always well formed. */
  function SetFrontMatter(s: Settings, raw: string): (r: Settings)
    ensures OnlyChanged(s, r, FrontMatterProperties, Names(Filter(raw)))
    ensures WellFormed(r)
  {
    StoreFrontMatter(s, Filter(raw))
  }

  function SetContentDateFormat(s: Settings, v: string): (r: Settings)
    ensures OnlyChanged(s, r, ContentDateFormat, Str(v))
  {
    s.(activity := s.activity.(contentDateFormat := v))
  }

  /**
   The template handler: a non-empty value, whitespace-only included, is
   stored as typed; the empty value stores the built-in template instead.
   */
  function SetTemplate(s: Settings, v: string): (r: Settings)
    ensures v != "" ==> OnlyChanged(s, r, Template, Str(v))
    ensures v == "" ==> OnlyChanged(s, r, Template, Get(DefaultSettings, Template))
  {
    s.(activity := s.activity.(template := if v != "" then v else DefaultSettings.activity.template))
  }

  /** The reset button: the built-in template replaces whatever was there. */
  function ResetTemplate(s: Settings): (r: Settings)
    ensures OnlyChanged(s, r, Template, Get(DefaultSettings, Template))
  {
    s.(activity := s.activity.(template := DefaultSettings.activity.template))
  }

  /** Reset stores the same settings as submitting an empty template. */
  lemma ResetIsEmptyTemplateEdit(s: Settings)
    ensures ResetTemplate(s) == SetTemplate(s, "")
  {
    var r1, r2 := ResetTemplate(s), SetTemplate(s, "");
    FieldsDetermineSettings(r1, r2);
  }

  /**
   After a template edit the stored template is empty only if the built-in
   template is: the empty edit value itself is never stored.
   */
  lemma TemplateEditNeverStoresEmpty(s: Settings, v: string)
    ensures SetTemplate(s, v).activity.template == "" ==> DefaultTemplate == ""
  {
    assert Get(SetTemplate(s, v), Template) == Str(SetTemplate(s, v).activity.template);
  }

  /** One user interaction with the settings tab. */
  datatype Edit =
    | EditClientId(clientId: string)
    | EditClientSecret(clientSecret: string)
    | EditFolder(folder: string)
    | EditFolderDateFormat(folderDateFormat: string)
    | EditFilename(filename: string)
    | EditFilenameDateFormat(filenameDateFormat: string)
    | EditFrontMatter(raw: string)
    | EditContentDateFormat(contentDateFormat: string)
    | EditTemplate(template: string)
    | PressResetTemplate

  /** The field an interaction writes. */
  function Target(e: Edit): Field {
    match e
    case EditClientId(_) => ClientId
    case EditClientSecret(_) => ClientSecret
    case EditFolder(_) => Folder
    case EditFolderDateFormat(_) => FolderDateFormat
    case EditFilename(_) => Filename
    case EditFilenameDateFormat(_) => FilenameDateFormat
    case EditFrontMatter(_) => FrontMatterProperties
    case EditContentDateFormat(_) => ContentDateFormat
    case EditTemplate(_) => Template
    case PressResetTemplate => Template
  }

  /** The value an interaction stores in its field; it does not depend on the current settings. */
  function Written(e: Edit): Value {
    match e
    case EditClientId(v) => Str(v)
    case EditClientSecret(v) => Str(v)
    case EditFolder(v) => Str(v)
    case EditFolderDateFormat(v) => Str(v)
    case EditFilename(v) => Str(v)
    case EditFilenameDateFormat(v) => Str(v)
    case EditFrontMatter(raw) => Names(Filter(raw))
    case EditContentDateFormat(v) => Str(v)
    case EditTemplate(v) => Str(if v == "" then DefaultTemplate else v)
    case PressResetTemplate => Str(DefaultTemplate)
  }

  /** The handler an interaction triggers. */
  function Handler(s: Settings, e: Edit): Settings {
    match e
    case EditClientId(v) => SetClientId(s, v)
    case EditClientSecret(v) => SetClientSecret(s, v)
    case EditFolder(v) => SetFolder(s, v)
    case EditFolderDateFormat(v) => SetFolderDateFormat(s, v)
    case EditFilename(v) => SetFilename(s, v)
    case EditFilenameDateFormat(v) => SetFilenameDateFormat(s, v)
    case EditFrontMatter(raw) => SetFrontMatter(s, raw)
    case EditContentDateFormat(v) => SetContentDateFormat(s, v)
    case EditTemplate(v) => SetTemplate(s, v)
    case PressResetTemplate => ResetTemplate(s)
  }

  /** Each handler writes its own field with the value it stores and keeps the invariant. */
  lemma HandlerWritesOnlyTarget(s: Settings, e: Edit)
    ensures OnlyChanged(s, Handler(s, e), Target(e), Written(e))
    ensures WellFormed(s) ==> WellFormed(Handler(s, e))
  {
    match e {
      case EditClientId(v) =>
      case EditClientSecret(v) =>
      case EditFolder(v) =>
      case EditFolderDateFormat(v) =>
      case EditFilename(v) =>
      case EditFilenameDateFormat(v) =>
      case EditFrontMatter(raw) =>
      case EditContentDateFormat(v) =>
      case EditTemplate(v) =>
      case PressResetTemplate =>
    }
  }

  /**
   One interaction: its handler writes the interaction's own field with the
   value it stores, leaves every other field as it was, and so keeps the
   settings well formed.
   */
  function Apply(s: Settings, e: Edit): (r: Settings)
    ensures OnlyChanged(s, r, Target(e), Written(e))
    ensures WellFormed(s) ==> WellFormed(r)
  {
    HandlerWritesOnlyTarget(s, e);
    Handler(s, e)
  }

  /** Runs a sequence of interactions in order. */
  function ApplyAll(s: Settings, es: seq<Edit>): Settings
    decreases |es|
  {
    if |es| == 0 then s else ApplyAll(Apply(s, es[0]), es[1..])
  }

  /** No sequence of interactions breaks the settings invariant. */
  lemma {:induction false} ApplyAllKeepsWellFormed(s: Settings, es: seq<Edit>)
    requires WellFormed(s)
    ensures WellFormed(ApplyAll(s, es))
    decreases |es|
  {
    if |es| > 0 {
      ApplyAllKeepsWellFormed(Apply(s, es[0]), es[1..]);
    }
  }

  /** Every settings value reachable from the defaults is well formed. */
  lemma ReachableIsWellFormed(es: seq<Edit>)
    ensures WellFormed(ApplyAll(DefaultSettings, es))
  {
    DefaultSettingsShape();
    ApplyAllKeepsWellFormed(DefaultSettings, es);
  }

  /** After two interactions a field holds the later write to it, else the earlier, else its old value. */
  lemma GetAfterTwo(s: Settings, e1: Edit, e2: Edit, f: Field)
    ensures Get(Apply(Apply(s, e1), e2), f)
         == if f == Target(e2) then Written(e2) else if f == Target(e1) then Written(e1) else Get(s, f)
  {
    var t := Apply(s, e1);
    assert Get(Apply(t, e2), f) == if f == Target(e2) then Written(e2) else Get(t, f);
  }

  /** Edits to different fields give the same settings in either order. */
  lemma EditsOfDifferentFieldsCommute(s: Settings, e1: Edit, e2: Edit)
    requires Target(e1) != Target(e2)
    ensures Apply(Apply(s, e1), e2) == Apply(Apply(s, e2), e1)
  {
    var a, b := Apply(Apply(s, e1), e2), Apply(Apply(s, e2), e1);
    forall f
      ensures Get(a, f) == Get(b, f)
    {
      GetAfterTwo(s, e1, e2, f);
      GetAfterTwo(s, e2, e1, f);
    }
    FieldsDetermineSettings(a, b);
  }

  /** Repeating an interaction changes nothing further. */
  lemma EditIsIdempotent(s: Settings, e: Edit)
    ensures Apply(Apply(s, e), e) == Apply(s, e)
  {
    var a, b := Apply(Apply(s, e), e), Apply(s, e);
    forall f
      ensures Get(a, f) == Get(b, f)
    {
      GetAfterTwo(s, e, e, f);
    }
    FieldsDetermineSettings(a, b);
  }

  /**
   The text the front-matter editor shows for the current settings; for
   well-formed settings the filter turns it back into the stored list.
   */
  function FrontMatterText(s: Settings): (r: string)
    ensures WellFormed(s) ==> Filter(r) == s.activity.frontMatterProperties
  {
    var props := s.activity.frontMatterProperties;
    assert WellFormed(s) ==> Filter(Display(props)) == props by {
      if WellFormed(s) {
        FilterDisplayRoundTrip(props);
      }
    }
    Display(props)
  }

  /** Leaving the front-matter text as shown and submitting it stores the same settings. */
  lemma ResubmitShownFrontMatter(s: Settings)
    requires WellFormed(s)
    ensures SetFrontMatter(s, FrontMatterText(s)) == s
  {
    FieldsDetermineSettings(SetFrontMatter(s, FrontMatterText(s)), s);
  }
}
