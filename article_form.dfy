/**
  The dashboard's article editor (src/components/dashboard/ArticleForm.tsx):
  the form state, how it is initialised from the edited article, how each
  input event changes it, and the check made before `onSave` is called.
 */
module ArticleEditor {
  import opened Outcomes
  import opened Articles

  /**
    The form state (`Partial<Article>`): `objectId` is present only when the
    form was initialised from an article; the other fields are always set.
   */
  datatype FormData = FormData(
    objectId: Option<string>,
    title: string,
    content: string,
    thumbnail: string,
    categoryy: string,
    publish: bool,
    slug: string)

  /** The `name`s of the text inputs and the textarea. */
  datatype TextField = Title | Slug | Content | Thumbnail | Categoryy

  /**
    An input event. The only checkbox of the form is `publish`, so a
    checkbox event carries `checked` for it; every other input carries `value`.
   */
  datatype ChangeEvent = TextInput(name: TextField, value: string) | CheckboxInput(checked: bool)

  /** The default state: every text field empty, not published, no `objectId`. */
  const BlankForm := FormData(None, "", "", "", "", false, "")

  function FieldValue(f: FormData, name: TextField): string {
    match name
    case Title => f.title
    case Slug => f.slug
    case Content => f.content
    case Thumbnail => f.thumbnail
    case Categoryy => f.categoryy
  }

  /** The initialisation effect: copy the article, with `''` for a null or missing value; blank without one. */
  function FromArticle(article: Option<Article>): (f: FormData)
    ensures article.None? ==> f == BlankForm && f.objectId.None?
    ensures article.Some? ==>
      var a := article.value;
      && f.objectId == Some(a.objectId) && f.title == a.title && f.content == a.content
      && f.publish == a.publish && f.slug == a.slug
      && (a.thumbnail.None? ==> f.thumbnail == "") && (a.thumbnail.Some? ==> f.thumbnail == a.thumbnail.value)
      && (a.categoryy.None? ==> f.categoryy == "") && (a.categoryy.Some? ==> f.categoryy == a.categoryy.value)
  {
    match article
    case None => BlankForm
    case Some(a) =>
      FormData(Some(a.objectId), a.title, a.content, a.thumbnail.GetOr(""), a.categoryy.GetOr(""), a.publish, a.slug)
  }

  /** `handleChange`: the named field takes the event's value, every other field is kept. */
  function ApplyChange(f: FormData, e: ChangeEvent): (r: FormData)
    ensures e.TextInput? ==> FieldValue(r, e.name) == e.value && r.publish == f.publish
    ensures e.TextInput? ==> forall other :: other != e.name ==> FieldValue(r, other) == FieldValue(f, other)
    ensures e.CheckboxInput? ==> r.publish == e.checked && forall name :: FieldValue(r, name) == FieldValue(f, name)
    ensures r.objectId == f.objectId
  {
    match e
    case CheckboxInput(checked) => f.(publish := checked)
    case TextInput(name, value) =>
      match name
      case Title => f.(title := value)
      case Slug => f.(slug := value)
      case Content => f.(content := value)
      case Thumbnail => f.(thumbnail := value)
      case Categoryy => f.(categoryy := value)
  }

  /** The alert shown when the submit guard fails. */
  const MissingFieldsAlert := "Judul, konten, dan slug tidak boleh kosong."

  /** The text inputs the submit guard checks. */
  const RequiredFields: set<TextField> := {Title, Content, Slug}

  /** The submit guard: every required text input must be non-empty. */
  predicate CanSubmit(f: FormData)
    ensures CanSubmit(f) <==> forall name :: name in RequiredFields ==> FieldValue(f, name) != ""
  {
    f.title != "" && f.content != "" && f.slug != ""
  }

  /** Editing the thumbnail, the category or the publish flag never changes whether the form can be submitted. */
  lemma GuardIgnoresOptionalFields(f: FormData, e: ChangeEvent)
    requires e.CheckboxInput? || e.name !in RequiredFields
    ensures CanSubmit(ApplyChange(f, e)) == CanSubmit(f)
  {
  }

  /** A freshly reset form can never be submitted. */
  lemma BlankFormRejected()
    ensures !CanSubmit(FromArticle(None))
  {
  }

  /** Filling in title, content and slug is enough for a blank form to pass the guard. */
  lemma FilledFormAccepted(t: string, c: string, s: string)
    requires t != "" && c != "" && s != ""
    ensures CanSubmit(ApplyChange(ApplyChange(ApplyChange(FromArticle(None), TextInput(Title, t)), TextInput(Content, c)), TextInput(Slug, s)))
  {
  }

  /** The editor component: its state and its event handlers. */
  class ArticleForm {
    var formData: FormData

    /** Mounting: the default state, immediately replaced by the initialisation effect. */
    constructor(article: Option<Article>)
      ensures formData == FromArticle(article)
    {
      formData := BlankForm;
      formData := FromArticle(article);
    }

    /** The initialisation effect, run again when the `article` prop changes. */
    method SyncWithArticle(article: Option<Article>)
      modifies this
      ensures formData == FromArticle(article)
    {
      formData := FromArticle(article);
    }

    method HandleChange(e: ChangeEvent)
      modifies this
      ensures formData == ApplyChange(old(formData), e)
    {
      formData := ApplyChange(formData, e);
    }

    /**
      `handleSubmit`: the data handed to `onSave`, or, when the guard fails,
      no call and the alert instead.
     */
    method HandleSubmit() returns (saved: Option<FormData>, alert: Option<string>)
      ensures saved.Some? <==> formData.title != "" && formData.content != "" && formData.slug != ""
      ensures saved.Some? ==> saved.value == formData
      ensures alert.Some? <==> saved.None?
      ensures alert.Some? ==> alert.value == MissingFieldsAlert
    {
      if !CanSubmit(formData) {
        saved, alert := None, Some(MissingFieldsAlert);
        return;
      }
      saved, alert := Some(formData), None;
    }
  }
}
