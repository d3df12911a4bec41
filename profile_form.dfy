/** The profile form shared by profile creation and the settings page: text
    fields by column name and three lists of strings, and the one handler the
    two pages share, the change of a named input. */
module ProfileForm {
  import opened Text

  /** The signed-in account: its id and, if it has one, its e-mail address. */
  datatype AuthUser = AuthUser(id: string, email: Option<string>)

  /** The list-valued columns of a profile. */
  datatype ListField = Interests | ActivityPreferences | LanguagePreferences

  function ListColumn(f: ListField): string
  {
    match f
    case Interests => "interests"
    case ActivityPreferences => "activity_preferences"
    case LanguagePreferences => "language_preferences"
  }

  predicate IsListColumn(k: string)
  {
    k == "interests" || k == "activity_preferences" || k == "language_preferences"
  }

  /** The list columns are exactly the three list fields' names. */
  lemma ListColumns(k: string, f: ListField, g: ListField)
    ensures IsListColumn(k) <==> exists h :: ListColumn(h) == k
    ensures ListColumn(f) == ListColumn(g) ==> f == g
  {
    if IsListColumn(k) {
      if k == "interests" {
        assert ListColumn(Interests) == k;
      } else if k == "activity_preferences" {
        assert ListColumn(ActivityPreferences) == k;
      } else {
        assert ListColumn(LanguagePreferences) == k;
      }
    }
  }

  /** The form's state: each text input's value by its column name, and the lists. */
  datatype Form = Form(text: map<string, string>, interests: seq<string>,
                       activityPreferences: seq<string>, languagePreferences: seq<string>)

  function ListOf(form: Form, f: ListField): seq<string>
  {
    match f
    case Interests => form.interests
    case ActivityPreferences => form.activityPreferences
    case LanguagePreferences => form.languagePreferences
  }

  /** The form with one list replaced. */
  function WithList(form: Form, f: ListField, xs: seq<string>): (r: Form)
    ensures ListOf(r, f) == xs
    ensures forall g :: g != f ==> ListOf(r, g) == ListOf(form, g)
    ensures r.text == form.text
  {
    match f
    case Interests => form.(interests := xs)
    case ActivityPreferences => form.(activityPreferences := xs)
    case LanguagePreferences => form.(languagePreferences := xs)
  }

  /** `handleInputChange`: the input named `name` now holds `value`. */
  function WithInput(form: Form, name: string, value: string): Form
  {
    form.(text := form.text[name := value])
  }

  /** An input change sets its own field and leaves every other field, text or
      list, as it was. */
  lemma WithInputChangesOneField(form: Form, name: string, value: string)
    ensures var r := WithInput(form, name, value);
      name in r.text && r.text[name] == value
      && (forall k :: k != name ==> (k in r.text <==> k in form.text))
      && (forall k :: k != name && k in form.text ==> r.text[k] == form.text[k])
      && (forall f :: ListOf(r, f) == ListOf(form, f))
  {
  }
}
