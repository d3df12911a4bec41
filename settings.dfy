/** The settings page: the stored profile turned into the form, the edits the
    page offers (a named input, an interest removed by its position), and the
    save of the form back to the profile.

    The account lookup and the profiles table are outside the model: what they
    answer is a parameter. */
module Settings {
  import opened Text
  import opened Store
  import opened ProfileForm

  /** The text columns of the settings form; the e-mail address is not one. */
  const SettingsTextColumns: seq<string> := [
    "first_name", "last_name", "phone_number", "bio", "gender", "date_of_birth",
    "address_line1", "address_line2", "postal_code", "city", "country", "mobility_level"
  ]

  /** The inputs the page renders, each named by its column. */
  const SettingsInputs: set<string> := {
    "first_name", "last_name", "phone_number", "bio", "gender", "date_of_birth",
    "address_line1", "city", "postal_code", "mobility_level"
  }

  /** What a column holds while nothing is stored: Singapore for the country,
      nothing for the others. */
  function ColumnDefault(column: string): string
  {
    if column == "country" then "Singapore" else ""
  }

  /** The form before the profile has been read. */
  const InitialSettingsForm: Form := Form(map k | k in SettingsTextColumns :: ColumnDefault(k), [], [], [])

  /** A stored profile row: its text columns (a missing key is a null column)
      and its list columns. */
  datatype StoredProfile = StoredProfile(columns: map<string, string>, interests: Option<seq<string>>,
                                         activityPreferences: Option<seq<string>>,
                                         languagePreferences: Option<seq<string>>)

  /** `value || fallback` for a text column. */
  function OrElse(p: StoredProfile, column: string, fallback: string): string
  {
    if column in p.columns && p.columns[column] != "" then p.columns[column] else fallback
  }

  /** `value || []` for a list column. */
  function ListOrEmpty(xs: Option<seq<string>>): seq<string>
  {
    match xs
    case Some(v) => v
    case None => []
  }

  /** The form a stored profile pre-populates: each column's value, or its
      default when the column is null or empty. */
  function Normalised(p: StoredProfile): Form
  {
    Form(map k | k in SettingsTextColumns :: OrElse(p, k, ColumnDefault(k)),
         ListOrEmpty(p.interests), ListOrEmpty(p.activityPreferences), ListOrEmpty(p.languagePreferences))
  }

  /** The form has exactly the settings columns; each holds the stored value,
      or nothing when the column is null, except that a null or empty country
      falls back to Singapore; a null list becomes an empty one. The e-mail
      address never enters the form. */
  lemma NormalisedMeaning(p: StoredProfile)
    ensures var f := Normalised(p);
      (forall k :: k in f.text <==> k in SettingsTextColumns)
      && (forall k :: k in f.text && k != "country" ==>
            f.text[k] == (if k in p.columns then p.columns[k] else ""))
      && f.text["country"] == (if "country" in p.columns && p.columns["country"] != "" then p.columns["country"] else "Singapore")
      && f.interests == (if p.interests.Some? then p.interests.value else [])
      && f.activityPreferences == (if p.activityPreferences.Some? then p.activityPreferences.value else [])
      && f.languagePreferences == (if p.languagePreferences.Some? then p.languagePreferences.value else [])
      && "email" !in f.text
  {
    assert "country" in SettingsTextColumns;
    assert "email" !in SettingsTextColumns;
  }

  /** The initial form is the form of a profile with nothing stored. */
  lemma InitialIsEmptyProfile()
    ensures InitialSettingsForm == Normalised(StoredProfile(map[], None, None, None))
  {
  }

  /** The list without the entry at `index`; other positions, equal values
      included, stay. */
  function WithoutIndex(xs: seq<string>, index: int): seq<string>
  {
    if 0 <= index < |xs| then xs[..index] + xs[index + 1..] else xs
  }

  /** Removing by position removes that one entry and shifts the later ones
      down; its other copies stay, so only one occurrence of the value is lost. */
  lemma WithoutIndexMeaning(xs: seq<string>, index: int)
    requires 0 <= index < |xs|
    ensures var r := WithoutIndex(xs, index);
      |r| == |xs| - 1
      && (forall k :: 0 <= k < index ==> r[k] == xs[k])
      && (forall k :: index <= k < |r| ==> r[k] == xs[k + 1])
      && multiset(r) + multiset{xs[index]} == multiset(xs)
  {
    var r := WithoutIndex(xs, index);
    assert xs == xs[..index] + [xs[index]] + xs[index + 1..];
  }

  /** What the profile query gives. */
  datatype ProfileQuery = QueryFailed(message: string) | Rows(rows: seq<StoredProfile>)

  class SettingsPage {
    var user: Option<AuthUser>
    var profile: Option<StoredProfile>
    var loading: bool
    var saving: bool
    var formData: Form

    /** The form never holds the e-mail address. */
    predicate Valid()
      reads this
    {
      "email" !in formData.text
    }

    constructor()
      ensures Valid()
      ensures user.None? && profile.None? && loading && !saving && formData == InitialSettingsForm
    {
      user, profile, loading, saving := None, None, true, false;
      formData := InitialSettingsForm;
    }

    /** `checkUserAndProfile`: without an account nothing is read; otherwise
        the first stored row, if any, becomes the profile and fills the form.
        Loading ends either way. */
    method CheckUserAndProfile(account: Option<AuthUser>, query: ProfileQuery)
      requires Valid()
      modifies this
      ensures Valid() && !loading && saving == old(saving)
      ensures account.None? ==> user == old(user) && profile == old(profile) && formData == old(formData)
      ensures account.Some? ==> user == account
      ensures account.Some? && query.Rows? && query.rows != [] ==>
        profile == Some(query.rows[0]) && formData == Normalised(query.rows[0])
      ensures account.Some? && !(query.Rows? && query.rows != []) ==>
        profile == old(profile) && formData == old(formData)
    {
      if account.Some? {
        user := account;
        if query.Rows? && query.rows != [] {
          var stored := query.rows[0];
          profile := Some(stored);
          formData := Normalised(stored);
          NormalisedMeaning(stored);
        }
      }
      loading := false;
    }

    /** `handleInputChange`, from one of the page's inputs. */
    method InputChange(name: string, value: string)
      requires Valid() && name in SettingsInputs
      modifies this
      ensures Valid() && formData == WithInput(old(formData), name, value)
      ensures user == old(user) && profile == old(profile) && loading == old(loading) && saving == old(saving)
    {
      formData := WithInput(formData, name, value);
    }

    /** The remove button of the interest shown at `index`. */
    method RemoveInterest(index: int)
      requires Valid()
      modifies this
      ensures Valid() && formData == WithList(old(formData), Interests, WithoutIndex(old(formData).interests, index))
      ensures user == old(user) && profile == old(profile) && loading == old(loading) && saving == old(saving)
    {
      formData := WithList(formData, Interests, WithoutIndex(formData.interests, index));
    }

    /** `handleSaveProfile`: without an account and a profile nothing happens;
        otherwise the form is sent as the update of the account's row, and
        `refreshed` says whether the page reads the profile again (only after
        a successful save). Saving ends on every outcome. */
    method SaveProfile(store: StoreResult) returns (update: Option<(string, Form)>, refreshed: bool)
      requires Valid()
      modifies this
      ensures Valid() && formData == old(formData) && user == old(user) && profile == old(profile)
      ensures loading == old(loading)
      ensures old(user).None? || old(profile).None? ==> update.None? && !refreshed && saving == old(saving)
      ensures old(user).Some? && old(profile).Some? ==>
        update == Some((old(user).value.id, old(formData))) && (refreshed <==> store.Stored?) && !saving
      ensures update.Some? ==> "email" !in update.value.1.text
    {
      update, refreshed := None, false;
      if user.None? || profile.None? {
        return;
      }
      saving := true;
      update := Some((user.value.id, formData));
      refreshed := store.Stored?;
      saving := false;
    }
  }
}
