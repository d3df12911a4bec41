/** The profile-creation form: its initial values, the list editors (add the
    typed word, remove a word), the merge of what the voice reader found, and
    the record that is submitted.

    The insert into the profiles table is outside the model: its answer is a
    parameter. */
module ProfileCreation {
  import opened Text
  import opened Json
  import opened Store
  import opened ProfileForm
  import TranscriptFields

  // ---------------------------------------------------------------- the initial form

  /** The text columns of the creation form. */
  const CreationTextColumns: set<string> := {
    "first_name", "last_name", "email", "phone_number", "date_of_birth", "age", "gender",
    "address_line1", "address_line2", "postal_code", "city", "country", "bio",
    "emergency_contact_name", "emergency_contact_phone", "mobility_level"
  }

  /** The form before anything is typed, for an account with the given e-mail. */
  function InitialForm(email: Option<string>): Form
  {
    var address := match email case Some(e) => e case None => "";
    Form(map[
           "first_name" := "", "last_name" := "", "email" := address, "phone_number" := "",
           "date_of_birth" := "", "age" := "", "gender" := "", "address_line1" := "",
           "address_line2" := "", "postal_code" := "", "city" := "", "country" := "Singapore",
           "bio" := "", "emergency_contact_name" := "", "emergency_contact_phone" := "",
           "mobility_level" := ""
         ],
         [], [], [])
  }

  /** The form starts with every text column present: the account's e-mail (or
      nothing), Singapore as the country, every other column empty, and no
      list entries. */
  lemma InitialFormMeaning(email: Option<string>)
    ensures var f := InitialForm(email);
      (forall k :: k in f.text <==> k in CreationTextColumns)
      && f.text["email"] == (if email.Some? then email.value else "")
      && f.text["country"] == "Singapore"
      && (forall k :: k in f.text && k != "email" && k != "country" ==> f.text[k] == "")
      && (forall g :: ListOf(f, g) == [])
  {
  }

  // ---------------------------------------------------------------- list editors

  /** `addToArray`: the typed word, trimmed, joins the list when it is not empty
      and not already there. */
  function Added(xs: seq<string>, typed: string): seq<string>
  {
    var w := Trim(typed);
    if w != "" && w !in xs then xs + [w] else xs
  }

  /** Whether `addToArray` takes the word (and so clears the box it was typed in). */
  predicate Takes(xs: seq<string>, typed: string)
  {
    Trim(typed) != "" && Trim(typed) !in xs
  }

  /** Adding keeps a list free of repeats, grows it by at most the one trimmed
      word, and after it the word (if not blank) is in the list. Adding the same
      word again changes nothing. */
  lemma AddedMeaning(xs: seq<string>, typed: string)
    ensures Added(xs, typed) == xs || Added(xs, typed) == xs + [Trim(typed)]
    ensures Added(xs, typed) != xs <==> Takes(xs, typed)
    ensures Distinct(xs) ==> Distinct(Added(xs, typed))
    ensures Trim(typed) != "" ==> Trim(typed) in Added(xs, typed)
    ensures Added(Added(xs, typed), typed) == Added(xs, typed)
  {
    var w := Trim(typed);
    if Takes(xs, typed) {
      var ys := xs + [w];
      assert ys[|xs|] == w;
      if Distinct(xs) {
        forall i, j | 0 <= i < j < |ys|
          ensures ys[i] != ys[j]
        {
          if j == |xs| {
            assert ys[i] == xs[i];
          }
        }
      }
    }
  }

  /** `removeFromArray`: every copy of the word leaves the list. */
  function Removed(xs: seq<string>, word: string): seq<string>
  {
    Filter(xs, (x: string) => x != word)
  }

  /** Removing keeps every other word, in order, and no copy of the removed one.
      Removing a word just added gives the list back. */
  lemma RemovedMeaning(xs: seq<string>, typed: string)
    ensures forall x :: x in Removed(xs, typed) <==> x in xs && x != typed
    ensures IsSubsequence(Removed(xs, typed), xs)
    ensures Takes(xs, typed) ==> Removed(Added(xs, typed), Trim(typed)) == xs
  {
    FilterIsSubsequence(xs, (x: string) => x != typed);
    if Takes(xs, typed) {
      var w := Trim(typed);
      var keep := (x: string) => x != w;
      FilterAppend(xs, [w], keep);
      FilterKeepAll(xs, keep);
      assert Filter([w], keep) == [];
    }
  }

  // ---------------------------------------------------------------- the voice merge

  /** The list a list column names. */
  function ListFieldOf(k: string): (f: ListField)
    requires IsListColumn(k)
    ensures ListColumn(f) == k
  {
    if k == "interests" then Interests
    else if k == "activity_preferences" then ActivityPreferences
    else LanguagePreferences
  }

  /** One found field merged into the form: a list column takes the list its
      text reads as, and keeps its list when the text does not read as one;
      any other column takes the text. */
  function VoiceEntry(form: Form, k: string, v: string): Form
  {
    if IsListColumn(k) then
      match ParseStringArray(v)
      case Some(xs) => WithList(form, ListFieldOf(k), xs)
      case None => form
    else form.(text := form.text[k := v])
  }

  /** A list after the found fields in `done` are merged. */
  function ListAfter(xs: seq<string>, found: map<string, string>, done: set<string>, f: ListField): seq<string>
    requires done <= found.Keys
  {
    var c := ListColumn(f);
    if c in done && ParseStringArray(found[c]).Some? then ParseStringArray(found[c]).value else xs
  }

  /** The form after the found fields in `done` are merged, in any order. */
  function MergedOver(form: Form, found: map<string, string>, done: set<string>): Form
    requires done <= found.Keys
  {
    Form(form.text + (map k | k in done && !IsListColumn(k) :: found[k]),
         ListAfter(form.interests, found, done, Interests),
         ListAfter(form.activityPreferences, found, done, ActivityPreferences),
         ListAfter(form.languagePreferences, found, done, LanguagePreferences))
  }

  /** `handleVoiceTranscription`'s update of the form. */
  function VoiceMerged(form: Form, found: map<string, string>): Form
  {
    MergedOver(form, found, found.Keys)
  }

  /** Merging one more field is one `VoiceEntry`. */
  lemma MergedStep(form: Form, found: map<string, string>, done: set<string>, k: string)
    requires done <= found.Keys && k in found && k !in done
    ensures MergedOver(form, found, done + {k}) == VoiceEntry(MergedOver(form, found, done), k, found[k])
  {
    var before := MergedOver(form, found, done);
    var after := MergedOver(form, found, done + {k});
    TextStep(form, found, done, k);
    forall g
      ensures ListOf(after, g) == ListOf(VoiceEntry(before, k, found[k]), g)
    {
      ListStep(ListOf(form, g), found, done, k, g);
    }
    ListsDetermineForm(after, VoiceEntry(before, k, found[k]));
  }

  lemma TextStep(form: Form, found: map<string, string>, done: set<string>, k: string)
    requires done <= found.Keys && k in found && k !in done
    ensures MergedOver(form, found, done + {k}).text ==
      if IsListColumn(k) then MergedOver(form, found, done).text
      else MergedOver(form, found, done).text[k := found[k]]
  {
  }

  lemma ListStep(xs: seq<string>, found: map<string, string>, done: set<string>, k: string, g: ListField)
    requires done <= found.Keys && k in found && k !in done
    ensures ListAfter(xs, found, done + {k}, g) ==
      if ListColumn(g) == k && ParseStringArray(found[k]).Some? then ParseStringArray(found[k]).value
      else ListAfter(xs, found, done, g)
  {
  }

  lemma ListsDetermineForm(a: Form, b: Form)
    requires a.text == b.text && forall g :: ListOf(a, g) == ListOf(b, g)
    ensures a == b
  {
    assert ListOf(a, Interests) == ListOf(b, Interests);
    assert ListOf(a, ActivityPreferences) == ListOf(b, ActivityPreferences);
    assert ListOf(a, LanguagePreferences) == ListOf(b, LanguagePreferences);
  }

  /** After the merge, every found column that is not a list holds the found
      text; every list whose column was found and reads as a list holds that
      list; everything else is as it was. */
  lemma VoiceMergedMeaning(form: Form, found: map<string, string>)
    ensures var r := VoiceMerged(form, found);
      (forall k :: k in found && !IsListColumn(k) ==> k in r.text && r.text[k] == found[k])
      && (forall k :: k !in found ==> (k in r.text <==> k in form.text))
      && (forall k :: k !in found && k in form.text ==> r.text[k] == form.text[k])
      && (forall f :: ListColumn(f) in found && ParseStringArray(found[ListColumn(f)]).Some? ==>
            ListOf(r, f) == ParseStringArray(found[ListColumn(f)]).value)
      && (forall f :: ListColumn(f) !in found || ParseStringArray(found[ListColumn(f)]).None? ==>
            ListOf(r, f) == ListOf(form, f))
  {
  }

  /** A list the voice reader wrote out as a JSON array arrives in the form as
      that list. */
  lemma VoiceListReadsBack(form: Form, found: map<string, string>, f: ListField, words: seq<string>)
    requires ListColumn(f) in found && Some(found[ListColumn(f)]) == TranscriptFields.ListValue(words)
    ensures ListOf(VoiceMerged(form, found), f) == words
  {
    TranscriptFields.ListValueRoundTrip(words);
    VoiceMergedMeaning(form, found);
  }

  /** The form updater of `handleVoiceTranscription`: each found field is
      merged into a copy of the form, one entry at a time. */
  method MergeVoice(form: Form, found: map<string, string>) returns (updated: Form)
    ensures updated == VoiceMerged(form, found)
  {
    updated := form;
    var todo := found.Keys;
    ghost var done: set<string> := {};
    while todo != {}
      invariant done + todo == found.Keys && done !! todo
      invariant updated == MergedOver(form, found, done)
      decreases |todo|
    {
      var k :| k in todo;
      MergedStep(form, found, done, k);
      updated := VoiceEntry(updated, k, found[k]);
      done, todo := done + {k}, todo - {k};
    }
  }

  // ---------------------------------------------------------------- the submitted record

  /** A profile row as the insert sends it. */
  datatype ProfileRecord = ProfileRecord(columns: map<string, string>, interests: seq<string>,
                                         activityPreferences: seq<string>, languagePreferences: seq<string>)

  /** `handleSubmit`'s record: the account id first, then the form's fields
      (which win over it), then the user type (which wins over them). */
  function SubmittedRecord(userId: string, form: Form): ProfileRecord
  {
    ProfileRecord(map["id" := userId] + form.text + map["user_type" := "regular"],
                  form.interests, form.activityPreferences, form.languagePreferences)
  }

  /** The record is always a regular user's; its id is the account's unless the
      form itself has an `id` field; every other field and every list is the
      form's. */
  lemma SubmittedRecordMeaning(userId: string, form: Form)
    ensures var r := SubmittedRecord(userId, form);
      "user_type" in r.columns && r.columns["user_type"] == "regular"
      && "id" in r.columns && r.columns["id"] == (if "id" in form.text then form.text["id"] else userId)
      && (forall k :: k != "id" && k != "user_type" ==> (k in r.columns <==> k in form.text))
      && (forall k :: k != "id" && k != "user_type" && k in form.text ==> r.columns[k] == form.text[k])
      && r.interests == form.interests && r.activityPreferences == form.activityPreferences
      && r.languagePreferences == form.languagePreferences
  {
  }

  /** Merging the pattern reader's findings (or any mapping keyed by profile
      columns) never adds an `id` field, so a form without one keeps its record
      carrying the account id. */
  lemma ReaderFindingsKeepAccountId(userId: string, form: Form, found: map<string, string>)
    requires "id" !in form.text
    requires forall k :: k in found ==> k in TranscriptFields.ColumnNames
    ensures "id" !in VoiceMerged(form, found).text
    ensures SubmittedRecord(userId, VoiceMerged(form, found)).columns["id"] == userId
  {
    assert "id" !in TranscriptFields.ColumnNames;
    VoiceMergedMeaning(form, found);
    SubmittedRecordMeaning(userId, VoiceMerged(form, found));
  }

  // ---------------------------------------------------------------- the page

  class CreationPage {
    const user: AuthUser
    var formData: Form
    var currentInterest: string
    var currentActivityPref: string
    var currentLanguage: string
    var loading: bool

    /** The text typed in a list's entry box. */
    function Draft(f: ListField): string
      reads this
    {
      match f
      case Interests => currentInterest
      case ActivityPreferences => currentActivityPref
      case LanguagePreferences => currentLanguage
    }

    constructor(user: AuthUser)
      ensures this.user == user && formData == InitialForm(user.email) && !loading
      ensures forall f :: Draft(f) == ""
    {
      this.user := user;
      formData := InitialForm(user.email);
      currentInterest, currentActivityPref, currentLanguage := "", "", "";
      loading := false;
    }

    /** `handleInputChange`. */
    method InputChange(name: string, value: string)
      modifies this
      ensures formData == WithInput(old(formData), name, value)
      ensures forall f :: Draft(f) == old(Draft(f))
      ensures loading == old(loading)
    {
      formData := WithInput(formData, name, value);
    }

    /** Typing in a list's entry box. */
    method Type(f: ListField, text: string)
      modifies this
      ensures Draft(f) == text && formData == old(formData) && loading == old(loading)
      ensures forall g :: g != f ==> Draft(g) == old(Draft(g))
    {
      match f
      case Interests => currentInterest := text;
      case ActivityPreferences => currentActivityPref := text;
      case LanguagePreferences => currentLanguage := text;
    }

    /** `addToArray`, with the entry box of list `f`: the box is cleared exactly
        when its word is taken. */
    method AddToArray(f: ListField)
      modifies this
      ensures formData == WithList(old(formData), f, Added(ListOf(old(formData), f), old(Draft(f))))
      ensures Draft(f) == if Takes(ListOf(old(formData), f), old(Draft(f))) then "" else old(Draft(f))
      ensures forall g :: g != f ==> Draft(g) == old(Draft(g))
      ensures loading == old(loading)
    {
      var typed := Draft(f);
      var xs := ListOf(formData, f);
      var word := Trim(typed);
      if word != "" && word !in xs {
        formData := WithList(formData, f, xs + [word]);
        Type(f, "");
      } else {
        formData := WithList(formData, f, xs);
      }
    }

    /** `removeFromArray`. */
    method RemoveFromArray(f: ListField, word: string)
      modifies this
      ensures formData == WithList(old(formData), f, Removed(ListOf(old(formData), f), word))
      ensures forall g :: Draft(g) == old(Draft(g))
      ensures loading == old(loading)
    {
      formData := WithList(formData, f, Removed(ListOf(formData, f), word));
    }

    /** `handleVoiceTranscription`. */
    method VoiceTranscription(found: map<string, string>)
      modifies this
      ensures formData == VoiceMerged(old(formData), found)
      ensures forall f :: Draft(f) == old(Draft(f))
      ensures loading == old(loading)
    {
      formData := MergeVoice(formData, found);
    }

    /** `handleSubmit`: sends the record and reports whether the profile was
        created; the page stops loading either way. */
    method Submit(insert: StoreResult) returns (record: ProfileRecord, created: bool)
      modifies this
      ensures record == SubmittedRecord(user.id, formData)
      ensures created <==> insert.Stored?
      ensures !loading && formData == old(formData)
      ensures forall f :: Draft(f) == old(Draft(f))
    {
      loading := true;
      record := SubmittedRecord(user.id, formData);
      created := insert.Stored?;
      loading := false;
    }
  }
}
