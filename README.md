# SilverGenPals in Dafny

SilverGenPals is a companionship app for seniors. It has a Next.js client and a
small FastAPI speech service. This project models the client logic that decides
what the app shows and stores, and the speech service's request checks:

- **speech service** (`speech_backend.dfy`). The upload check of
  `/speech-to-text`, the empty-text check of `/text-to-speech`, and the blanket
  `except` that turns both of their 400s into 500s.
- **voice input** (`voice_input.dfy`, `transcript_fields.dfy`).
  - The recorder's states: recording, processing, error, audio chunks.
  - The choice of recording format and upload name.
  - The error message shown for each failure of the speech service.
  - The cleanup of the generative reader's JSON answer.
  - The pattern reader that turns a transcript into profile fields: name,
    gender, age and date of birth, phone, address, bio, emergency contact,
    interests, activity preferences, languages, mobility.
- **activity swipe** (`activity_swipe.dfy`). The drag gesture on the top card,
  the commit of a swipe past 100 pixels, the record a swipe asks the store to
  insert, and the reset of the stack.
- **swipe history** (`swipe_history.dfy`). The history joined with the sample
  activities, the filter, the counts, and deleting one swipe or all of them.
- **profile creation** (`profile_creation.dfy`, `profile_form.dfy`). The
  initial form, the set-like list editors, the merge of voice findings into the
  form, and the submitted record.
- **settings** (`settings.dfy`). The stored profile normalised into the form,
  input changes, removing an interest by position, and the save guard.
- **dashboard layout** (`dashboard_layout.dfy`). The display name, the
  initials, the active navigation item, and the sidebar flag.

Four modules are shared. `Text` models JavaScript and Python string
operations: trim, case, split and join, substring search, and number text.
`Json` models `JSON.stringify` and reads back a compact array of strings.
`ProfileForm` is the form that profile creation and settings both edit, with
their common input handler. `Store` is the store's answer to a write.

The model has two styles:

- **State.** Each React component that keeps state is a `class`, the
  dashboard layout's `Frame` included. Each handler is a method whose
  `ensures` gives the new state. Where the state is a value,
  that new state is stated through a pure transition function, and the lemmas
  are about those functions.
- **Outside the model.** The store (Supabase), the network, the clock, the
  browser's recorder and the generative model are not modelled. What they
  answer is a parameter: `StoreResult`, `FetchResult`, `Outcome`, `Generator`,
  the current year, `granted`/`supported`.

## Model

| member | source | states |
|---|---|---|
| SpeechBackend.SpeechToTextReplies | backend/main.py:53-74 | a transcription is returned exactly when the file name is present, has an allowed extension (ignoring case) and transcription succeeds, and it is the model's text stripped of surrounding white space; every failure is a 500 whose detail starts with "Error transcribing audio: " |
| SpeechBackend.RejectedUploadReply | backend/main.py:56-59 | a refused upload does not reach the client as a 400: the `except` re-raises it as a 500 whose detail is the prefix, "400: " and the extension message |
| SpeechBackend.AcceptedIgnoresCase | backend/main.py:58 | a name is accepted exactly when its lower-cased form is |
| SpeechBackend.RecorderUploadNames | backend/main.py:56-59 | recording.mp4, .wav and .ogg are accepted; recording.webm is refused |
| SpeechBackend.RequestLanguage | backend/main.py:22-24 | a request without a language speaks "en"; otherwise its own language |
| SpeechBackend.TextToSpeechReplies | backend/main.py:33-51 | speech is produced exactly when the text has a non-white-space character and synthesis succeeds; a blank text, like a synthesis failure, is a 500 "Error generating speech: …" |
| VoiceInput.SelectMimeTypePreference | frontend/silvergenpals/components/voice-input.tsx:32-49 | the recorder uses the first supported type of mp4, wav, ogg, webm (with its extension), and the opus fallback exactly when none is supported |
| VoiceInput.UploadFormatAccepted | frontend/silvergenpals/components/voice-input.tsx:101-124 | the upload name built from the first chunk's type is accepted by the speech service exactly unless that type names webm and none of mp4, wav, ogg |
| VoiceInput.UploadOfWebm | frontend/silvergenpals/components/voice-input.tsx:119-123 | a webm chunk, or the opus fallback type, is uploaded as recording.webm |
| VoiceInput.RecordedFormatUploadName | frontend/silvergenpals/components/voice-input.tsx:32-124 | the upload name is "recording" followed by the extension chosen when recording started |
| VoiceInput.ServiceUrl | frontend/silvergenpals/components/voice-input.tsx:136 | the default address is used exactly when the configured one is missing or empty (or is the default) |
| VoiceInput.HttpFailureMessages | frontend/silvergenpals/components/voice-input.tsx:142-188 | the tests are substring tests on the whole message `HTTP error! status: …`: status 422 gives the unsupported-format message; status 500 whose message holds no "422" gives the server error quoting the message; a message holding neither "422" nor "500" gives the service error |
| VoiceInput.BraceSpanMeaning | frontend/silvergenpals/components/voice-input.tsx:272-275 | the JSON span is found exactly when a `{` precedes a `}`, and runs from the first `{` to the last `}` |
| VoiceInput.CleanFields | frontend/silvergenpals/components/voice-input.tsx:280-290 | the loop over the parsed entries builds the cleaned record |
| VoiceInput.CleanedFieldsMeaning | frontend/silvergenpals/components/voice-input.tsx:282-290 | a key is kept exactly when some entry with it is not null and not "", its text is never empty, and with distinct keys it is that entry's `String`/`JSON.stringify` text |
| VoiceInput.CellTextNonEmpty | frontend/silvergenpals/components/voice-input.tsx:283-288 | a kept value never turns into empty text |
| VoiceInput.ArrayCellReadsBack | frontend/silvergenpals/components/voice-input.tsx:284-285 | an array of strings is kept as JSON text that reads back as the same list |
| VoiceInput.ParseTranscriptionWithGemini | frontend/silvergenpals/components/voice-input.tsx:198-299 | the fields handed on: the cleaned generative answer, or the pattern reader's fields when there is no key or any step fails |
| VoiceInput.GeneratedFieldsSource | frontend/silvergenpals/components/voice-input.tsx:198-299 | whenever the generative path fails (no key, no answer, an empty answer, no brace span, or a span that does not parse) the pattern reader's fields are handed on; otherwise exactly the cleaned entries of the answer |
| VoiceInput.GeneratedFieldsKept | frontend/silvergenpals/components/voice-input.tsx:272-288 | when the answer parses, every field handed on is a surviving entry of it, with non-empty text |
| VoiceInput.ProcessingDelivers | frontend/silvergenpals/components/voice-input.tsx:89-172 | a transcript is handed on exactly when the service is reached, accepts the upload and hears something; it is the stripped model text |
| VoiceInput.WebmRecordingShowsServerError | frontend/silvergenpals/components/voice-input.tsx:119-185 | a webm recording is refused, and the user sees a "Server error: HTTP error! status: 500 - …400…" message, not the unsupported-format one |
| VoiceInput.ProcessingRejected | frontend/silvergenpals/components/voice-input.tsx:142-185 | any refused upload is shown with the message of the failure the 500 answer raises |
| VoiceInput.RejectionFailureText | frontend/silvergenpals/components/voice-input.tsx:142-153 | the thrown text for a refused upload holds "HTTP error" and "500" and never "422" |
| VoiceInput.VoiceRecorder.constructor | frontend/silvergenpals/components/voice-input.tsx:13-17 | idle: not recording, not processing, no error, no chunks |
| VoiceInput.VoiceRecorder.StartRecording | frontend/silvergenpals/components/voice-input.tsx:19-80 | with microphone access: error cleared, chunks emptied, recording with the preferred type; without: the microphone message and nothing else |
| VoiceInput.VoiceRecorder.DataAvailable | frontend/silvergenpals/components/voice-input.tsx:59-63 | a non-empty chunk is appended; an empty one is dropped |
| VoiceInput.VoiceRecorder.StopRecording | frontend/silvergenpals/components/voice-input.tsx:82-87 | stops exactly when a recorder exists and is recording |
| VoiceInput.VoiceRecorder.Tap | frontend/silvergenpals/components/voice-input.tsx:507-509 | a disabled or processing button does nothing; otherwise it stops a recording or starts one |
| VoiceInput.VoiceRecorder.BeginProcessing | frontend/silvergenpals/components/voice-input.tsx:89-95 | no chunks: the "No audio data recorded" error, no processing; otherwise processing starts |
| VoiceInput.VoiceRecorder.FinishProcessing | frontend/silvergenpals/components/voice-input.tsx:97-195 | the delivered transcript and fields, or the error message, follow `Processing`; afterwards processing has stopped and the chunks are gone, whatever happened |
| TranscriptFields.Named | frontend/silvergenpals/components/voice-input.tsx:302 | the record has a key exactly for each profile column the reader found |
| TranscriptFields.NamePartsRejoin | frontend/silvergenpals/components/voice-input.tsx:339-346 | the first name is one word; with a last name, first + " " + last is the trimmed capture; otherwise the first name is the whole capture |
| TranscriptFields.NameOfMeaning | frontend/silvergenpals/components/voice-input.tsx:318-349 | a last name only comes with a first name, the first name has no space, and the two rejoin to a capture of the first name pattern that matches |
| TranscriptFields.ExtractName | frontend/silvergenpals/components/voice-input.tsx:336-349 | the pattern loop with `break` gives `NameOf` |
| TranscriptFields.AgeOfMeaning | frontend/silvergenpals/components/voice-input.tsx:352-369 | age and date of birth come together; the age is the text of 1..99 and the date is "(year − age)-01-01" |
| TranscriptFields.ExtractAge | frontend/silvergenpals/components/voice-input.tsx:358-369 | the loop with `break` gives `AgeOf` |
| TranscriptFields.CleanPhone | frontend/silvergenpals/components/voice-input.tsx:382-383 | a cleaned number is all digits and 8 to 15 long |
| TranscriptFields.FoundPhoneIsDigits | frontend/silvergenpals/components/voice-input.tsx:373-410 | the phone kept is 8 to 15 decimal digits |
| TranscriptFields.ExtractPhone | frontend/silvergenpals/components/voice-input.tsx:373-410 | context patterns first, then standalone matches in order, with the nested `break`s, give `FoundPhone` |
| TranscriptFields.ExtractAddress | frontend/silvergenpals/components/voice-input.tsx:413-425 | the loop with `break` gives `AddressOf` |
| TranscriptFields.AddressIsOneClause | frontend/silvergenpals/components/voice-input.tsx:413-425 | the address is the trimmed text right after one of the three phrases, running through commas up to the next `.`, `!` or `?` or the end of the text; it holds none of them and is already trimmed |
| TranscriptFields.FirstPhraseRunMaximal | frontend/silvergenpals/components/voice-input.tsx:413-425 | a capture of `phrase([cls]+)` follows a matched phrase and runs to the first character outside the class or the end |
| TranscriptFields.SampleAddress | frontend/silvergenpals/components/profile-creation.tsx:186-187 | on the form's sample sentence the address is "123 Main Street, I enjoy reading and gardening, my emergency contact is Mary Smith, I speak English and Mandarin" |
| TranscriptFields.NamePartsTwoWords | frontend/silvergenpals/components/voice-input.tsx:339-346 | two words without a space, joined by one space and with no white space at either end, are taken apart into exactly that first and last name |
| TranscriptFields.SampleName | frontend/silvergenpals/components/profile-creation.tsx:186-187 | on the form's sample sentence the name is "John" "Smith" |
| TranscriptFields.SampleAge | frontend/silvergenpals/components/profile-creation.tsx:186-187 | on the form's sample sentence the age is "65" and the date of birth is "(year − 65)-01-01" |
| TranscriptFields.ExtractEmergencyContact | frontend/silvergenpals/components/voice-input.tsx:433-447 | the loop with `break` gives `EmergencyOf` |
| TranscriptFields.EmergencyPhoneIsDigits | frontend/silvergenpals/components/voice-input.tsx:433-447 | an emergency phone is only set with a name and is at least eight digits |
| TranscriptFields.MentionedMeaning | frontend/silvergenpals/components/voice-input.tsx:456-458 | a word is found exactly when it is a keyword occurring in the lowered text; found words keep keyword order and have no repeats |
| TranscriptFields.CategoriesMentionedMeaning | frontend/silvergenpals/components/voice-input.tsx:465-477 | a category is found exactly when one of its keywords occurs |
| TranscriptFields.ListValueRoundTrip | frontend/silvergenpals/components/voice-input.tsx:460-462 | a list field is present exactly when the list is non-empty, and its JSON text reads back as the list |
| TranscriptFields.GenderOf | frontend/silvergenpals/components/voice-input.tsx:326-334 | a gender found is one the form offers |
| TranscriptFields.FirstCategoryMeaning | frontend/silvergenpals/components/voice-input.tsx:326-334 | reading a priority table gives the category of the first row with a phrase in the text, and none exactly when no row has one |
| TranscriptFields.GenderPriority | frontend/silvergenpals/components/voice-input.tsx:326-334 | the gender chain is the table male, female, non-binary, prefer-not-to-say read in that order: "i am male" always gives male, and prefer-not-to-say only when no earlier phrase occurs |
| TranscriptFields.MobilityOf | frontend/silvergenpals/components/voice-input.tsx:492-500 | a mobility level found is one the form offers |
| TranscriptFields.MobilityPriority | frontend/silvergenpals/components/voice-input.tsx:492-500 | the mobility chain is the table wheelchair, low, moderate, high read in that order: "wheelchair" always wins, and high only when no wheelchair, low or moderate phrase occurs |
| TranscriptFields.ParseTranscriptionToFields | frontend/silvergenpals/components/voice-input.tsx:301-503 | the reader's loops and branches give `HeuristicFields` |
| TranscriptFields.ShortTranscriptGivesNothing | frontend/silvergenpals/components/voice-input.tsx:303-312 | a transcript shorter than five characters after trimming yields an empty record |
| TranscriptFields.ReaderPhone | frontend/silvergenpals/components/voice-input.tsx:373-410 | the reader's phone is 8 to 15 digits |
| TranscriptFields.ReaderAge | frontend/silvergenpals/components/voice-input.tsx:352-369 | the reader's age is 1..99 and comes with its date of birth |
| TranscriptFields.ReaderEmergencyContact | frontend/silvergenpals/components/voice-input.tsx:433-447 | an emergency phone comes with a name and has at least eight digits |
| TranscriptFields.ReaderChoicesAreOptions | frontend/silvergenpals/components/voice-input.tsx:326-334 | gender and mobility are only set to values the profile form offers |
| TranscriptFields.MentionedList | frontend/silvergenpals/components/voice-input.tsx:456-462 | a keyword list is present exactly when a keyword is mentioned, and reads back as the mentioned keywords |
| TranscriptFields.KeywordListsDistinct | frontend/silvergenpals/components/voice-input.tsx:450-454 | the interest and language keyword lists have no repeats |
| TranscriptFields.ReaderInterests | frontend/silvergenpals/components/voice-input.tsx:450-462 | interests are present exactly when the transcript is long enough and mentions one, and read back as the mentioned interests in list order |
| TranscriptFields.ReaderLanguages | frontend/silvergenpals/components/voice-input.tsx:484-489 | the same for languages |
| ActivitySwipe.ActionName | frontend/silvergenpals/components/activity-swipe.tsx:39 | an action is stored as "yes" or "no" |
| ActivitySwipe.ActivityUuidTable | frontend/silvergenpals/components/activity-swipe.tsx:46-59 | exactly ids 1..6 have an identifier, each different, ending in the id's digit |
| ActivitySwipe.ReleaseDecisionMeaning | frontend/silvergenpals/components/activity-swipe.tsx:137-144 | a release swipes yes beyond 100 pixels, no beyond −100, and nothing in between |
| ActivitySwipe.GestureGuards | frontend/silvergenpals/components/activity-swipe.tsx:118-176 | presses are ignored while animating; moves and releases are ignored unless dragging and not animating; a move sets the offset from the drag start |
| ActivitySwipe.ReleaseOutcome | frontend/silvergenpals/components/activity-swipe.tsx:132-145 | a release either starts the top card's exit or snaps the card back to the centre |
| ActivitySwipe.SwipeAdvancesByOne | frontend/silvergenpals/components/activity-swipe.tsx:39-116 | a completed swipe moves exactly one card on, centred and not animating |
| ActivitySwipe.SwipeIgnored | frontend/silvergenpals/components/activity-swipe.tsx:40 | a swipe while animating or past the last card changes nothing |
| ActivitySwipe.ResetIdempotent | frontend/silvergenpals/components/activity-swipe.tsx:178-186 | reset gives the first card, centred and still; resetting twice equals resetting once; the caught-up view shows after reset only for an empty stack |
| ActivitySwipe.ConsistentPreserved | frontend/silvergenpals/components/activity-swipe.tsx:118-188 | every handler keeps the top card at most one past the last, and an animation only over an existing card |
| ActivitySwipe.MarksVisible | frontend/silvergenpals/components/activity-swipe.tsx:242-248 | PASS shows only left of −50 pixels, LIKE only right of 50, never both, with opacity in [0, 1] |
| ActivitySwipe.ProgressLabelReads | frontend/silvergenpals/components/activity-swipe.tsx:296 | the progress line reads back as `index + 1`, between 1 and the count, then " / " and the count, which reads back as the count |
| ActivitySwipe.SwipeRequest | frontend/silvergenpals/components/activity-swipe.tsx:46-75 | a record is requested exactly for ids 1..6, with the user, the mapped identifier and the action's name |
| ActivitySwipe.SwipeController.constructor | frontend/silvergenpals/components/activity-swipe.tsx:29-33 | the stack starts at the first card, still |
| ActivitySwipe.SwipeController.Press | frontend/silvergenpals/components/activity-swipe.tsx:118-122 | the state becomes `Pressed` of the old state |
| ActivitySwipe.SwipeController.Move | frontend/silvergenpals/components/activity-swipe.tsx:124-130 | the state becomes `Moved` of the old state |
| ActivitySwipe.SwipeController.Swipe | frontend/silvergenpals/components/activity-swipe.tsx:39-116 | the state becomes `SwipeStarted`; a guarded swipe asks nothing; otherwise the `SwipeRequest` record is asked for and history listeners are told only when the insert succeeds |
| ActivitySwipe.SwipeController.Release | frontend/silvergenpals/components/activity-swipe.tsx:132-145 | the state becomes `Released`; a release while dragging, past 100 pixels either way and with a card left asks for the top card's record with 'yes' to the right and 'no' to the left, and notifies exactly on a stored insert; any other release asks for nothing |
| ActivitySwipe.SwipeController.AnimationFinished | frontend/silvergenpals/components/activity-swipe.tsx:106-110 | the state becomes `Advanced` |
| ActivitySwipe.SwipeController.ResetStack | frontend/silvergenpals/components/activity-swipe.tsx:178-186 | the state becomes `Reset` |
| SwipeHistory.UuidRoundTrip | frontend/silvergenpals/components/swipe-history-client.tsx:144-153 | reading an identifier back inverts the swipe stack's table, and any other text maps to 0 |
| SwipeHistory.ActivityForMeaning | frontend/silvergenpals/components/swipe-history-client.tsx:153-173 | a sample's identifier shows that sample; any other shows the "Unknown Activity" placeholder |
| SwipeHistory.AttachActivities | frontend/silvergenpals/components/swipe-history-client.tsx:142-175 | missing data gives an empty history; otherwise each row, in order, with its activity attached |
| SwipeHistory.FilteredHistoryMeaning | frontend/silvergenpals/components/swipe-history-client.tsx:226-229 | "all" shows everything; an action shows exactly its entries, in order |
| SwipeHistory.StatsAddUp | frontend/silvergenpals/components/swipe-history-client.tsx:231-235 | liked + passed = total |
| SwipeHistory.WithoutMeaning | frontend/silvergenpals/components/swipe-history-client.tsx:198 | deleting removes exactly the entries with that id and keeps the rest in order |
| SwipeHistory.HistoryView.constructor | frontend/silvergenpals/components/swipe-history-client.tsx:33-35 | empty, loading, filter "all" |
| SwipeHistory.HistoryView.FetchHistory | frontend/silvergenpals/components/swipe-history-client.tsx:118-184 | an answer replaces the history with the attached rows; an error keeps it; loading ends either way |
| SwipeHistory.HistoryView.DeleteSwipe | frontend/silvergenpals/components/swipe-history-client.tsx:186-202 | on success the swipe's entries go; on failure nothing changes |
| SwipeHistory.HistoryView.ClearAll | frontend/silvergenpals/components/swipe-history-client.tsx:204-224 | without confirmation nothing is asked; with it the user's history is deleted and emptied on success |
| SwipeHistory.HistoryView.SetFilter | frontend/silvergenpals/components/swipe-history-client.tsx:316-336 | only the filter changes |
| ProfileForm.ListColumns | frontend/silvergenpals/components/profile-creation.tsx:72 | the list columns are exactly the three list fields' names, one each |
| ProfileForm.WithList | frontend/silvergenpals/components/profile-creation.tsx:55-58 | one list replaced, the other lists and the text fields unchanged |
| ProfileForm.WithInputChangesOneField | frontend/silvergenpals/components/profile-creation.tsx:45-51 | an input change sets its own field and leaves every other field as it was |
| ProfileCreation.InitialFormMeaning | frontend/silvergenpals/components/profile-creation.tsx:16-36 | the form starts with every text column: the account's e-mail or "", "Singapore" as country, "" elsewhere, and empty lists |
| ProfileCreation.AddedMeaning | frontend/silvergenpals/components/profile-creation.tsx:53-61 | adding appends the trimmed word only when it is non-empty and new; the list stays free of repeats; adding twice equals adding once |
| ProfileCreation.RemovedMeaning | frontend/silvergenpals/components/profile-creation.tsx:91-96 | removing keeps every other word in order and no copy of the removed one; it undoes an add |
| ProfileCreation.ListFieldOf | frontend/silvergenpals/components/profile-creation.tsx:72 | a list column names the list field of that name |
| ProfileCreation.MergedStep | frontend/silvergenpals/components/profile-creation.tsx:71-82 | merging one more found field is one entry's update |
| ProfileCreation.VoiceMergedMeaning | frontend/silvergenpals/components/profile-creation.tsx:68-85 | after the merge each found text column holds its value, each parsable list column its list, and everything else is unchanged |
| ProfileCreation.VoiceListReadsBack | frontend/silvergenpals/components/profile-creation.tsx:72-75 | a list the pattern reader wrote out arrives in the form as the same list |
| ProfileCreation.MergeVoice | frontend/silvergenpals/components/profile-creation.tsx:68-85 | the loop over the found entries gives `VoiceMerged` |
| ProfileCreation.SubmittedRecordMeaning | frontend/silvergenpals/components/profile-creation.tsx:103-110 | the record is always "regular"; its id is the account's unless the form has an "id" field, which the spread lets win; every other form field is copied |
| ProfileCreation.ReaderFindingsKeepAccountId | frontend/silvergenpals/components/profile-creation.tsx:103-105 | findings keyed by profile columns never displace the account id |
| ProfileCreation.CreationPage.constructor | frontend/silvergenpals/components/profile-creation.tsx:16-41 | the initial form, empty entry boxes, not loading |
| ProfileCreation.CreationPage.InputChange | frontend/silvergenpals/components/profile-creation.tsx:45-51 | the form becomes `WithInput` of the old form |
| ProfileCreation.CreationPage.Type | frontend/silvergenpals/components/profile-creation.tsx:417 | typing sets one entry box only |
| ProfileCreation.CreationPage.AddToArray | frontend/silvergenpals/components/profile-creation.tsx:53-61 | the list becomes `Added`; the box is cleared exactly when the word was taken |
| ProfileCreation.CreationPage.RemoveFromArray | frontend/silvergenpals/components/profile-creation.tsx:91-96 | the list becomes `Removed` |
| ProfileCreation.CreationPage.VoiceTranscription | frontend/silvergenpals/components/profile-creation.tsx:63-89 | the form becomes `VoiceMerged` |
| ProfileCreation.CreationPage.Submit | frontend/silvergenpals/components/profile-creation.tsx:98-141 | the record sent is `SubmittedRecord`; the profile is created exactly when the insert succeeds; loading ends |
| Settings.NormalisedMeaning | frontend/silvergenpals/app/dashboard/settings/page.tsx:58-79 | the form has exactly the twelve columns: stored value or "" when null; a null or empty country becomes "Singapore"; null lists become []; no e-mail |
| Settings.InitialIsEmptyProfile | frontend/silvergenpals/app/dashboard/settings/page.tsx:15-31 | the initial form is the normalisation of an empty profile |
| Settings.WithoutIndexMeaning | frontend/silvergenpals/app/dashboard/settings/page.tsx:300-304 | removing by position drops exactly that entry, shifts the later ones down, and keeps other equal values |
| Settings.SettingsPage.constructor | frontend/silvergenpals/app/dashboard/settings/page.tsx:15-31 | loading, not saving, the initial form |
| Settings.SettingsPage.CheckUserAndProfile | frontend/silvergenpals/app/dashboard/settings/page.tsx:39-86 | no account: nothing read; else the first row, if any, becomes the profile and fills the form; loading ends; the form never holds the e-mail |
| Settings.SettingsPage.InputChange | frontend/silvergenpals/app/dashboard/settings/page.tsx:88-94 | the form becomes `WithInput` for one of the rendered inputs |
| Settings.SettingsPage.RemoveInterest | frontend/silvergenpals/app/dashboard/settings/page.tsx:300-304 | the interests become `WithoutIndex` |
| Settings.SettingsPage.SaveProfile | frontend/silvergenpals/app/dashboard/settings/page.tsx:96-120 | without account and profile nothing happens; otherwise the form is sent for the account's id, saving ends, the profile is refreshed only on success, and no e-mail is written |
| DashboardLayout.DisplayName | frontend/silvergenpals/components/dashboard-layout.tsx:56 | the shown name is never empty |
| DashboardLayout.LocalPartMeaning | frontend/silvergenpals/components/dashboard-layout.tsx:56 | `split('@')[0]` is the longest `@`-free prefix of the address |
| DashboardLayout.DisplayNameMeaning | frontend/silvergenpals/components/dashboard-layout.tsx:56 | a non-empty display name wins; else the non-empty address part before the first `@`; else "User" |
| DashboardLayout.Initials | frontend/silvergenpals/components/dashboard-layout.tsx:57 | at most two characters |
| DashboardLayout.FirstCharsAreWordStarts | frontend/silvergenpals/components/dashboard-layout.tsx:57 | split-map-join picks exactly the characters that start a space-separated word; empty words add nothing |
| DashboardLayout.InitialsMeaning | frontend/silvergenpals/components/dashboard-layout.tsx:57 | the initials are the first two word starts, upper-cased; a name starting with a non-space leads with that character |
| DashboardLayout.AnonymousInitials | frontend/silvergenpals/components/dashboard-layout.tsx:56-57 | no account shows "User" with initial "U" |
| DashboardLayout.HrefsDistinct | frontend/silvergenpals/components/dashboard-layout.tsx:26-32 | no two links share a target |
| DashboardLayout.ActiveItemsMeaning | frontend/silvergenpals/components/dashboard-layout.tsx:104-105 | the link whose target is the path is the only active one; a path that is no target, sub-pages included, activates none |
| DashboardLayout.HistoryPageHighlightsNothing | frontend/silvergenpals/components/dashboard-layout.tsx:26-32 | the activity history page highlights no link |
| DashboardLayout.StepMeaning | frontend/silvergenpals/components/dashboard-layout.tsx:78-150 | only the menu button leaves the sidebar open; only a link changes the path, and then that link alone is active |
| DashboardLayout.RunSidebar | frontend/silvergenpals/components/dashboard-layout.tsx:35-150 | after any clicks the sidebar is open exactly when the last click was the menu button |
| DashboardLayout.Initial | frontend/silvergenpals/components/dashboard-layout.tsx:35 | the sidebar starts closed |
| DashboardLayout.Frame.constructor | frontend/silvergenpals/components/dashboard-layout.tsx:35-36 | the mounted layout starts in `Initial` at the router's path |
| DashboardLayout.Frame.Click | frontend/silvergenpals/components/dashboard-layout.tsx:78-150 | a click's new state is `Step` of the old one |
| Json.ParseStringifyStrings | frontend/silvergenpals/components/profile-creation.tsx:74 | `JSON.parse` of `JSON.stringify` of a list of strings gives the list back |

## Left out

- The store (Supabase auth, insert, select, update, delete), `fetch` to the
  speech service and the generative API, `MediaRecorder`, `getUserMedia`,
  `Blob`/`FormData`, `setTimeout`, `alert`, `confirm`, `console` and the
  router. These are foreign I/O. Their outcomes are parameters, and a thrown
  exception is treated like an error answer.
- The generative reader's prompt text and the model itself. Its answer text is
  a parameter (`Generator`).
- Whisper, gTTS, temporary files, CORS and the server wiring in
  `backend/main.py`.
- `new Date().getFullYear()` is a `year` parameter. Date formatting for the
  history list is not modelled.
- Letter case is ASCII only. `toLowerCase`, `toUpperCase` and Python's
  `lower()` are modelled on A–Z; other scripts' case mappings are not modelled.
- `Json.Stringify` writes integers only; floating-point numbers in the
  generative answer are not modelled.
- `Json.ParseStringArray` reads only the compact string-array text that
  `JSON.stringify` writes. In the voice merge, `JSON.parse` accepts any JSON
  (spaces, numbers, non-arrays), and the page would store such a value in the
  list field. The model keeps the old list for anything that is not a
  compact array of strings.
- Regular expressions are modelled per pattern, for the patterns the reader
  uses, not as a general regex engine.
- CSS transforms, rotation, the card's own fade (`opacity = 1 - |x| * 0.002`)
  and animation timing. The end of the exit animation is a discrete step,
  `AnimationFinished`. Pointer positions are whole pixels.
- The order of keys in `Object.entries` during the voice merge. Keys of a
  record are distinct, so the order does not change the result.
- `handleSignOut` on the dashboard: the sign-out call and the redirect are
  store and router I/O.
- The mock activity catalogue's display strings are kept as data; the rendering
  of pages is not modelled.
- DashboardLayout.Initials: strings are sequences of Unicode scalar values,
  while `n[0]` and `.slice(0, 2)` in the component count UTF-16 code units.
  For a name starting with a character outside the Basic Multilingual Plane
  (an emoji, as in "😀 Ann") the component takes half of a surrogate pair;
  the model takes the whole character, and `|r| <= 2` counts characters,
  not code units.
- VoiceInput.Generator: `entriesOf` is any function, so it may give an
  entry list with a repeated key, which `JSON.parse` never does.
  `CleanedFieldsMeaning` states each entry's value only when the keys are
  distinct, as they are for every object `JSON.parse` returns.
- Settings.SettingsPage.CheckUserAndProfile: the redirect to the login page
  for a visitor without an account is router I/O. The model only records that
  nothing is read.
